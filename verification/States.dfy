/** The lifecycles of Tasks and Attempts (sdf_core/state.py). */
module States {
  datatype TaskState = Created | Ready | Running | Evaluating | Succeeded | Failed | Inconclusive

  datatype AttemptState = Created | Dispatched | Running | Completed | Failed | Cancelled

  predicate TaskStep(from: TaskState, to: TaskState) {
    match from
    case Created => to == TaskState.Ready
    case Ready => to == TaskState.Running
    case Running => to == TaskState.Evaluating
    case Evaluating => to == TaskState.Succeeded || to == TaskState.Failed || to == TaskState.Inconclusive
    case Succeeded => false
    case Failed => to == TaskState.Ready
    case Inconclusive => to == TaskState.Ready
  }

  predicate AttemptStep(from: AttemptState, to: AttemptState) {
    match from
    case Created => to == AttemptState.Dispatched
    case Dispatched => to == AttemptState.Running
    case Running => to == AttemptState.Completed || to == AttemptState.Failed || to == AttemptState.Cancelled
    case _ => false
  }

  // Both tables, transition by transition.
  lemma TablesAre(a: TaskState, b: TaskState, c: AttemptState, d: AttemptState)
    ensures TaskStep(a, b) <==>
              (a, b) in {(TaskState.Created, TaskState.Ready), (TaskState.Ready, TaskState.Running),
                         (TaskState.Running, Evaluating), (Evaluating, Succeeded), (Evaluating, TaskState.Failed),
                         (Evaluating, Inconclusive), (TaskState.Failed, TaskState.Ready),
                         (Inconclusive, TaskState.Ready)}
    ensures AttemptStep(c, d) <==>
              (c, d) in {(AttemptState.Created, Dispatched), (Dispatched, AttemptState.Running),
                         (AttemptState.Running, Completed), (AttemptState.Running, AttemptState.Failed),
                         (AttemptState.Running, Cancelled)}
  {
  }
}
