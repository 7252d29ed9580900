/** Decision requests: their lifecycle, and which of them are material
    (sdf_core/decision_gate.py, sdf_core/db.py). */
module Requests {
  import opened Results

  datatype RequestStatus = Pending | Approved | Rejected | Answered

  // A request is material when it is an agent's and the append-only
  // classification of its message says so; a plan approval never is.
  predicate Material<M(==)>(aboutPlan: bool, message: Option<M>, classified: map<M, bool>) {
    !aboutPlan && message.Some? && message.value in classified && classified[message.value]
  }
}
