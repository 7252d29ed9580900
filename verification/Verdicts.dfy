/** What a check, an evaluation or a verified subtask comes to. */
module Verdicts {
  datatype Verdict = Pass | Fail | Inconclusive
}
