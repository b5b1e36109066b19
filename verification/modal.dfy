/**
 * The confirmation dialog of the shared utilities, as a promise that has
 * settled: `showModal` resolves with the user's answer (`res.confirm`) and
 * has no path that rejects, so a `.catch` after it never runs.
 */
module Modal {
  import opened JsValue

  /** How a promise settled. */
  datatype Settled = Resolved(answer: Value) | Rejected

  /** `showModal(title, content)` answered with `confirmed`. */
  function ShowModal(confirmed: bool): (p: Settled)
    ensures p.Resolved?
    ensures Truthy(p.answer) <==> confirmed
  {
    Resolved(Bool(confirmed))
  }
}
