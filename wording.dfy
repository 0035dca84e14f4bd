/** The words each handler generation puts in front of "your PR" / "a PR"
    for a review state. */
module Wording {
  import opened Wrappers

  /** Lower-case states, as GitHub's webhooks send them. */
  function LowerActionText(state: string): (r: Option<string>)
    ensures r.Some? <==> state in {"approved", "changes_requested", "commented"}
  {
    if state == "approved" then Some("approved")
    else if state == "changes_requested" then Some("requested changes to")
    else if state == "commented" then Some("commented on")
    else None
  }

  /** Upper-case states, as the GitHub Action variants expect them. */
  function UpperActionText(state: string): (r: Option<string>)
    ensures r.Some? <==> state in {"APPROVED", "CHANGES_REQUESTED", "COMMENTED"}
  {
    if state == "APPROVED" then Some("approved")
    else if state == "CHANGES_REQUESTED" then Some("requested changes to")
    else if state == "COMMENTED" then Some("commented on")
    else None
  }

  /** How a template literal renders a possibly-unassigned string: an
      unassigned `actionText` appears as the text "undefined". */
  function Rendered(text: Option<string>): string
  {
    match text
    case Some(t) => t
    case None => "undefined"
  }

  /** The tables give the same words for the same state spelt in either
      case, and no state has words in both, so a handler written for one
      spelling renders "undefined" for every state of the other. */
  lemma ActionTextsAgree(state: string)
    ensures LowerActionText("approved") == UpperActionText("APPROVED") == Some("approved")
    ensures LowerActionText("changes_requested") == UpperActionText("CHANGES_REQUESTED") == Some("requested changes to")
    ensures LowerActionText("commented") == UpperActionText("COMMENTED") == Some("commented on")
    ensures LowerActionText(state).Some? ==> UpperActionText(state).None?
    ensures UpperActionText(state).Some? ==> LowerActionText(state).None?
  {
  }
}
