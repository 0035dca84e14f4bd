/** The GitHub Action variant (src/main.ts): requested reviewers are asked,
    every review goes to the owner with upper-case states, and bodies name
    the PR by its plain title in "has ..." words. The batch `run` builds is
    never sent. */
module MainAction {
  import opened Wrappers
  import opened Types
  import opened Users
  import opened Wording

  function ReviewRequestBody(pr: PullRequest): string
  {
    pr.user.login + " has " + "requested your review on a PR: " + pr.title
  }

  /** `handlePREvent`: one request per requested reviewer, in order. */
  function HandlePREvent(p: Payload): (r: seq<Message>)
    ensures p.action != "review_requested" ==> r == []
    ensures p.action == "review_requested" ==>
      |r| == |p.pullRequest.requestedReviewers| &&
      forall i | 0 <= i < |r| ::
        r[i].githubUsername == Some(p.pullRequest.requestedReviewers[i].login) &&
        r[i].body == ReviewRequestBody(p.pullRequest)
    ensures AddressedByLogin(r)
  {
    if p.action != "review_requested" then []
    else Notify(p.pullRequest.requestedReviewers, ReviewRequestBody(p.pullRequest))
  }

  function ReviewBody(p: Payload): string
  {
    p.review.user.login + " has " + Rendered(UpperActionText(p.review.state)) + " your PR: " + p.pullRequest.title
  }

  /** `handleReviewEvent`: a submitted review is reported to the owner
      alone. */
  function HandleReviewEvent(p: Payload): (r: seq<Message>)
    ensures p.action != "submitted" ==> r == []
    ensures p.action == "submitted" ==>
      |r| == 1 && r[0].githubUsername == Some(p.pullRequest.user.login) && r[0].body == ReviewBody(p)
    ensures AddressedByLogin(r)
  {
    if p.action != "submitted" then []
    else [ToLogin(p.pullRequest.user.login, ReviewBody(p))]
  }

  /** Only the upper-case states have words; the lower-case states GitHub's
      webhooks send come out as "undefined". */
  lemma ReviewWording(p: Payload)
    ensures var words := if p.review.state == "APPROVED" then "approved"
        else if p.review.state == "CHANGES_REQUESTED" then "requested changes to"
        else if p.review.state == "COMMENTED" then "commented on"
        else "undefined";
      ReviewBody(p) == p.review.user.login + " has " + words + " your PR: " + p.pullRequest.title
    ensures p.review.state in {"approved", "changes_requested", "commented"} ==>
      ReviewBody(p) == p.review.user.login + " has undefined your PR: " + p.pullRequest.title
  {
    if p.review.state in {"approved", "changes_requested", "commented"} {
      assert UpperActionText(p.review.state).None?;
      assert " has " + "undefined" + " your PR: " == " has undefined your PR: ";
    }
  }

  function CommentBody(p: Payload): string
  {
    p.comment.user.login + " commented on " + p.pullRequest.title + ": " + p.comment.body
  }

  /** `handleCommentEvent`: the owner and the requested reviewers, minus
      the commenter, receive the comment. */
  function HandleCommentEvent(p: Payload): (r: seq<Message>)
    ensures p.action != "created" ==> r == []
    ensures p.action == "created" ==>
      var audience := CommentAudience(p.pullRequest.user, p.pullRequest.requestedReviewers, p.comment.user.login);
      |r| == |audience| &&
      forall i | 0 <= i < |r| :: r[i].githubUsername == Some(audience[i].login) && r[i].body == CommentBody(p)
    ensures AddressedByLogin(r)
    ensures forall m <- r :: m.githubUsername != Some(p.comment.user.login)
  {
    if p.action != "created" then []
    else
      var audience := CommentAudience(p.pullRequest.user, p.pullRequest.requestedReviewers, p.comment.user.login);
      var ms := Notify(audience, CommentBody(p));
      assert forall m <- ms :: m.githubUsername != Some(p.comment.user.login) by {
        forall m <- ms ensures m.githubUsername != Some(p.comment.user.login) {
          var i :| 0 <= i < |ms| && ms[i] == m;
          assert audience[i] in audience;
        }
      }
      ms
  }

  /** The owner is the first told of a comment they did not write. */
  lemma CommentTellsOwnerFirst(p: Payload)
    requires p.action == "created" && p.pullRequest.user.login != p.comment.user.login
    ensures HandleCommentEvent(p) != [] && HandleCommentEvent(p)[0].githubUsername == Some(p.pullRequest.user.login)
  {
  }

  /** The `switch` in `run`: the batch for the three handled event names,
      nothing for any other. */
  function Run(ctx: WebhookContext): (r: seq<Message>)
    ensures ctx.eventName !in {"pull_request", "pull_request_review", "pull_request_review_comment"} ==> r == []
    ensures AddressedByLogin(r)
  {
    if ctx.eventName == "pull_request" then HandlePREvent(ctx.payload)
    else if ctx.eventName == "pull_request_review" then HandleReviewEvent(ctx.payload)
    else if ctx.eventName == "pull_request_review_comment" then HandleCommentEvent(ctx.payload)
    else []
  }
}
