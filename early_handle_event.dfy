/** The first GitHub dispatcher (src/handleEvent.ts): assignees stand in
    for reviewers, every review goes to the owner, and comments reach the
    owner and the assignees without removing repeats. */
module EarlyHandleEvent {
  import opened Wrappers
  import opened Types
  import opened Users
  import opened Wording
  import opened Delivery
  import opened Util
  import GitHubHandle

  /** `handlePREvent`: an assignment asks every assignee, in order, for a
      review. */
  function HandlePREvent(p: Payload): (r: seq<Message>)
    ensures p.action != "assigned" ==> r == []
    ensures p.action == "assigned" ==>
      |r| == |p.pullRequest.assignees| &&
      forall i | 0 <= i < |r| ::
        r[i].githubUsername == Some(p.pullRequest.assignees[i].login) &&
        r[i].body == GitHubHandle.ReviewRequestBody(p.pullRequest)
    ensures AddressedByLogin(r)
  {
    if p.action != "assigned" then []
    else Notify(p.pullRequest.assignees, GitHubHandle.ReviewRequestBody(p.pullRequest))
  }

  /** `handleReviewEvent`: a submitted review is reported to the owner
      alone, in "your PR" words, whoever reviewed and whatever the state. */
  function HandleReviewEvent(p: Payload): (r: seq<Message>)
    ensures p.action != "submitted" ==> r == []
    ensures p.action == "submitted" ==>
      |r| == 1 && r[0].githubUsername == Some(p.pullRequest.user.login) && r[0].email.None?
    ensures AddressedByLogin(r)
  {
    if p.action != "submitted" then []
    else [GitHubHandle.ReviewNotice(p.pullRequest.user, p.review, Rendered(LowerActionText(p.review.state)), p.pullRequest)]
  }

  /** The review notice names the review as a link whose text is the action
      words of a lower-case state, and "undefined" for any other state. */
  lemma ReviewWording(p: Payload)
    requires p.action == "submitted"
    ensures var actionText := if p.review.state == "approved" then "approved"
        else if p.review.state == "changes_requested" then "requested changes to"
        else if p.review.state == "commented" then "commented on"
        else "undefined";
      HandleReviewEvent(p)[0].body ==
        p.review.user.login + " " + Link(p.review.htmlUrl, actionText) + " your PR: " +
        Link(p.pullRequest.htmlUrl, p.pullRequest.title)
  {
    var words := Rendered(LowerActionText(p.review.state));
    assert words == if p.review.state == "approved" then "approved"
        else if p.review.state == "changes_requested" then "requested changes to"
        else if p.review.state == "commented" then "commented on"
        else "undefined";
    var head := p.review.user.login + " " + Link(p.review.htmlUrl, words);
    assert head + " " + "your" + " PR: " == head + " your PR: ";
    assert HandleReviewEvent(p)[0].body == head + " " + "your" + " PR: " + Link(p.pullRequest.htmlUrl, p.pullRequest.title);
  }

  /** `handleCommentEvent`: the owner and the assignees, minus the
      commenter, each receive the comment. */
  function HandleCommentEvent(p: Payload): (r: seq<Message>)
    ensures p.action != "created" ==> r == []
    ensures AddressedByLogin(r)
    ensures forall m <- r ::
      m.githubUsername != Some(p.comment.user.login) && m.body == GitHubHandle.CommentBody(p.comment, p.pullRequest)
    ensures p.action == "created" ==>
      var audience := CommentAudience(p.pullRequest.user, p.pullRequest.assignees, p.comment.user.login);
      && |r| == |audience|
      && forall i | 0 <= i < |r| :: r[i].githubUsername == Some(audience[i].login)
  {
    if p.action != "created" then []
    else
      var recipients := CommentAudience(p.pullRequest.user, p.pullRequest.assignees, p.comment.user.login);
      var ms := Notify(recipients, GitHubHandle.CommentBody(p.comment, p.pullRequest));
      assert forall m <- ms :: m.githubUsername.value in LoginsOf(recipients) by {
        forall m <- ms ensures m.githubUsername.value in LoginsOf(recipients) {
          var i :| 0 <= i < |ms| && ms[i] == m;
          assert recipients[i] in recipients;
        }
      }
      ms
  }

  /** An owner who is also an assignee hears of a comment twice: once as
      the owner, at the head, and once as an assignee. */
  lemma CommentRepeatsOwnerAssignee(p: Payload)
    requires p.action == "created" && p.pullRequest.user in p.pullRequest.assignees
    requires p.pullRequest.user.login != p.comment.user.login
    ensures var r := HandleCommentEvent(p);
      var owner := Some(p.pullRequest.user.login);
      exists i, j | 0 <= i < j < |r| :: r[i].githubUsername == owner && r[j].githubUsername == owner
  {
    var pr := p.pullRequest;
    var recipients := CommentAudience(pr.user, pr.assignees, p.comment.user.login);
    CommentAudienceOwnerTwice(pr.user, pr.assignees, p.comment.user.login);
    var k :| 0 < k < |recipients| && recipients[k] == pr.user;
    var r := HandleCommentEvent(p);
    assert r[0].githubUsername == Some(pr.user.login);
    assert r[k].githubUsername == Some(pr.user.login);
  }

  /** The batch the `switch` in `handleEvent` leaves in `messages`; issue
      comments and unknown names are not handled. */
  function Messages(ctx: WebhookContext): (r: seq<Message>)
    ensures ctx.eventName !in {"pull_request", "pull_request_review", "pull_request_review_comment"} ==> r == []
    ensures AddressedByLogin(r)
  {
    if ctx.eventName == "pull_request" then HandlePREvent(ctx.payload)
    else if ctx.eventName == "pull_request_review" then HandleReviewEvent(ctx.payload)
    else if ctx.eventName == "pull_request_review_comment" then HandleCommentEvent(ctx.payload)
    else []
  }

  /** `handleEvent`: classify, then hand the batch to `sendMessages` once
      when it is non-empty. */
  method HandleEvent(ctx: WebhookContext, outbox: Outbox)
    modifies outbox
    ensures SentOnceIfAny(old(outbox.batches), outbox.batches, Messages(ctx))
  {
    var messages: seq<Message> := [];
    if ctx.eventName == "pull_request" {
      messages := HandlePREvent(ctx.payload);
    } else if ctx.eventName == "pull_request_review" {
      messages := HandleReviewEvent(ctx.payload);
    } else if ctx.eventName == "pull_request_review_comment" {
      messages := HandleCommentEvent(ctx.payload);
    }
    if |messages| > 0 {
      outbox.Send(messages);
    }
  }

  /** A submitted review yields a batch of exactly one message: the owner
      is told, in "your PR" words, whoever reviewed. */
  lemma SubmittedReviewSendsOne(ctx: WebhookContext)
    requires ctx.eventName == "pull_request_review" && ctx.payload.action == "submitted"
    ensures var p := ctx.payload;
      var actionText := if p.review.state == "approved" then "approved"
        else if p.review.state == "changes_requested" then "requested changes to"
        else if p.review.state == "commented" then "commented on"
        else "undefined";
      && |Messages(ctx)| == 1
      && Messages(ctx)[0].githubUsername == Some(p.pullRequest.user.login)
      && Messages(ctx)[0].body ==
           p.review.user.login + " " + Link(p.review.htmlUrl, actionText) + " your PR: " +
           Link(p.pullRequest.htmlUrl, p.pullRequest.title)
  {
    ReviewWording(ctx.payload);
  }
}
