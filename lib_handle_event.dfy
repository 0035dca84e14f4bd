/** The compiled dispatcher (lib/handleEvent.js): the recipients of
    src/main.ts, with bodies that drop the "has", and a send. */
module LibHandleEvent {
  import opened Wrappers
  import opened Types
  import opened Users
  import opened Wording
  import opened Delivery
  import MainAction

  function ReviewRequestBody(pr: PullRequest): string
  {
    pr.user.login + " " + "requested your review on a PR: " + pr.title
  }

  /** `handlePREvent`: one request per requested reviewer, in order. */
  function HandlePREvent(p: Payload): (r: seq<Message>)
    ensures p.action != "review_requested" ==> r == []
    ensures p.action == "review_requested" ==>
      |r| == |p.pullRequest.requestedReviewers| &&
      forall i | 0 <= i < |r| ::
        r[i].githubUsername == Some(p.pullRequest.requestedReviewers[i].login) &&
        r[i].body == ReviewRequestBody(p.pullRequest)
  {
    if p.action != "review_requested" then []
    else Notify(p.pullRequest.requestedReviewers, ReviewRequestBody(p.pullRequest))
  }

  function ReviewBody(p: Payload): string
  {
    p.review.user.login + " " + Rendered(UpperActionText(p.review.state)) + " your PR: " + p.pullRequest.title
  }

  /** `handleReviewEvent`: a submitted review is reported to the owner
      alone, with the words of an upper-case state. */
  function HandleReviewEvent(p: Payload): (r: seq<Message>)
    ensures p.action != "submitted" ==> r == []
    ensures p.action == "submitted" ==>
      |r| == 1 && r[0].githubUsername == Some(p.pullRequest.user.login) &&
      r[0].body == ReviewBody(p)
  {
    if p.action != "submitted" then []
    else [ToLogin(p.pullRequest.user.login, ReviewBody(p))]
  }

  /** `handleCommentEvent`: the same audience and body as src/main.ts. */
  function HandleCommentEvent(p: Payload): (r: seq<Message>)
    ensures r == MainAction.HandleCommentEvent(p)
    ensures forall m <- r :: m.githubUsername != Some(p.comment.user.login)
  {
    if p.action != "created" then []
    else Notify(CommentAudience(p.pullRequest.user, p.pullRequest.requestedReviewers, p.comment.user.login),
      p.comment.user.login + " commented on " + p.pullRequest.title + ": " + p.comment.body)
  }

  /** The batch the `switch` in `handleEvent` leaves in `messages`. */
  function Messages(ctx: WebhookContext): (r: seq<Message>)
    ensures ctx.eventName !in {"pull_request", "pull_request_review", "pull_request_review_comment"} ==> r == []
  {
    if ctx.eventName == "pull_request" then HandlePREvent(ctx.payload)
    else if ctx.eventName == "pull_request_review" then HandleReviewEvent(ctx.payload)
    else if ctx.eventName == "pull_request_review_comment" then HandleCommentEvent(ctx.payload)
    else []
  }

  /** `handleEvent`: classify, then hand the batch to `sendMessages` once
      when it is non-empty. */
  method HandleEvent(ctx: WebhookContext, outbox: Outbox)
    modifies outbox
    ensures SentOnceIfAny(old(outbox.batches), outbox.batches, Messages(ctx))
  {
    var messages: seq<Message> := [];
    if ctx.eventName == "pull_request" {
      messages := HandlePREvent(ctx.payload);
    } else if ctx.eventName == "pull_request_review" {
      messages := HandleReviewEvent(ctx.payload);
    } else if ctx.eventName == "pull_request_review_comment" {
      messages := HandleCommentEvent(ctx.payload);
    }
    if |messages| > 0 {
      outbox.Send(messages);
    }
  }

  /** The two request bodies differ only by the "has" after the login. */
  lemma RequestBodiesDiffer(pr: PullRequest)
    ensures MainAction.ReviewRequestBody(pr) ==
      pr.user.login + " has" + ReviewRequestBody(pr)[|pr.user.login|..]
  {
    var login := pr.user.login;
    var tail := " " + "requested your review on a PR: " + pr.title;
    assert ReviewRequestBody(pr) == login + tail;
    assert ReviewRequestBody(pr)[|login|..] == tail;
    assert " has" + " " == " has ";
    assert login + " has" + tail == login + " has " + "requested your review on a PR: " + pr.title;
  }

  /** A review request goes to the same reviewers as in src/main.ts; the
      body lacks only the "has". */
  lemma PREventMatchesMain(p: Payload)
    ensures var r := HandlePREvent(p);
      var login := p.pullRequest.user.login;
      && |r| == |MainAction.HandlePREvent(p)|
      && forall i | 0 <= i < |r| ::
        && r[i].githubUsername == MainAction.HandlePREvent(p)[i].githubUsername
        && MainAction.HandlePREvent(p)[i].body == login + " has" + r[i].body[|login|..]
  {
    RequestBodiesDiffer(p.pullRequest);
  }

  /** A review goes to the owner as in src/main.ts; the body lacks only the
      "has". */
  lemma ReviewEventMatchesMain(p: Payload)
    ensures p.action != "submitted" ==> HandleReviewEvent(p) == MainAction.HandleReviewEvent(p) == []
    ensures p.action == "submitted" ==>
      var login := p.review.user.login;
      && HandleReviewEvent(p)[0].githubUsername == MainAction.HandleReviewEvent(p)[0].githubUsername
      && MainAction.ReviewBody(p) == login + " has" + ReviewBody(p)[|login|..]
  {
    if p.action == "submitted" {
      var login := p.review.user.login;
      var words := Rendered(UpperActionText(p.review.state));
      var tail := " " + words + " your PR: " + p.pullRequest.title;
      assert ReviewBody(p) == login + tail;
      assert ReviewBody(p)[|login|..] == tail;
      assert " has" + " " == " has ";
      assert login + " has" + tail == login + " has " + words + " your PR: " + p.pullRequest.title;
    }
  }

  /** The compiled dispatcher addresses exactly the users src/main.ts
      addresses, in the same order. */
  lemma SameRecipientsAsMain(ctx: WebhookContext)
    ensures |Messages(ctx)| == |MainAction.Run(ctx)|
    ensures forall i | 0 <= i < |Messages(ctx)| ::
      Messages(ctx)[i].githubUsername == MainAction.Run(ctx)[i].githubUsername
  {
    PREventMatchesMain(ctx.payload);
    ReviewEventMatchesMain(ctx.payload);
  }
}
