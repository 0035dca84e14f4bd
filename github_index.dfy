/** The GitHub dispatcher of src/github/index.ts. Its four handlers are
    copies of those in src/github/handle.ts that also set `email: null`;
    `Message` always carries the email field, so the model shares them. */
module GitHubIndex {
  import opened Wrappers
  import opened Types
  import opened Users
  import opened GitHubApi
  import opened GitHubHandle
  import opened Delivery

  /** The event names that reach a classifier. */
  const Classified: set<string> := {"pull_request", "pull_request_review", "pull_request_review_comment", "issue_comment"}

  /** The batch the `switch` in `handleEvent` leaves in `messages`, or the
      error a classifier threw. `commit_comment` and unknown names are only
      logged. */
  function Messages(ctx: WebhookContext, blacklist: seq<string>, server: GitHubServer): (r: Result<seq<Message>, string>)
    ensures ctx.eventName !in Classified ==> r == Success([])
    ensures r.Failure? <==>
      ctx.eventName == "pull_request" && ctx.payload.action == "review_requested" && ctx.payload.requestedReviewer.None?
    ensures r.Failure? ==> r.error == ReviewerNotFound
    ensures r.Success? ==> AddressedByLogin(r.value) && DistinctRecipients(r.value)
  {
    var p := ctx.payload;
    if ctx.eventName == "pull_request" then HandlePREvent(p)
    else if ctx.eventName == "pull_request_review" then Success(HandleReviewEvent(p, blacklist, server))
    else if ctx.eventName == "pull_request_review_comment" then Success(HandlePullRequestReviewCommentEvent(p, blacklist, server))
    else if ctx.eventName == "issue_comment" then Success(HandleIssueCommentEvent(p, blacklist, server))
    else Success([])
  }

  /** `handleEvent`: classify, then hand the whole batch to `sendMessages`
      once when it is non-empty. A classifier's error rejects the call
      before anything is sent. */
  method HandleEvent(ctx: WebhookContext, blacklist: seq<string>, server: GitHubServer, outbox: Outbox)
    returns (r: Outcome<string>)
    modifies outbox
    ensures Messages(ctx, blacklist, server).Failure? ==>
      r == Fail(Messages(ctx, blacklist, server).error) && outbox.batches == old(outbox.batches)
    ensures Messages(ctx, blacklist, server).Success? ==>
      r == Pass && SentOnceIfAny(old(outbox.batches), outbox.batches, Messages(ctx, blacklist, server).value)
  {
    var messages: seq<Message> := [];
    var p := ctx.payload;
    if ctx.eventName == "pull_request" {
      var res := HandlePREvent(p);
      if res.Failure? {
        return Fail(res.error);
      }
      messages := res.value;
    } else if ctx.eventName == "pull_request_review" {
      messages := HandleReviewEvent(p, blacklist, server);
    } else if ctx.eventName == "pull_request_review_comment" {
      messages := HandlePullRequestReviewCommentEvent(p, blacklist, server);
    } else if ctx.eventName == "issue_comment" {
      messages := HandleIssueCommentEvent(p, blacklist, server);
    }
    if |messages| > 0 {
      outbox.Send(messages);
    }
    r := Pass;
  }

  /** An action a classifier does not handle sends nothing. */
  lemma UnhandledActionsSendNothing(ctx: WebhookContext, blacklist: seq<string>, server: GitHubServer)
    requires ctx.eventName == "pull_request" ==> ctx.payload.action != "review_requested"
    requires ctx.eventName == "pull_request_review" ==> ctx.payload.action != "submitted"
    requires ctx.eventName in {"pull_request_review_comment", "issue_comment"} ==> ctx.payload.action != "created"
    ensures Messages(ctx, blacklist, server) == Success([])
  {
  }

  /** A review or comment whose author is blacklisted sends nothing. */
  lemma BlacklistedActorsSendNothing(ctx: WebhookContext, blacklist: seq<string>, server: GitHubServer)
    requires ctx.eventName == "pull_request_review" ==> ctx.payload.review.user.login in blacklist
    requires ctx.eventName in {"pull_request_review_comment", "issue_comment"} ==> ctx.payload.comment.user.login in blacklist
    requires ctx.eventName != "pull_request"
    ensures Messages(ctx, blacklist, server) == Success([])
  {
  }

  /** A review is addressed to the owner alone when approved, and otherwise
      to the involved users; the review's author is never among them. */
  lemma ReviewAudience(ctx: WebhookContext, blacklist: seq<string>, server: GitHubServer)
    requires ctx.eventName == "pull_request_review"
    ensures var ms := Messages(ctx, blacklist, server).value;
      var p := ctx.payload;
      && (p.review.state == "approved" ==>
            forall m <- ms :: m.githubUsername == Some(p.pullRequest.user.login))
      && (forall m <- ms :: m.githubUsername.value in LoginsOf(InvolvedUsers(p.pullRequest, server)))
      && (forall m <- ms :: m.githubUsername != Some(p.review.user.login))
  {
    var p := ctx.payload;
    var ms := Messages(ctx, blacklist, server).value;
    InvolvedUsersSpec(p.pullRequest, server);
    forall m <- ms ensures m.githubUsername.value in LoginsOf(InvolvedUsers(p.pullRequest, server)) {
      if p.review.state == "approved" {
        assert m.githubUsername == Some(p.pullRequest.user.login);
      } else {
        var recipients := ReviewRecipients(p, server);
        ReviewNoticesAddressing(recipients, p.review, Wording.Rendered(Wording.LowerActionText(p.review.state)), p.pullRequest);
      }
    }
  }

  /** An issue comment on an issue with no PR behind it sends nothing. */
  lemma IssueWithoutPullRequestSendsNothing(ctx: WebhookContext, blacklist: seq<string>, server: GitHubServer)
    requires ctx.eventName == "issue_comment" && ctx.payload.issue.pullRequest.None?
    ensures Messages(ctx, blacklist, server) == Success([])
  {
  }
}
