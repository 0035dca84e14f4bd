/** The four GitHub classifiers of src/github/handle.ts: from a webhook
    payload to the messages to send. The blacklist and the GitHub API are
    parameters. */
module GitHubHandle {
  import opened Wrappers
  import opened Types
  import opened Users
  import opened Util
  import opened GitHubApi
  import opened Wording

  const ReviewerNotFound := "requested reviewer not found on review request event"

  function ReviewRequestBody(pr: PullRequest): string
  {
    pr.user.login + " requested your review on a PR: " + Link(pr.htmlUrl, pr.title)
  }

  /** `handlePREvent`: only the reviewer added by this event is told. */
  function HandlePREvent(p: Payload): (r: Result<seq<Message>, string>)
    ensures p.action != "review_requested" ==> r == Success([])
    ensures r.Failure? <==> p.action == "review_requested" && p.requestedReviewer.None?
    ensures r.Failure? ==> r.error == ReviewerNotFound
    ensures p.action == "review_requested" && p.requestedReviewer.Some? ==>
      r.Success? && |r.value| == 1 &&
      r.value[0].githubUsername == Some(p.requestedReviewer.value.login) &&
      r.value[0].email.None? &&
      r.value[0].body == p.pullRequest.user.login + " requested your review on a PR: " +
                         Link(p.pullRequest.htmlUrl, p.pullRequest.title)
  {
    if p.action != "review_requested" then Success([])
    else match p.requestedReviewer
      case None => Failure(ReviewerNotFound)
      case Some(reviewer) => Success([ToLogin(reviewer.login, ReviewRequestBody(p.pullRequest))])
  }

  /** `recipients` as the switch on the review state leaves it. */
  function ReviewCandidates(p: Payload, server: GitHubServer): seq<User>
  {
    if p.review.state == "approved" then [p.pullRequest.user]
    else if p.review.state == "changes_requested" || p.review.state == "commented" then
      InvolvedUsers(p.pullRequest, server)
    else []
  }

  /** The candidates without the review's author, one per login. */
  function ReviewRecipients(p: Payload, server: GitHubServer): (r: seq<User>)
    ensures DistinctLogins(r)
    ensures p.review.user.login !in LoginsOf(r)
  {
    UniqByLogin(ExcludeLogin(ReviewCandidates(p, server), p.review.user.login))
  }

  function ReviewNotice(recipient: User, review: Review, actionText: string, pr: PullRequest): Message
  {
    var aOrYour := if recipient.login == pr.user.login then "your" else "a";
    ToLogin(recipient.login,
      review.user.login + " " + Link(review.htmlUrl, actionText) + " " + aOrYour + " PR: " + Link(pr.htmlUrl, pr.title))
  }

  function ReviewNotices(recipients: seq<User>, review: Review, actionText: string, pr: PullRequest): (ms: seq<Message>)
    ensures |ms| == |recipients|
    ensures forall i | 0 <= i < |ms| :: ms[i] == ReviewNotice(recipients[i], review, actionText, pr)
  {
    seq(|recipients|, i requires 0 <= i < |recipients| => ReviewNotice(recipients[i], review, actionText, pr))
  }

  /** The owner's copy of a review notice reads "your PR". */
  lemma OwnerNoticeBody(review: Review, actionText: string, pr: PullRequest)
    ensures ReviewNotice(pr.user, review, actionText, pr).body ==
      review.user.login + " " + Link(review.htmlUrl, actionText) + " your PR: " + Link(pr.htmlUrl, pr.title)
  {
    var x := review.user.login + " " + Link(review.htmlUrl, actionText);
    var y := Link(pr.htmlUrl, pr.title);
    assert " " + "your" + " PR: " == " your PR: ";
    assert x + " " + "your" + " PR: " + y == x + (" " + "your" + " PR: ") + y;
  }

  /** Messages built one per recipient go to those recipients only. */
  lemma ReviewNoticesAddressing(recipients: seq<User>, review: Review, actionText: string, pr: PullRequest)
    ensures var ms := ReviewNotices(recipients, review, actionText, pr);
      && AddressedByLogin(ms)
      && (DistinctLogins(recipients) ==> DistinctRecipients(ms))
      && forall m <- ms :: m.githubUsername.value in LoginsOf(recipients)
  {
    var ms := ReviewNotices(recipients, review, actionText, pr);
    forall m <- ms ensures m.githubUsername.Some? && m.githubUsername.value in LoginsOf(recipients) {
      var i :| 0 <= i < |ms| && ms[i] == m;
      assert recipients[i] in recipients;
    }
  }

  /** An approval is only ever addressed to the owner. */
  lemma ApprovalRecipients(p: Payload, server: GitHubServer)
    ensures p.review.state == "approved" ==>
      |ReviewRecipients(p, server)| <= 1 &&
      LoginsOf(ReviewRecipients(p, server)) <= {p.pullRequest.user.login}
  {
    assert LoginsOf([p.pullRequest.user]) == {p.pullRequest.user.login};
  }

  /** `handleReviewEvent`. */
  function HandleReviewEvent(p: Payload, blacklist: seq<string>, server: GitHubServer): (r: seq<Message>)
    ensures p.action != "submitted" ==> r == []
    ensures p.review.user.login in blacklist ==> r == []
    ensures LowerActionText(p.review.state).None? ==> r == []
    ensures AddressedByLogin(r) && DistinctRecipients(r)
    ensures forall m <- r :: m.githubUsername != Some(p.review.user.login)
    ensures p.review.state == "approved" ==>
      |r| <= 1 && forall m <- r :: m.githubUsername == Some(p.pullRequest.user.login)
  {
    if p.action != "submitted" then []
    else if p.review.user.login in blacklist then []
    else
      var recipients := ReviewRecipients(p, server);
      var actionText := Rendered(LowerActionText(p.review.state));
      ReviewNoticesAddressing(recipients, p.review, actionText, p.pullRequest);
      ApprovalRecipients(p, server);
      ReviewNotices(recipients, p.review, actionText, p.pullRequest)
  }

  /** An approval reaches the owner alone, worded "your PR", unless the
      owner approved their own PR. */
  lemma ApprovalNotifiesOwner(p: Payload, blacklist: seq<string>, server: GitHubServer)
    requires p.action == "submitted" && p.review.user.login !in blacklist
    requires p.review.state == "approved"
    ensures var r := HandleReviewEvent(p, blacklist, server);
      var owner := p.pullRequest.user.login;
      && (r == [] <==> p.review.user.login == owner)
      && (r != [] ==>
            (|r| == 1 && r[0].githubUsername == Some(owner) &&
             r[0].body == p.review.user.login + " " + Link(p.review.htmlUrl, "approved") +
                          " your PR: " + Link(p.pullRequest.htmlUrl, p.pullRequest.title)))
  {
    var owner := p.pullRequest.user;
    var text := Rendered(LowerActionText(p.review.state));
    assert text == "approved";
    var r := HandleReviewEvent(p, blacklist, server);
    if p.review.user.login != owner.login {
      assert ExcludeLogin([owner], p.review.user.login) == [owner];
      assert UniqByLogin([owner]) == [owner];
      assert r == ReviewNotices([owner], p.review, text, p.pullRequest);
      assert r[0] == ReviewNotice(owner, p.review, text, p.pullRequest);
      OwnerNoticeBody(p.review, text, p.pullRequest);
    } else {
      assert ExcludeLogin([owner], p.review.user.login) == [];
      assert r == ReviewNotices([], p.review, text, p.pullRequest);
    }
  }

  /** Changes requested and comment reviews reach the involved users other
      than the review's author, in involved-user order, one each. */
  lemma DiscussionReachesInvolved(p: Payload, blacklist: seq<string>, server: GitHubServer)
    requires p.action == "submitted" && p.review.user.login !in blacklist
    requires p.review.state == "changes_requested" || p.review.state == "commented"
    ensures var r := HandleReviewEvent(p, blacklist, server);
      var rs := ExcludeLogin(InvolvedUsers(p.pullRequest, server), p.review.user.login);
      |r| == |rs| && forall i | 0 <= i < |r| :: r[i].githubUsername == Some(rs[i].login)
  {
    var involved := InvolvedUsers(p.pullRequest, server);
    var rs := ExcludeLogin(involved, p.review.user.login);
    ExcludeLoginKeepsDistinct(involved, p.review.user.login);
    UniqByLoginOfDistinct(rs);
    assert ReviewRecipients(p, server) == rs;
  }

  /** The owner reads "your PR", everyone else "a PR"; the rest of the body
      names the reviewer, links the review with the state's words and links
      the PR. */
  lemma ReviewWording(p: Payload, blacklist: seq<string>, server: GitHubServer)
    ensures forall m <- HandleReviewEvent(p, blacklist, server) ::
      m.body == p.review.user.login + " " + Link(p.review.htmlUrl, Rendered(LowerActionText(p.review.state))) + " " +
                (if m.githubUsername == Some(p.pullRequest.user.login) then "your" else "a") +
                " PR: " + Link(p.pullRequest.htmlUrl, p.pullRequest.title)
  {
  }

  function CommentBody(comment: Comment, pr: PullRequest): string
  {
    comment.user.login + " " + Link(comment.htmlUrl, "commented on") + " " +
    Link(pr.htmlUrl, pr.title) + ": " + comment.body
  }

  function CommentNotices(recipients: seq<User>, comment: Comment, pr: PullRequest): (ms: seq<Message>)
    ensures |ms| == |recipients|
    ensures forall i | 0 <= i < |ms| :: ms[i] == ToLogin(recipients[i].login, CommentBody(comment, pr))
  {
    seq(|recipients|, i requires 0 <= i < |recipients| => ToLogin(recipients[i].login, CommentBody(comment, pr)))
  }

  /** The involved users of `pr` other than the commenter, each told once
      with the same body. */
  function NotifyInvolved(pr: PullRequest, comment: Comment, server: GitHubServer): (r: seq<Message>)
    ensures AddressedByLogin(r) && DistinctRecipients(r)
    ensures forall m <- r :: m.githubUsername != Some(comment.user.login) && m.body == CommentBody(comment, pr)
    ensures var rs := ExcludeLogin(InvolvedUsers(pr, server), comment.user.login);
      |r| == |rs| && forall i | 0 <= i < |r| :: r[i].githubUsername == Some(rs[i].login)
  {
    var involved := InvolvedUsers(pr, server);
    var recipients := ExcludeLogin(involved, comment.user.login);
    InvolvedUsersSpec(pr, server);
    ExcludeLoginKeepsDistinct(involved, comment.user.login);
    var ms := CommentNotices(recipients, comment, pr);
    assert forall i | 0 <= i < |recipients| :: recipients[i] in recipients;
    ms
  }

  /** `handlePullRequestReviewCommentEvent`: a comment on the diff. */
  function HandlePullRequestReviewCommentEvent(p: Payload, blacklist: seq<string>, server: GitHubServer): (r: seq<Message>)
    ensures p.action != "created" ==> r == []
    ensures p.comment.user.login in blacklist ==> r == []
    ensures AddressedByLogin(r) && DistinctRecipients(r)
    ensures forall m <- r ::
      m.githubUsername != Some(p.comment.user.login) && m.body == CommentBody(p.comment, p.pullRequest)
    ensures p.action == "created" && p.comment.user.login !in blacklist ==>
      var rs := ExcludeLogin(InvolvedUsers(p.pullRequest, server), p.comment.user.login);
      |r| == |rs| && forall i | 0 <= i < |r| :: r[i].githubUsername == Some(rs[i].login)
  {
    if p.action != "created" then []
    else if p.comment.user.login in blacklist then []
    else NotifyInvolved(p.pullRequest, p.comment, server)
  }

  /** `handleIssueCommentEvent`: a top-level comment, addressed through the
      PR behind the issue. */
  function HandleIssueCommentEvent(p: Payload, blacklist: seq<string>, server: GitHubServer): (r: seq<Message>)
    ensures p.action != "created" ==> r == []
    ensures p.issue.pullRequest.None? ==> r == []
    ensures p.comment.user.login in blacklist ==> r == []
    ensures AddressedByLogin(r) && DistinctRecipients(r)
    ensures forall m <- r ::
      m.githubUsername != Some(p.comment.user.login) &&
      m.body == CommentBody(p.comment, server.pullRequest(p.issue.pullRequest.value.url))
    ensures p.action == "created" && p.issue.pullRequest.Some? && p.comment.user.login !in blacklist ==>
      var pr := server.pullRequest(p.issue.pullRequest.value.url);
      var rs := ExcludeLogin(InvolvedUsers(pr, server), p.comment.user.login);
      |r| == |rs| && forall i | 0 <= i < |r| :: r[i].githubUsername == Some(rs[i].login)
  {
    if p.action != "created" then []
    else match GetIssuePullRequest(p.issue, server)
      case None => []
      case Some(pr) =>
        if p.comment.user.login in blacklist then []
        else NotifyInvolved(pr, p.comment, server)
  }
}
