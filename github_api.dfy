/** The involved-user aggregation of src/github/api.ts. The REST calls are
    the fields of `GitHubServer`, each a function of the URL requested. */
module GitHubApi {
  import opened Wrappers
  import opened Types
  import opened Users

  /** What the GitHub REST API answers for each URL the relay requests. */
  datatype GitHubServer = GitHubServer(
    comments: string -> seq<Comment>,
    reviews: string -> seq<Review>,
    pullRequest: string -> PullRequest)

  function CommentsURL(pr: PullRequest): string
  {
    pr.url + "/comments"
  }

  function ReviewsURL(pr: PullRequest): string
  {
    pr.url + "/reviews"
  }

  function CommentAuthors(cs: seq<Comment>): (r: seq<User>)
    ensures |r| == |cs| && forall i | 0 <= i < |cs| :: r[i] == cs[i].user
  {
    seq(|cs|, i requires 0 <= i < |cs| => cs[i].user)
  }

  function ReviewAuthors(rs: seq<Review>): (r: seq<User>)
    ensures |r| == |rs| && forall i | 0 <= i < |rs| :: r[i] == rs[i].user
  {
    seq(|rs|, i requires 0 <= i < |rs| => rs[i].user)
  }

  /** Owner, requested reviewers, comment authors and review authors, in
      that order, before deduplication. */
  function Candidates(pr: PullRequest, comments: seq<Comment>, reviews: seq<Review>): seq<User>
  {
    [pr.user] + pr.requestedReviewers + CommentAuthors(comments) + ReviewAuthors(reviews)
  }

  /** `getInvolvedUsers`: everyone involved with the PR, one per login. */
  function InvolvedUsers(pr: PullRequest, server: GitHubServer): seq<User>
  {
    UniqByLogin(Candidates(pr, server.comments(CommentsURL(pr)), server.reviews(ReviewsURL(pr))))
  }

  function AuthorLogins(cs: seq<Comment>): set<string>
  {
    set c | c in cs :: c.user.login
  }

  function ReviewerLogins(rs: seq<Review>): set<string>
  {
    set r | r in rs :: r.user.login
  }

  lemma CandidateLogins(pr: PullRequest, comments: seq<Comment>, reviews: seq<Review>)
    ensures LoginsOf(Candidates(pr, comments, reviews)) ==
      {pr.user.login} + LoginsOf(pr.requestedReviewers) + AuthorLogins(comments) + ReviewerLogins(reviews)
  {
    var ca, ra := CommentAuthors(comments), ReviewAuthors(reviews);
    LoginsOfAppend([pr.user] + pr.requestedReviewers + ca, ra);
    LoginsOfAppend([pr.user] + pr.requestedReviewers, ca);
    LoginsOfAppend([pr.user], pr.requestedReviewers);
    assert LoginsOf([pr.user]) == {pr.user.login};
    forall l ensures l in LoginsOf(ca) <==> l in AuthorLogins(comments) {
      if l in LoginsOf(ca) {
        var u :| u in ca && u.login == l;
        var i :| 0 <= i < |ca| && ca[i] == u;
        assert comments[i] in comments;
      }
      if l in AuthorLogins(comments) {
        var c :| c in comments && c.user.login == l;
        var i :| 0 <= i < |comments| && comments[i] == c;
        assert ca[i] in ca;
      }
    }
    forall l ensures l in LoginsOf(ra) <==> l in ReviewerLogins(reviews) {
      if l in LoginsOf(ra) {
        var u :| u in ra && u.login == l;
        var i :| 0 <= i < |ra| && ra[i] == u;
        assert reviews[i] in reviews;
      }
      if l in ReviewerLogins(reviews) {
        var rv :| rv in reviews && rv.user.login == l;
        var i :| 0 <= i < |reviews| && reviews[i] == rv;
        assert ra[i] in ra;
      }
    }
  }

  /** What `getInvolvedUsers` promises: the owner first, no login twice,
      exactly the logins of owner, requested reviewers, commenters and
      reviewers, each at its first-seen position, and no more users than
      candidates. */
  lemma InvolvedUsersSpec(pr: PullRequest, server: GitHubServer)
    ensures var comments := server.comments(CommentsURL(pr));
      var reviews := server.reviews(ReviewsURL(pr));
      var r := InvolvedUsers(pr, server);
      && r != [] && r[0] == pr.user
      && DistinctLogins(r)
      && LoginsOf(r) == {pr.user.login} + LoginsOf(pr.requestedReviewers) + AuthorLogins(comments) + ReviewerLogins(reviews)
      && KeptAtFirstSeen(r, Candidates(pr, comments, reviews))
      && OrderedByFirstSeen(r, Candidates(pr, comments, reviews))
      && |r| <= 1 + |pr.requestedReviewers| + |comments| + |reviews|
  {
    var comments := server.comments(CommentsURL(pr));
    var reviews := server.reviews(ReviewsURL(pr));
    var cs := Candidates(pr, comments, reviews);
    UniqByLoginHead(cs);
    UniqByLoginKeepsFirstSeen(cs);
    CandidateLogins(pr, comments, reviews);
  }

  /** The aggregation reads the server only at `<pr.url>/comments` and
      `<pr.url>/reviews`. */
  lemma InvolvedUsersFetches(pr: PullRequest, s1: GitHubServer, s2: GitHubServer)
    requires s1.comments(pr.url + "/comments") == s2.comments(pr.url + "/comments")
    requires s1.reviews(pr.url + "/reviews") == s2.reviews(pr.url + "/reviews")
    ensures InvolvedUsers(pr, s1) == InvolvedUsers(pr, s2)
  {
  }

  /** `getIssuePullRequest`: absent when the issue carries no
      `pull_request`, otherwise the PR fetched from its url. */
  function GetIssuePullRequest(issue: Issue, server: GitHubServer): (r: Option<PullRequest>)
    ensures r.None? <==> issue.pullRequest.None?
    ensures r.Some? ==> r.value == server.pullRequest(issue.pullRequest.value.url)
  {
    match issue.pullRequest
    case None => None
    case Some(ref) => Some(server.pullRequest(ref.url))
  }
}
