/** src/github.ts: an earlier copy of the aggregation in src/github/api.ts,
    kept as its own module. */
module GitHubRoot {
  import opened Types
  import opened Users
  import GitHubApi

  /** `getInvolvedUsers` as written in src/github.ts. */
  function InvolvedUsers(pr: PullRequest, server: GitHubApi.GitHubServer): seq<User>
  {
    var comments := server.comments(pr.url + "/comments");
    var reviews := server.reviews(pr.url + "/reviews");
    var commentUsers := seq(|comments|, i requires 0 <= i < |comments| => comments[i].user);
    var reviewUsers := seq(|reviews|, i requires 0 <= i < |reviews| => reviews[i].user);
    UniqByLogin([pr.user] + pr.requestedReviewers + commentUsers + reviewUsers)
  }

  /** The copy behaves exactly like src/github/api.ts, so it inherits its
      guarantees: owner first, distinct logins, the four sources' logins
      and nothing else, first-seen order. */
  lemma InvolvedUsersAsApi(pr: PullRequest, server: GitHubApi.GitHubServer)
    ensures InvolvedUsers(pr, server) == GitHubApi.InvolvedUsers(pr, server)
    ensures var comments := server.comments(pr.url + "/comments");
      var reviews := server.reviews(pr.url + "/reviews");
      var r := InvolvedUsers(pr, server);
      && r != [] && r[0] == pr.user
      && DistinctLogins(r)
      && LoginsOf(r) == {pr.user.login} + LoginsOf(pr.requestedReviewers)
           + GitHubApi.AuthorLogins(comments) + GitHubApi.ReviewerLogins(reviews)
      && OrderedByFirstSeen(r, GitHubApi.Candidates(pr, comments, reviews))
  {
    var comments := server.comments(pr.url + "/comments");
    var reviews := server.reviews(pr.url + "/reviews");
    assert GitHubApi.CommentAuthors(comments) == seq(|comments|, i requires 0 <= i < |comments| => comments[i].user);
    assert GitHubApi.ReviewAuthors(reviews) == seq(|reviews|, i requires 0 <= i < |reviews| => reviews[i].user);
    GitHubApi.InvolvedUsersSpec(pr, server);
  }
}
