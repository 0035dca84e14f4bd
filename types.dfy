/** The GitHub webhook payloads the relay reads and the message it emits
    (src/types/github.ts, src/types/index.ts, src/types.ts). */
module Types {
  import opened Wrappers

  /** A GitHub account; identity is the login. */
  datatype User = User(login: string)

  datatype PullRequest = PullRequest(
    url: string,           // API url: root of the comments and reviews fetches
    htmlUrl: string,       // human-facing link
    user: User,            // the owner
    title: string,
    requestedReviewers: seq<User>,
    assignees: seq<User>)

  datatype Review = Review(body: string, htmlUrl: string, state: string, user: User)

  datatype Comment = Comment(htmlUrl: string, body: string, user: User)

  /** The `pull_request` link an issue carries when it is backed by a PR. */
  datatype PullRequestRef = PullRequestRef(url: string, htmlUrl: string)

  datatype Issue = Issue(pullRequest: Option<PullRequestRef>)

  /** A webhook body as one JSON object: each handler reads only the fields
      its event carries. `requestedReviewer` and `issue.pullRequest` are the
      fields the handlers test for absence. */
  datatype Payload = Payload(
    action: string,
    pullRequest: PullRequest,
    requestedReviewer: Option<User>,
    review: Review,
    comment: Comment,
    issue: Issue)

  /** The event-name header together with the payload. */
  datatype WebhookContext = WebhookContext(eventName: string, payload: Payload)

  /** A chat notification: addressed by GitHub login or by email. */
  datatype Message = Message(githubUsername: Option<string>, email: Option<string>, body: string)

  function ToLogin(login: string, body: string): Message
  {
    Message(Some(login), None, body)
  }

  function ToEmail(email: string, body: string): Message
  {
    Message(None, Some(email), body)
  }

  /** Every message names a GitHub login and no email. */
  predicate AddressedByLogin(ms: seq<Message>)
  {
    forall m <- ms :: m.githubUsername.Some? && m.email.None?
  }

  /** No two messages go to the same GitHub login. */
  predicate DistinctRecipients(ms: seq<Message>)
  {
    forall i, j | 0 <= i < j < |ms| :: ms[i].githubUsername != ms[j].githubUsername
  }
}
