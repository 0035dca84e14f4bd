# pr-notify: who is told what

pr-notify relays GitHub pull-request activity and Jira issue activity to a
chat platform. Each incoming webhook is classified by event name and
action. The classifier builds a batch of messages, each addressed by GitHub
login or by email. A non-empty batch is handed to `sendMessages` in one
call. This project models that classification: which events produce
messages, to whom they go and what they say. It covers every generation of
handler in the repository:

- the current GitHub relay: `src/github/handle.ts`, `src/github/index.ts`
  and `src/github/api.ts`;
- the earlier aggregation copy in `src/github.ts`;
- the Jira relay: `src/jira/index.ts` and `src/jira/api.ts`;
- three earlier GitHub dispatchers: `src/handleEvent.ts`, the GitHub
  Action in `src/main.ts`, and the compiled `lib/handleEvent.js`.

Modules, one per source file, plus shared ones:

- `Wrappers`: `Option`, `Result` (usable with `:-`) and `Outcome`.
- `Util`: the Slack link `<url|text>` of `src/handleEvent.ts:11`. The
  handlers in `src/github/` import `link` from `src/util.ts`, and
  `src/util.ts` is not part of this model; the same definition is used.
- `Types` and `JiraTypes`: the payload records and the `Message`.
- `Users`: lodash's `uniqBy` by login, which keeps the first occurrence,
  and the `filter` by login. `CommentAudience` is
  `[owner, ...others]` without the commenter.
- `Wording`: the review-state words. `Rendered` gives the text
  "undefined" when a JavaScript template meets an `actionText` that was
  never assigned.
- `Delivery`: an `Outbox` class whose ghost `batches` records every batch
  handed to `sendMessages`.
- `GitHubApi`, `GitHubRoot`, `GitHubHandle`, `GitHubIndex`: the GitHub
  relay.
- `JiraApi`, `JiraIndex`: the Jira relay.
- `EarlyHandleEvent`, `MainAction`, `LibHandleEvent`: the earlier
  dispatchers.

How the model stands in for the outside world:

- Network reads are functions of the full request URL, held in a
  `GitHubServer` or `JiraServer` value. This keeps URL construction in the
  model.
- The blacklist is a parameter.
- The dispatchers that send are methods that append to an `Outbox`.
- The handlers in `src/github/index.ts` are copies of those in
  `src/github/handle.ts`; they differ only in also setting `email: null`.
  `Message` always carries an optional email, so both files share the
  handlers in `GitHubHandle`.
- `getJiraBaseURL` is modelled with the regular expression's real
  semantics:
  - `.` does not match `\n`, `\r`, U+2028 or U+2029;
  - so the capture is taken from the first line that holds `/rest/api`;
  - within that line it runs up to the line's last `/rest/api`.

## Model

| member | source | states |
|---|---|---|
| Util.LinkRoundTrip | src/handleEvent.ts:11 | a link whose url has no bar character reads back to exactly its url and text |
| Wording.LowerActionText | src/github/handle.ts:56-70 | words exist exactly for `approved`, `changes_requested` and `commented` |
| Wording.UpperActionText | src/main.ts:68-77 | words exist exactly for `APPROVED`, `CHANGES_REQUESTED` and `COMMENTED` |
| Wording.ActionTextsAgree | src/main.ts:68-77 | both tables give the same words for a state in either case; no state, of any spelling, has words in both tables |
| Users.UniqByLogin | src/github/api.ts:36-39 | the result has the same logins as its input, none twice, only users of the input and no more of them |
| Users.UniqByLoginKeepsFirstSeen | src/github/api.ts:36-39 | each kept user is the first occurrence of its login, and kept users are in first-seen order |
| Users.UniqByLoginHead | src/github/api.ts:36-37 | the first user of a non-empty list is kept, at the head |
| Users.UniqByLoginOfDistinct | src/github/handle.ts:76 | a list without repeated logins is left unchanged |
| Users.ExcludeLogin | src/github/handle.ts:73 | a user is kept iff its login differs from the excluded one; the login set loses exactly that login |
| Users.ExcludeLoginAppend | src/github/handle.ts:73 | filtering works piecewise over a concatenation, so relative order is kept |
| Users.ExcludeLoginCounts | src/handleEvent.ts:97-99 | every other user is kept as often as it occurs |
| Users.ExcludeLoginKeepsDistinct | src/github/handle.ts:113-115 | filtering never introduces a repeated login |
| Users.CommentAudience | src/handleEvent.ts:97-99 | the owner first unless they are the commenter, then the others without the commenter, repeats kept; the commenter is never included |
| Users.CommentAudienceKeepsRepeats | src/handleEvent.ts:97-99 | an owner who is also listed among the others appears at least twice |
| Users.CommentAudienceOwnerTwice | src/handleEvent.ts:97-99 | such an owner stands at the head of the audience and again at a later position |
| Users.Notify | src/main.ts:101-104 | one message per user, in order, each by login with the given body |
| Delivery.Outbox.Send | src/github/index.ts:93-97 | one call appends exactly one batch |
| GitHubApi.CommentAuthors | src/github/api.ts:33 | the i-th user is the author of the i-th comment |
| GitHubApi.ReviewAuthors | src/github/api.ts:34 | the i-th user is the author of the i-th review |
| GitHubApi.CandidateLogins | src/github/api.ts:33-37 | the candidates' logins are the owner, requested reviewers, commenters and reviewers |
| GitHubApi.InvolvedUsersSpec | src/github/api.ts:25-40 | owner first; logins distinct; login set is owner, requested reviewers, commenters and reviewers; first-seen order; at most 1 + reviewers + comments + reviews users |
| GitHubApi.InvolvedUsersFetches | src/github/api.ts:17-24 | the result depends only on what `<pr.url>/comments` and `<pr.url>/reviews` return |
| GitHubApi.GetIssuePullRequest | src/github/api.ts:42-50 | absent exactly when the issue has no `pull_request`; otherwise the PR fetched from its url |
| GitHubRoot.InvolvedUsersAsApi | src/github.ts:23-36 | the copy equals the `src/github/api.ts` aggregation, with owner first, distinct logins, the same login set and first-seen order |
| GitHubHandle.HandlePREvent | src/github/handle.ts:7-31 | other actions give nothing; fails exactly when `requested_reviewer` is missing; otherwise one message, only to that reviewer, with the request body |
| GitHubHandle.ReviewRecipients | src/github/handle.ts:72-76 | no repeated login and never the review's author |
| GitHubHandle.ReviewNotices | src/github/handle.ts:78-88 | one notice per recipient, in recipient order |
| GitHubHandle.OwnerNoticeBody | src/github/handle.ts:79-85 | the PR owner's notice reads "<reviewer> <action> your PR: <PR link>" |
| GitHubHandle.ReviewNoticesAddressing | src/github/handle.ts:78-88 | notices go by login only to the recipients, distinct when the recipients are |
| GitHubHandle.ApprovalRecipients | src/github/handle.ts:57-62 | an approval has at most one recipient, the owner |
| GitHubHandle.HandleReviewEvent | src/github/handle.ts:33-89 | nothing unless submitted, nothing for a blacklisted reviewer or an unknown state; addressed by login, no login twice, never the reviewer; an approval reaches at most the owner |
| GitHubHandle.ApprovalNotifiesOwner | src/github/handle.ts:57-87 | an approval gives nothing iff the owner approved their own PR, else one "your PR" message to the owner |
| GitHubHandle.DiscussionReachesInvolved | src/github/handle.ts:63-76 | requested changes and comment reviews reach the involved users minus the reviewer, in involved order |
| GitHubHandle.ReviewWording | src/github/handle.ts:78-87 | the body says "your" exactly for the owner and "a" otherwise, with the state's words linked to the review |
| GitHubHandle.CommentNotices | src/github/handle.ts:118-124 | one identical comment message per recipient, in order |
| GitHubHandle.NotifyInvolved | src/github/handle.ts:113-124 | message i goes to the i-th involved user other than the commenter, so by login, no login twice, never the commenter, all with the comment body |
| GitHubHandle.HandlePullRequestReviewCommentEvent | src/github/handle.ts:91-125 | nothing unless created or when the commenter is blacklisted; otherwise message i goes to the i-th involved user of the PR other than the commenter, each once, with the comment body |
| GitHubHandle.HandleIssueCommentEvent | src/github/handle.ts:127-167 | nothing unless created, nothing for an issue without a PR or a blacklisted commenter; otherwise message i goes to the i-th involved user of the fetched PR other than the commenter, each once, with the comment body |
| GitHubIndex.Messages | src/github/index.ts:68-91 | unknown names and `commit_comment` give nothing; the call fails exactly for a `review_requested` pull-request event without a reviewer, with the handler's message; every batch is addressed by login with no login twice |
| GitHubIndex.HandleEvent | src/github/index.ts:68-98 | a failure sends nothing; otherwise the whole batch is sent once, and only if non-empty |
| GitHubIndex.UnhandledActionsSendNothing | src/github/index.ts:100-229 | an action other than the handled one sends nothing |
| GitHubIndex.BlacklistedActorsSendNothing | src/github/index.ts:140-249 | a blacklisted reviewer or commenter sends nothing |
| GitHubIndex.ReviewAudience | src/github/index.ts:150-170 | approvals go only to the owner; every review message goes to an involved user other than the reviewer |
| GitHubIndex.IssueWithoutPullRequestSendsNothing | src/github/index.ts:233-238 | a comment on an issue with no PR sends nothing |
| JiraApi.LastMarker | src/jira/api.ts:64 | finds a `/rest/api` with none after it, or reports that there is none |
| JiraApi.CaptureInFirstLine | src/jira/api.ts:64 | when the first line holds `/rest/api`, the match starts the url and the greedy group runs to that line's last marker |
| JiraApi.CaptureAfterFirstLine | src/jira/api.ts:64 | past a first line without `/rest/api`, the capture of the rest is the capture of the whole url, shifted |
| JiraApi.CaptureBaseSpec | src/jira/api.ts:64-70 | the capture exists iff the url holds `/rest/api`, and it is the leftmost match's greedy group: no match starts earlier, and none from the same start ends at a later marker |
| JiraApi.GetJiraBaseURL | src/jira/api.ts:61-71 | throws exactly when the url has no `/rest/api`, with the message naming the url; otherwise the base is the group the regular expression captures (leftmost start, last marker reachable without a line end), so it spans no line end |
| JiraApi.GetJiraBaseURLOneLine | src/jira/api.ts:61-70 | on a one-line url the base is the prefix before the last `/rest/api` |
| JiraApi.QuerySuffix | src/jira/api.ts:25 | the query suffix is empty exactly when no parameters are given |
| JiraApi.UserRequestURL | src/jira/api.ts:49-52 | the user is requested at `<base>/rest/api/2/user?accountId=<id>` |
| JiraApi.RequestedURLs | src/jira/api.ts:42-59 | watchers, full issue and user are fetched at the documented REST urls |
| JiraApi.BaseOfIssuePath | src/jira/api.ts:43-45 | a one-line base followed by an issue path (key without `/`) reads back to that base |
| JiraApi.IssueURLsRoundTrip | src/jira/api.ts:42-71 | the watchers and full-issue urls read back to the base of the webhook's `self` url when the key has no `/` |
| JiraIndex.GetIssueViewURL | src/jira/index.ts:102-104 | fails exactly when `self` has no `/rest/api`; otherwise `<base>/browse/issue/<key>` |
| JiraIndex.ViewURLOnSameSite | src/jira/index.ts:102-104 | the view link starts with the same base the REST urls read back to |
| JiraIndex.ExcludeEmail | src/jira/index.ts:54 | keeps exactly the other addresses, each as often as it occurs |
| JiraIndex.ExcludeEmailAppend | src/jira/index.ts:52-54 | filtering works piecewise, so watcher order is kept |
| JiraIndex.HandleCommentCreatedEvent | src/jira/index.ts:45-66 | fails exactly when `self` has no `/rest/api`; otherwise every watcher address except the author's, in order and repeats kept, each by email with the comment body |
| JiraIndex.CommentSkipsOnlyItsAuthor | src/jira/index.ts:52-54 | a watcher is told iff their address differs from the comment author's |
| JiraIndex.AssignmentNotices | src/jira/index.ts:75-99 | at most one notice per changelog item |
| JiraIndex.AssignmentNoticesAppend | src/jira/index.ts:77-97 | the notices of a concatenated changelog are the notices of each part, in order |
| JiraIndex.AssignmentNoticesShape | src/jira/index.ts:77-95 | each notice goes by email to an assignee named by a truthy `assignee` item, never to the updating user, with the assignment body |
| JiraIndex.AssignmentNoticesComplete | src/jira/index.ts:77-95 | every assignment of someone other than the updating user produces that person's notice |
| JiraIndex.IssueUpdatedMessages | src/jira/index.ts:68-73 | fails exactly when `self` has no `/rest/api`, with the base-url message |
| JiraIndex.CollectNotices | src/jira/index.ts:75-99 | the changelog loop collects exactly the notices of the changelog, in changelog order |
| JiraIndex.HandleIssueUpdatedEvent | src/jira/index.ts:68-100 | fails exactly as IssueUpdatedMessages does; otherwise returns the collected notices of the changelog |
| JiraIndex.Messages | src/jira/index.ts:20-36 | events other than `comment_created` and `jira:issue_updated` give nothing; every message is by email |
| JiraIndex.HandleEvent | src/jira/index.ts:20-43 | a failure sends nothing; otherwise the batch is sent once, and only if non-empty |
| EarlyHandleEvent.HandlePREvent | src/handleEvent.ts:38-53 | nothing unless `assigned`; then one request per assignee, in order |
| EarlyHandleEvent.HandleReviewEvent | src/handleEvent.ts:55-85 | nothing unless submitted; then exactly one message, to the owner, whoever reviewed |
| EarlyHandleEvent.ReviewWording | src/handleEvent.ts:65-84 | the review link shows the lower-case state's words, or "undefined" for any other state, before "your PR" |
| EarlyHandleEvent.HandleCommentEvent | src/handleEvent.ts:87-108 | nothing unless created; then message i goes to the i-th of the owner and the assignees minus the commenter, repeats kept, never to the commenter, each with the comment body |
| EarlyHandleEvent.CommentRepeatsOwnerAssignee | src/handleEvent.ts:97-101 | an owner who is also an assignee, and did not comment, receives two messages: the first and a later one |
| EarlyHandleEvent.Messages | src/handleEvent.ts:20-29 | only the three known event names produce messages, all by login |
| EarlyHandleEvent.HandleEvent | src/handleEvent.ts:13-36 | the batch is sent once, and only if non-empty |
| EarlyHandleEvent.SubmittedReviewSendsOne | src/handleEvent.ts:55-85 | a submitted review event yields exactly one message, to the owner, naming the reviewer and the state's words (or "undefined") before "your PR" |
| MainAction.HandlePREvent | src/main.ts:47-58 | nothing unless `review_requested`; then one "has requested" message per requested reviewer, in order |
| MainAction.HandleReviewEvent | src/main.ts:60-85 | nothing unless submitted; then exactly one message, to the owner |
| MainAction.ReviewWording | src/main.ts:68-82 | upper-case states give their words after "has"; the lower-case states give "undefined" |
| MainAction.HandleCommentEvent | src/main.ts:87-105 | nothing unless created; then the owner and requested reviewers minus the commenter, in order, with the plain-title body |
| MainAction.CommentTellsOwnerFirst | src/main.ts:96-99 | an owner who did not write the comment is told first |
| MainAction.Run | src/main.ts:18-27 | only the three known event names produce messages, all by login |
| LibHandleEvent.HandlePREvent | lib/handleEvent.js:35-46 | nothing unless `review_requested`; then one request per requested reviewer, in order |
| LibHandleEvent.HandleReviewEvent | lib/handleEvent.js:47-71 | nothing unless submitted; then one message to the owner with the upper-case state's words |
| LibHandleEvent.HandleCommentEvent | lib/handleEvent.js:72-90 | the same messages as `src/main.ts`, never to the commenter |
| LibHandleEvent.Messages | lib/handleEvent.js:19-28 | only the three known event names produce messages |
| LibHandleEvent.HandleEvent | lib/handleEvent.js:16-33 | the batch is sent once, and only if non-empty |
| LibHandleEvent.RequestBodiesDiffer | lib/handleEvent.js:43 | the compiled review-request body is the `src/main.ts` one without "has" after the author's login |
| LibHandleEvent.PREventMatchesMain | lib/handleEvent.js:40-45 | same reviewers as `src/main.ts`; the body differs only by "has" |
| LibHandleEvent.ReviewEventMatchesMain | lib/handleEvent.js:52-69 | same recipient as `src/main.ts`; the body differs only by "has" |
| LibHandleEvent.SameRecipientsAsMain | lib/handleEvent.js:19-28 | the compiled dispatcher addresses exactly the users `src/main.ts` does, in the same order |

## Left out

- Webhook signature check: `verify` (src/github/index.ts:11-37) is HMAC-SHA1 through Node's crypto module.
- Express handlers and server wiring: `handleGitHubWebhook`, `handleJiraWebhook` and `src/index.ts` are HTTP plumbing.
- Slack delivery: `src/slack.ts` and `lib/slack.js` are wrappers over the Slack client. They are seen only as the batches handed to them (`Delivery.Outbox`).
- HTTP fetch wrappers: `gitHubAPI` and `jiraAPI` are network I/O, and `jiraAPI` also does Basic-auth base64 encoding. Their answers are the `GitHubServer` and `JiraServer` functions, and a fetch never fails.
- Jira query strings: `querystring.stringify` percent-encoding is not modelled; parameters are joined as `key=value` with `&`.
- Configuration and logging: `src/config.ts`, `src/inputs.ts`, `src/users.ts` and `src/log.ts` read the environment or log. The blacklist is a parameter. Every `console.log` is dropped.
- Action runtime: the rest of `run` in `src/main.ts` (toolkit, `wait`, `setOutput`, `setFailed`). The batch `run` builds is never sent, so `MainAction.Run` only returns it. `run` reads the event name from `context.event`; the model uses the same name field as the other dispatchers.
- Missing payload fields: a payload lacking a field a handler reads would raise a TypeError. Payloads are records holding every field; only `requested_reviewer` and `issue.pull_request` may be absent, because the code tests for them.
- Concurrency: `Promise.all` over the fetches is modelled as independent reads of one server. The extra rejections in `handleCommentCreatedEvent` and `handleIssueUpdatedEvent` when the base url throws are not modelled; the handler fails with the same message either way.
- Fetched values are taken as given: the Jira watchers payload is reduced to its `watchers` list, and a user or issue is reduced to the fields the handlers read.
