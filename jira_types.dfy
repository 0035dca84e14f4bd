/** The Jira webhook payloads and REST answers the relay reads
    (src/types/jira.ts). */
module JiraTypes {
  import opened Wrappers

  /** What a webhook carries of an issue; `self` is a REST url. */
  datatype PartialIssue = PartialIssue(self: string, key: string)

  datatype PartialUser = PartialUser(self: string, accountId: string)

  datatype IssueComment = IssueComment(author: PartialUser, body: string)

  /** One changelog entry; `to` is null when a field is cleared. */
  datatype ChangeItem = ChangeItem(field: string, to: Option<string>)

  /** A webhook body as one JSON object: `comment` is read for
      `comment_created`, `user` and `changelog` for `jira:issue_updated`. */
  datatype JiraPayload = JiraPayload(
    webhookEvent: string,
    issue: PartialIssue,
    user: PartialUser,
    comment: IssueComment,
    changelog: seq<ChangeItem>)

  datatype JiraUser = JiraUser(name: string, emailAddress: string)

  datatype Watcher = Watcher(emailAddress: string)

  datatype FullIssue = FullIssue(summary: string)
}
