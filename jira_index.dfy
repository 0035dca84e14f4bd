/** The Jira side of the relay (src/jira/index.ts): a new comment notifies
    the issue's watchers, an assignment in an update notifies the new
    assignee. Every message is addressed by email. */
module JiraIndex {
  import opened Wrappers
  import opened Types
  import opened Util
  import opened JiraTypes
  import opened JiraApi
  import opened Delivery

  /** The browser link of an issue on the site `base`. */
  function ViewURL(base: string, key: string): string
  {
    base + "/browse/issue/" + key
  }

  /** `getIssueViewURL`: throws as `getJiraBaseURL` does. */
  function GetIssueViewURL(issue: PartialIssue): (r: Result<string, string>)
    ensures r.Failure? <==> !HasMarker(issue.self)
    ensures r.Success? ==> r.value == ViewURL(GetJiraBaseURL(issue.self).value, issue.key)
  {
    var base :- GetJiraBaseURL(issue.self);
    Success(ViewURL(base, issue.key))
  }

  /** The browser link and the REST resources of an issue are on the same
      site: both are read back to the base of the webhook's `self` url. */
  lemma ViewURLOnSameSite(issue: PartialIssue)
    requires GetIssueViewURL(issue).Success? && '/' !in issue.key
    ensures var base := GetJiraBaseURL(issue.self).value;
      && GetIssueViewURL(issue).value[..|base|] == base
      && GetJiraBaseURL(IssueURL(base, issue.key)) == Success(base)
  {
    IssueURLsRoundTrip(issue);
  }

  function Emails(ws: seq<Watcher>): (r: seq<string>)
    ensures |r| == |ws| && forall i | 0 <= i < |ws| :: r[i] == ws[i].emailAddress
  {
    seq(|ws|, i requires 0 <= i < |ws| => ws[i].emailAddress)
  }

  /** `filter(email => email !== author)`: keeps every other address, each
      as often as it occurs and in order. */
  function ExcludeEmail(emails: seq<string>, email: string): (r: seq<string>)
    ensures forall e :: e in r <==> e in emails && e != email
    ensures multiset(r) == multiset(emails)[email := 0]
    ensures |r| <= |emails|
  {
    if emails == [] then []
    else
      var rest := ExcludeEmail(emails[1..], email);
      assert emails == [emails[0]] + emails[1..];
      if emails[0] == email then rest else [emails[0]] + rest
  }

  /** Filtering works piecewise, so watcher order is kept. */
  lemma {:induction false} ExcludeEmailAppend(a: seq<string>, b: seq<string>, email: string)
    ensures ExcludeEmail(a + b, email) == ExcludeEmail(a, email) + ExcludeEmail(b, email)
    decreases |a|
  {
    if a == [] {
      assert a + b == b;
    } else {
      assert (a + b)[0] == a[0];
      assert (a + b)[1..] == a[1..] + b;
      ExcludeEmailAppend(a[1..], b, email);
    }
  }

  function CommentBody(author: JiraUser, viewURL: string, summary: string, body: string): string
  {
    author.name + " commented on Jira issue: " + Link(viewURL, summary) + ": " + body
  }

  /** The addresses of e-mail messages, in order. */
  function Addresses(ms: seq<Message>): (r: seq<string>)
    requires forall m <- ms :: m.email.Some?
    ensures |r| == |ms|
    ensures forall i | 0 <= i < |ms| :: Some(r[i]) == ms[i].email
  {
    seq(|ms|, i requires 0 <= i < |ms| => ms[i].email.value)
  }

  /** `handleCommentCreatedEvent`: every watcher but the comment's author
      receives the comment with a link to the issue; fails as
      `getJiraBaseURL` does on the issue's `self` url. */
  function HandleCommentCreatedEvent(json: JiraPayload, server: JiraServer): (r: Result<seq<Message>, string>)
    ensures r.Failure? <==> !HasMarker(json.issue.self)
    ensures r.Failure? ==> r.error == NoBaseURL + json.issue.self
    ensures r.Success? ==>
      var base := GetJiraBaseURL(json.issue.self).value;
      var author := GetUser(base, json.comment.author.accountId, server);
      var watchers := GetIssueWatchers(json.issue, server).value;
      var summary := GetFullIssue(json.issue, server).value.summary;
      && |r.value| <= |watchers|
      && (forall m <- r.value :: m.githubUsername.None? && m.email.Some? && m.email.value != author.emailAddress
            && m.body == CommentBody(author, ViewURL(base, json.issue.key), summary, json.comment.body))
      && Addresses(r.value) == ExcludeEmail(Emails(watchers), author.emailAddress)
      && multiset(Addresses(r.value)) == multiset(Emails(watchers))[author.emailAddress := 0]
  {
    var base :- GetJiraBaseURL(json.issue.self);
    var watchers := GetIssueWatchers(json.issue, server).value;
    var fullIssue := GetFullIssue(json.issue, server).value;
    var author := GetUser(base, json.comment.author.accountId, server);
    var recipients := ExcludeEmail(Emails(watchers), author.emailAddress);
    var viewURL := GetIssueViewURL(json.issue).value;
    var body := CommentBody(author, viewURL, fullIssue.summary, json.comment.body);
    var ms := seq(|recipients|, i requires 0 <= i < |recipients| => ToEmail(recipients[i], body));
    assert Addresses(ms) == recipients;
    assert forall m <- ms :: m.email.value in recipients;
    Success(ms)
  }

  /** A changelog entry that sets the assignee to a truthy value. */
  predicate IsAssignment(change: ChangeItem)
  {
    change.field == "assignee" && change.to.Some? && change.to.value != ""
  }

  function AssignedBody(updater: JiraUser, viewURL: string, summary: string): string
  {
    updater.name + " assigned you to Jira issue: " + Link(viewURL, summary)
  }

  /** What `handleIssueUpdatedEvent` fixed before walking the changelog. */
  datatype Update = Update(base: string, key: string, updater: JiraUser, summary: string)

  /** The profile of the account an assignment names. */
  function Assignee(change: ChangeItem, u: Update, server: JiraServer): JiraUser
    requires IsAssignment(change)
  {
    GetUser(u.base, change.to.value, server)
  }

  /** The message one changelog entry contributes: none unless it assigns
      someone other than the updating user. */
  function Notice(change: ChangeItem, u: Update, server: JiraServer): seq<Message>
  {
    if !IsAssignment(change) then []
    else
      var assignee := Assignee(change, u, server);
      if assignee.emailAddress == u.updater.emailAddress then []
      else [ToEmail(assignee.emailAddress, AssignedBody(u.updater, ViewURL(u.base, u.key), u.summary))]
  }

  /** The notices of a changelog, in changelog order. */
  function AssignmentNotices(items: seq<ChangeItem>, u: Update, server: JiraServer): (r: seq<Message>)
    ensures |r| <= |items|
    decreases |items|
  {
    if items == [] then []
    else AssignmentNotices(items[..|items| - 1], u, server) + Notice(items[|items| - 1], u, server)
  }

  lemma AssignmentNoticesSnoc(items: seq<ChangeItem>, i: nat, u: Update, server: JiraServer)
    requires i < |items|
    ensures AssignmentNotices(items[..i + 1], u, server) == AssignmentNotices(items[..i], u, server) + Notice(items[i], u, server)
  {
    assert items[..i + 1][..i] == items[..i];
  }

  /** The notices of two changelog pieces are the notices of each, in
      order. */
  lemma {:induction false} AssignmentNoticesAppend(a: seq<ChangeItem>, b: seq<ChangeItem>, u: Update, server: JiraServer)
    ensures AssignmentNotices(a + b, u, server) == AssignmentNotices(a, u, server) + AssignmentNotices(b, u, server)
    decreases |b|
  {
    if b == [] {
      assert a + b == a;
    } else {
      var b' := b[..|b| - 1];
      assert (a + b)[..|a + b| - 1] == a + b';
      assert (a + b)[|a + b| - 1] == b[|b| - 1];
      AssignmentNoticesAppend(a, b', u, server);
    }
  }

  /** Every notice goes by email to an assignee named in the changelog,
      never to the updating user, and says who assigned them. */
  lemma {:induction false} AssignmentNoticesShape(items: seq<ChangeItem>, u: Update, server: JiraServer)
    ensures forall m <- AssignmentNotices(items, u, server) ::
      && m.githubUsername.None? && m.email.Some?
      && m.email.value != u.updater.emailAddress
      && m.body == AssignedBody(u.updater, ViewURL(u.base, u.key), u.summary)
      && exists j | 0 <= j < |items| :: IsAssignment(items[j]) && Assignee(items[j], u, server).emailAddress == m.email.value
    decreases |items|
  {
    if items != [] {
      var init := items[..|items| - 1];
      AssignmentNoticesShape(init, u, server);
      forall m <- AssignmentNotices(items, u, server)
        ensures exists j | 0 <= j < |items| :: IsAssignment(items[j]) && Assignee(items[j], u, server).emailAddress == m.email.value
      {
        if m in AssignmentNotices(init, u, server) {
          var j :| 0 <= j < |init| && IsAssignment(init[j]) && Assignee(init[j], u, server).emailAddress == m.email.value;
          assert items[j] == init[j];
        } else {
          assert IsAssignment(items[|items| - 1]);
        }
      }
    }
  }

  /** Every assignment of someone other than the updating user is
      announced to that person. */
  lemma AssignmentNoticesComplete(items: seq<ChangeItem>, j: nat, u: Update, server: JiraServer)
    requires j < |items| && IsAssignment(items[j])
    requires Assignee(items[j], u, server).emailAddress != u.updater.emailAddress
    ensures ToEmail(Assignee(items[j], u, server).emailAddress, AssignedBody(u.updater, ViewURL(u.base, u.key), u.summary))
      in AssignmentNotices(items, u, server)
  {
    assert items == items[..j] + [items[j]] + items[j + 1..];
    AssignmentNoticesAppend(items[..j] + [items[j]], items[j + 1..], u, server);
    AssignmentNoticesAppend(items[..j], [items[j]], u, server);
    assert AssignmentNotices([items[j]], u, server) == Notice(items[j], u, server);
  }

  /** What `handleIssueUpdatedEvent` returns: fails as `getJiraBaseURL`
      does on the issue's `self` url. */
  function IssueUpdatedMessages(json: JiraPayload, server: JiraServer): (r: Result<seq<Message>, string>)
    ensures r.Failure? <==> !HasMarker(json.issue.self)
    ensures r.Failure? ==> r.error == NoBaseURL + json.issue.self
  {
    var base :- GetJiraBaseURL(json.issue.self);
    var fullIssue := GetFullIssue(json.issue, server).value;
    var updater := GetUser(base, json.user.accountId, server);
    Success(AssignmentNotices(json.changelog, Update(base, json.issue.key, updater, fullIssue.summary), server))
  }

  /** Once the base url is known, the update's messages are the notices
      of its changelog. */
  lemma IssueUpdatedMessagesOf(json: JiraPayload, server: JiraServer, base: string)
    requires GetJiraBaseURL(json.issue.self) == Success(base)
    ensures IssueUpdatedMessages(json, server) == Success(AssignmentNotices(json.changelog,
      Update(base, json.issue.key, GetUser(base, json.user.accountId, server), GetFullIssue(json.issue, server).value.summary),
      server))
  {
  }

  /** The loop of `handleIssueUpdatedEvent`: walks the changelog, skipping
      entries that are not assignments and assignments the updating user
      made to themself. */
  method CollectNotices(items: seq<ChangeItem>, u: Update, server: JiraServer) returns (messages: seq<Message>)
    ensures messages == AssignmentNotices(items, u, server)
  {
    messages := [];
    for i := 0 to |items|
      invariant messages == AssignmentNotices(items[..i], u, server)
    {
      var change := items[i];
      AssignmentNoticesSnoc(items, i, u, server);
      if change.field == "assignee" && change.to.Some? && change.to.value != "" {
        var assignee := GetUser(u.base, change.to.value, server);
        if assignee.emailAddress == u.updater.emailAddress {
          continue;
        }
        var viewURL := ViewURL(u.base, u.key);
        messages := messages + [ToEmail(assignee.emailAddress, AssignedBody(u.updater, viewURL, u.summary))];
      }
    }
    assert items[..|items|] == items;
  }

  /** `handleIssueUpdatedEvent`: fetches the issue and the updating user,
      then collects the changelog's notices. */
  method HandleIssueUpdatedEvent(json: JiraPayload, server: JiraServer) returns (r: Result<seq<Message>, string>)
    ensures r == IssueUpdatedMessages(json, server)
  {
    var baseURL := GetJiraBaseURL(json.issue.self);
    if baseURL.Failure? {
      return Failure(baseURL.error);
    }
    var base := baseURL.value;
    var fullIssue := GetFullIssue(json.issue, server).value;
    var updatingUser := GetUser(base, json.user.accountId, server);
    IssueUpdatedMessagesOf(json, server, base);
    var messages := CollectNotices(json.changelog, Update(base, json.issue.key, updatingUser, fullIssue.summary), server);
    return Success(messages);
  }

  /** The batch the `switch` in `handleEvent` leaves in `messages`;
      `jira:issue_created` and unknown events are only logged. */
  function Messages(json: JiraPayload, server: JiraServer): (r: Result<seq<Message>, string>)
    ensures json.webhookEvent !in {"comment_created", "jira:issue_updated"} ==> r == Success([])
    ensures r.Failure? ==> !HasMarker(json.issue.self)
    ensures r.Success? ==> forall m <- r.value :: m.githubUsername.None? && m.email.Some?
  {
    if json.webhookEvent == "comment_created" then HandleCommentCreatedEvent(json, server)
    else if json.webhookEvent == "jira:issue_updated" then
      var r := IssueUpdatedMessages(json, server);
      if r.Success? then
        var base := GetJiraBaseURL(json.issue.self).value;
        AssignmentNoticesShape(json.changelog,
          Update(base, json.issue.key, GetUser(base, json.user.accountId, server), GetFullIssue(json.issue, server).value.summary), server);
        r
      else r
    else Success([])
  }

  /** `handleEvent`: classify, then hand the batch to `sendMessages` once
      when it is non-empty. */
  method HandleEvent(json: JiraPayload, server: JiraServer, outbox: Outbox) returns (r: Outcome<string>)
    modifies outbox
    ensures Messages(json, server).Failure? ==>
      r == Fail(Messages(json, server).error) && outbox.batches == old(outbox.batches)
    ensures Messages(json, server).Success? ==>
      r == Pass && SentOnceIfAny(old(outbox.batches), outbox.batches, Messages(json, server).value)
  {
    var messages: seq<Message> := [];
    if json.webhookEvent == "comment_created" {
      var res := HandleCommentCreatedEvent(json, server);
      if res.Failure? {
        return Fail(res.error);
      }
      messages := res.value;
    } else if json.webhookEvent == "jira:issue_updated" {
      var res := HandleIssueUpdatedEvent(json, server);
      if res.Failure? {
        return Fail(res.error);
      }
      messages := res.value;
    }
    if |messages| > 0 {
      outbox.Send(messages);
    }
    r := Pass;
  }

  /** A new comment never notifies its own author, and every other watcher
      hears of it once per time they are listed. */
  lemma CommentSkipsOnlyItsAuthor(json: JiraPayload, server: JiraServer, w: nat)
    requires json.webhookEvent == "comment_created" && HasMarker(json.issue.self)
    requires w < |GetIssueWatchers(json.issue, server).value|
    ensures var base := GetJiraBaseURL(json.issue.self).value;
      var author := GetUser(base, json.comment.author.accountId, server);
      var email := GetIssueWatchers(json.issue, server).value[w].emailAddress;
      var ms := Messages(json, server).value;
      (exists m <- ms :: m.email == Some(email)) <==> email != author.emailAddress
  {
    var base := GetJiraBaseURL(json.issue.self).value;
    var author := GetUser(base, json.comment.author.accountId, server);
    var watchers := GetIssueWatchers(json.issue, server).value;
    var email := watchers[w].emailAddress;
    var ms := Messages(json, server).value;
    var emails := seq(|ms|, i requires 0 <= i < |ms| => ms[i].email.value);
    assert Emails(watchers)[w] == email;
    if email != author.emailAddress {
      assert email in multiset(emails);
      var i :| 0 <= i < |emails| && emails[i] == email;
      assert ms[i].email == Some(email);
    }
  }
}
