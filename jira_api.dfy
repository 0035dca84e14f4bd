/** URL handling of src/jira/api.ts: recovering the site's base URL from a
    REST url and building the REST urls the relay requests. */
module JiraApi {
  import opened Wrappers
  import opened JiraTypes

  /** What the Jira REST API answers for each requested URL (query
      included). */
  datatype JiraServer = JiraServer(
    watchers: string -> seq<Watcher>,
    issue: string -> FullIssue,
    user: string -> JiraUser)

  const Marker := "/rest/api"
  const NoBaseURL := "Can't identify JIRA base URL from REST URL: "

  /** The characters a regular expression's `.` does not match. */
  predicate IsLineTerminator(c: char)
  {
    c == '\n' || c == '\r' || c == '\U{2028}' || c == '\U{2029}'
  }

  predicate NoLineTerminator(s: string)
  {
    forall i | 0 <= i < |s| :: !IsLineTerminator(s[i])
  }

  predicate MarkerAt(s: string, k: nat)
  {
    k + |Marker| <= |s| && s[k..k + |Marker|] == Marker
  }

  ghost predicate HasMarker(s: string)
  {
    exists k: nat :: MarkerAt(s, k)
  }

  lemma MarkerAtPrefix(s: string, m: nat, k: nat)
    requires m <= |s|
    ensures MarkerAt(s[..m], k) <==> MarkerAt(s, k) && k + |Marker| <= m
  {
    if k + |Marker| <= m {
      assert s[..m][k..k + |Marker|] == s[k..k + |Marker|];
    }
  }

  lemma MarkerAtSuffix(s: string, m: nat, k: nat)
    requires m <= |s|
    ensures MarkerAt(s[m..], k) <==> MarkerAt(s, m + k)
  {
    if m + k + |Marker| <= |s| {
      assert s[m..][k..k + |Marker|] == s[m + k..m + k + |Marker|];
    }
  }

  /** Without a marker at its very end, `s` has the markers of `s` less
      its last character. */
  lemma MarkerAtInit(s: string)
    requires |s| >= |Marker| && s[|s| - |Marker|..] != Marker
    ensures forall k: nat :: MarkerAt(s, k) <==> MarkerAt(s[..|s| - 1], k)
  {
    forall k: nat ensures MarkerAt(s, k) <==> MarkerAt(s[..|s| - 1], k) {
      MarkerAtPrefix(s, |s| - 1, k);
      if k + |Marker| == |s| {
        assert s[k..k + |Marker|] == s[|s| - |Marker|..];
      }
    }
  }

  /** Where the last `/rest/api` in `s` starts. */
  function LastMarker(s: string): (r: Option<nat>)
    ensures r.Some? ==> MarkerAt(s, r.value) && forall k: nat | r.value < k :: !MarkerAt(s, k)
    ensures r.None? ==> forall k: nat :: !MarkerAt(s, k)
    decreases |s|
  {
    if |s| < |Marker| then None
    else if s[|s| - |Marker|..] == Marker then Some(|s| - |Marker|)
    else
      MarkerAtInit(s);
      LastMarker(s[..|s| - 1])
  }

  /** Where the first line of `s` ends. */
  function FirstLineEnd(s: string): (t: nat)
    ensures t <= |s| && NoLineTerminator(s[..t])
    ensures t < |s| ==> IsLineTerminator(s[t])
  {
    if s == [] || IsLineTerminator(s[0]) then 0
    else
      var t := FirstLineEnd(s[1..]);
      assert s[..t + 1] == [s[0]] + s[1..][..t];
      t + 1
  }

  /** The capture of `/(.*)\/rest\/api/`: the match starts at the beginning
      of the first line that holds the marker, and the greedy `.*` runs to
      the last marker of that line. */
  function CaptureBase(s: string): (r: Option<string>)
    decreases |s|
  {
    var t := FirstLineEnd(s);
    match LastMarker(s[..t])
    case Some(k) => Some(s[..k])
    case None => if t == |s| then None else CaptureBase(s[t + 1..])
  }

  /** `getJiraBaseURL`: the base URL a REST url starts with; it throws
      exactly when the url holds no `/rest/api`, and otherwise returns the
      text the regular expression's group captures. */
  function GetJiraBaseURL(restAPIURL: string): (r: Result<string, string>)
    ensures r.Failure? <==> !HasMarker(restAPIURL)
    ensures r.Failure? ==> r.error == NoBaseURL + restAPIURL
    ensures r.Success? ==> NoLineTerminator(r.value)
    ensures r.Success? ==>
      exists j: nat, k: nat | RegexCapture(restAPIURL, j, k) :: r.value == restAPIURL[j..k]
  {
    CaptureBaseSpec(restAPIURL);
    match CaptureBase(restAPIURL)
    case Some(base) => Success(base)
    case None => Failure(NoBaseURL + restAPIURL)
  }

  lemma MarkerHasNoLineTerminator()
    ensures NoLineTerminator(Marker)
  {
  }

  /** A marker cannot straddle a line end. */
  lemma MarkerWithinLine(s: string, t: nat, k: nat)
    requires t < |s| && IsLineTerminator(s[t])
    ensures MarkerAt(s, k) ==> k + |Marker| <= t || t < k
  {
    if MarkerAt(s, k) {
      MarkerHasNoLineTerminator();
      assert forall i | k <= i < k + |Marker| :: s[i] == Marker[i - k];
    }
  }

  /** `(.*)\/rest\/api` matches from `j` with the marker at `k`: the text
      in between holds no line terminator. */
  ghost predicate MatchSpan(s: string, j: nat, k: nat)
  {
    j <= k && MarkerAt(s, k) && forall i | j <= i < k :: !IsLineTerminator(s[i])
  }

  /** The span a regular-expression search captures: the leftmost start
      from which the pattern matches, and from there the greedy, that is
      the last, marker. */
  ghost predicate RegexCapture(s: string, j: nat, k: nat)
  {
    && MatchSpan(s, j, k)
    && (forall j': nat, k': nat | j' < j :: !MatchSpan(s, j', k'))
    && (forall k': nat | k < k' :: !MatchSpan(s, j, k'))
  }

  /** A line of `s` ends at `t`: at a line terminator or at the end. */
  predicate EndsLine(s: string, t: nat)
  {
    t <= |s| && (t < |s| ==> IsLineTerminator(s[t]))
  }

  /** A match starting on the line that ends at `t` ends at a marker of
      that line. */
  lemma LineSpan(s: string, t: nat, j: nat, k: nat)
    requires EndsLine(s, t) && j <= t && !MarkerAt(s[..t], k)
    ensures !MatchSpan(s, j, k)
  {
    MarkerAtPrefix(s, t, k);
    if t < |s| {
      MarkerWithinLine(s, t, k);
      if t < k <= |s| {
        assert IsLineTerminator(s[t]);
      }
    }
  }

  /** Matches are unaffected by dropping text before their start. */
  lemma MatchSpanSuffix(s: string, m: nat, j: nat, k: nat)
    requires m <= |s| && m <= j && m <= k
    ensures MatchSpan(s, j, k) <==> MatchSpan(s[m..], j - m, k - m)
  {
    MarkerAtSuffix(s, m, k - m);
  }

  /** A marker past a first line without one lies in the rest of the url. */
  lemma MarkerBeyondFirstLine(s: string, k: nat)
    requires LastMarker(s[..FirstLineEnd(s)]).None?
    requires MarkerAt(s, k)
    ensures FirstLineEnd(s) < k && MarkerAt(s[FirstLineEnd(s) + 1..], k - FirstLineEnd(s) - 1)
  {
    var t := FirstLineEnd(s);
    MarkerAtPrefix(s, t, k);
    assert t < |s|;
    MarkerWithinLine(s, t, k);
    MarkerAtSuffix(s, t + 1, k - t - 1);
  }

  /** When the first line holds no marker, the url holds one exactly when
      the text after the first line does. */
  lemma MarkersAfterFirstLine(s: string)
    requires LastMarker(s[..FirstLineEnd(s)]).None?
    ensures HasMarker(s) <==> FirstLineEnd(s) < |s| && HasMarker(s[FirstLineEnd(s) + 1..])
  {
    var t := FirstLineEnd(s);
    if HasMarker(s) {
      var k: nat :| MarkerAt(s, k);
      MarkerBeyondFirstLine(s, k);
    }
    if t < |s| && HasMarker(s[t + 1..]) {
      var k: nat :| MarkerAt(s[t + 1..], k);
      MarkerAtSuffix(s, t + 1, k);
    }
  }

  /** A first line holding a marker is where the capture is: from the
      url's start to that line's last marker. */
  lemma CaptureInFirstLine(s: string, t: nat, k: nat)
    requires EndsLine(s, t) && NoLineTerminator(s[..t])
    requires MarkerAt(s[..t], k) && forall k': nat | k < k' :: !MarkerAt(s[..t], k')
    ensures RegexCapture(s, 0, k)
  {
    MarkerAtPrefix(s, t, k);
    assert forall i | 0 <= i < k :: s[i] == s[..t][i];
    forall k': nat | k < k' ensures !MatchSpan(s, 0, k') {
      LineSpan(s, t, 0, k');
    }
  }

  /** No match starts before `j0 + t + 1` when the line ending at `t`
      holds no marker and no match of the rest starts before `j0`. */
  lemma NoEarlierMatch(s: string, t: nat, rest: string, j0: nat)
    requires EndsLine(s, t) && t < |s| && forall k: nat :: !MarkerAt(s[..t], k)
    requires rest == s[t + 1..]
    requires forall j': nat, k': nat | j' < j0 :: !MatchSpan(rest, j', k')
    ensures forall j': nat, k': nat | j' < j0 + t + 1 :: !MatchSpan(s, j', k')
  {
    forall j': nat, k': nat | j' < j0 + t + 1 ensures !MatchSpan(s, j', k') {
      if j' <= t {
        LineSpan(s, t, j', k');
      } else if j' <= k' {
        MatchSpanSuffix(s, t + 1, j', k');
      }
    }
  }

  /** Dropping text before a match keeps it the longest from its start. */
  lemma NoLaterMatch(s: string, rest: string, m: nat, j0: nat, k0: nat, j: nat, k: nat)
    requires m <= |s| && rest == s[m..] && j == j0 + m && k == k0 + m && j0 <= k0
    requires forall k': nat | k0 < k' :: !MatchSpan(rest, j0, k')
    ensures forall k': nat | k < k' :: !MatchSpan(s, j, k')
  {
    forall k': nat | k < k' ensures !MatchSpan(s, j, k') {
      MatchSpanSuffix(s, m, j, k');
    }
  }

  lemma SliceOfSuffix(s: string, m: nat, j0: nat, k0: nat)
    requires j0 <= k0 && m + k0 <= |s|
    ensures s[j0 + m..k0 + m] == s[m..][j0..k0]
  {
  }

  /** Past a line without a marker, the capture of the rest is the capture
      of the url, shifted. */
  lemma CaptureAfterFirstLine(s: string, t: nat, j0: nat, k0: nat)
    requires EndsLine(s, t) && t < |s| && forall k: nat :: !MarkerAt(s[..t], k)
    requires RegexCapture(s[t + 1..], j0, k0)
    ensures RegexCapture(s, j0 + t + 1, k0 + t + 1)
    ensures s[j0 + t + 1..k0 + t + 1] == s[t + 1..][j0..k0]
  {
    var m := t + 1;
    var rest := s[m..];
    var j := j0 + m;
    var k := k0 + m;
    MatchSpanSuffix(s, m, j, k);
    NoEarlierMatch(s, t, rest, j0);
    NoLaterMatch(s, rest, m, j0, k0, j, k);
    SliceOfSuffix(s, m, j0, k0);
  }

  /** The capture exists exactly when the url holds a marker, and then it
      is the span the regular expression captures: from the start of the
      first line holding a marker to that line's last marker. */
  lemma {:induction false} CaptureBaseSpec(s: string)
    ensures CaptureBase(s).Some? <==> HasMarker(s)
    ensures CaptureBase(s).Some? ==>
      exists j: nat, k: nat | RegexCapture(s, j, k) :: CaptureBase(s).value == s[j..k]
    decreases |s|
  {
    var t := FirstLineEnd(s);
    match LastMarker(s[..t])
    case Some(k) =>
      CaptureInFirstLine(s, t, k);
      assert CaptureBase(s).value == s[0..k];
    case None =>
      MarkersAfterFirstLine(s);
      if t < |s| {
        var rest := s[t + 1..];
        CaptureBaseSpec(rest);
        if CaptureBase(rest).Some? {
          var j0: nat, k0: nat :| RegexCapture(rest, j0, k0) && CaptureBase(rest).value == rest[j0..k0];
          CaptureAfterFirstLine(s, t, j0, k0);
          assert CaptureBase(s).value == s[j0 + t + 1..k0 + t + 1];
        }
      }
  }

  /** On a one-line url the greedy `.*` makes the base the prefix before the
      last `/rest/api`. */
  lemma {:induction false} GetJiraBaseURLOneLine(s: string)
    requires NoLineTerminator(s) && HasMarker(s)
    ensures var r := GetJiraBaseURL(s);
      && r.Success?
      && MarkerAt(s, |r.value|) && r.value == s[..|r.value|]
      && forall j: nat | |r.value| < j :: !MarkerAt(s, j)
  {
    var t := FirstLineEnd(s);
    assert t == |s|;
    assert s[..t] == s;
  }

  /** `jiraAPI`'s query: `?` and the parameters when some are given (even
      none inside), nothing when there are none. Parameters are joined as
      `key=value` with `&`. */
  function QuerySuffix(params: Option<seq<(string, string)>>): (r: string)
    ensures r == "" <==> params.None?
  {
    match params
    case None => ""
    case Some(ps) => "?" + QueryString(ps)
  }

  function QueryString(ps: seq<(string, string)>): string
  {
    if ps == [] then ""
    else if |ps| == 1 then ps[0].0 + "=" + ps[0].1
    else ps[0].0 + "=" + ps[0].1 + "&" + QueryString(ps[1..])
  }

  /** The URL `jiraAPI` requests. */
  function RequestURL(url: string, params: Option<seq<(string, string)>>): string
  {
    url + QuerySuffix(params)
  }

  function IssueURL(base: string, key: string): string
  {
    base + "/rest/api/2/issue/" + key
  }

  /** `getIssueWatchers`: the watchers of the issue's REST resource. */
  function GetIssueWatchers(issue: PartialIssue, server: JiraServer): Result<seq<Watcher>, string>
  {
    var base :- GetJiraBaseURL(issue.self);
    Success(server.watchers(RequestURL(IssueURL(base, issue.key) + "/watchers", None)))
  }

  function UserURL(base: string): string
  {
    base + "/rest/api/2/user"
  }

  /** `getUser`: the profile of an account, asked for by query. */
  function GetUser(base: string, accountId: string, server: JiraServer): JiraUser
  {
    server.user(RequestURL(UserURL(base), Some([("accountId", accountId)])))
  }

  /** `getFullIssue`: the whole issue behind a webhook's partial issue. */
  function GetFullIssue(issue: PartialIssue, server: JiraServer): Result<FullIssue, string>
  {
    var base :- GetJiraBaseURL(issue.self);
    Success(server.issue(RequestURL(IssueURL(base, issue.key), None)))
  }

  /** `getUser` asks for the account in the query string. */
  lemma UserRequestURL(base: string, accountId: string)
    ensures RequestURL(UserURL(base), Some([("accountId", accountId)]))
      == base + "/rest/api/2/user?accountId=" + accountId
  {
    var q := "accountId" + "=" + accountId;
    assert QueryString([("accountId", accountId)]) == q;
    calc {
      RequestURL(UserURL(base), Some([("accountId", accountId)]));
      (base + "/rest/api/2/user") + ("?" + q);
      base + ("/rest/api/2/user" + "?" + "accountId" + "=") + accountId;
      { assert "/rest/api/2/user" + "?" + "accountId" + "=" == "/rest/api/2/user?accountId="; }
      base + "/rest/api/2/user?accountId=" + accountId;
    }
  }

  /** The three fetches ask for exactly these URLs. */
  lemma RequestedURLs(issue: PartialIssue, accountId: string, server: JiraServer)
    requires GetJiraBaseURL(issue.self).Success?
    ensures var base := GetJiraBaseURL(issue.self).value;
      && GetIssueWatchers(issue, server) == Success(server.watchers(base + "/rest/api/2/issue/" + issue.key + "/watchers"))
      && GetFullIssue(issue, server) == Success(server.issue(base + "/rest/api/2/issue/" + issue.key))
      && GetUser(base, accountId, server) == server.user(base + "/rest/api/2/user?accountId=" + accountId)
  {
    var base := GetJiraBaseURL(issue.self).value;
    var watchers := IssueURL(base, issue.key) + "/watchers";
    assert RequestURL(watchers, None) == watchers;
    assert RequestURL(IssueURL(base, issue.key), None) == IssueURL(base, issue.key);
    UserRequestURL(base, accountId);
  }

  const IssuePath := "/rest/api/2/issue/"

  /** Where `/rest/api/2/issue/` has its slashes: at 0, and at 5, 9, 11
      and 17, the ends of `rest`, `api`, `2` and `issue`. The characters
      after the inner ones, the `a` of `api`, the `2` and the `i` of
      `issue`, are not the `r` that follows a marker's first slash. */
  lemma IssuePathChars()
    ensures forall j | 0 < j < |IssuePath| && j != 5 && j != 9 && j != 11 && j != 17 :: IssuePath[j] != '/'
    ensures IssuePath[6] == 'a' && IssuePath[10] == '2' && IssuePath[12] == 'i' && IssuePath[17] == '/'
  {
  }

  /** A position where `t` differs from the marker rules the marker out. */
  lemma NotMarkerAt(t: string, j: nat, i: nat)
    requires i < |Marker| && j + |Marker| <= |t| && t[j + i] != Marker[i]
    ensures !MarkerAt(t, j)
  {
    assert t[j..j + |Marker|][i] == t[j + i];
  }

  /** After the marker, the issue path holds no other marker when the key
      has no `/`. */
  lemma NoMarkerAfterIssuePath(key: string, suffix: string)
    requires '/' !in key
    requires suffix == "" || suffix == "/watchers"
    ensures forall j: nat | 0 < j :: !MarkerAt(IssuePath + key + suffix, j)
  {
    var p := IssuePath;
    var t := p + key + suffix;
    IssuePathChars();
    forall j: nat | 0 < j ensures !MarkerAt(t, j) {
      if j + |Marker| <= |t| {
        if j < |p| {
          if j == 5 || j == 9 || j == 11 {
            assert t[j + 1] == p[j + 1];
            NotMarkerAt(t, j, 1);
          } else if j == 17 {
            if |key| > 4 {
              assert t[22] == key[4];
              NotMarkerAt(t, j, 5);
            } else if |key| == 4 {
              assert t[23] == suffix[1];
              NotMarkerAt(t, j, 6);
            } else {
              assert t[22] == suffix[4 - |key|];
              NotMarkerAt(t, j, 5);
            }
          } else {
            assert t[j] == p[j];
            NotMarkerAt(t, j, 0);
          }
        } else if j < |p| + |key| {
          assert t[j] == key[j - |p|];
          NotMarkerAt(t, j, 0);
        } else {
          assert t[j + 1] == suffix[1];
          NotMarkerAt(t, j, 1);
        }
      }
    }
  }

  /** A url made of a one-line base and a tail that starts with the marker
      has that marker on its first line. */
  lemma MarkerAfterBase(base: string, tail: string)
    requires NoLineTerminator(base)
    requires |tail| >= |Marker| && tail[..|Marker|] == Marker
    ensures MarkerAt(base + tail, |base|)
    ensures FirstLineEnd(base + tail) >= |base| + |Marker|
  {
    var s := base + tail;
    assert s[|base|..] == tail;
    MarkerAtSuffix(s, |base|, 0);
    MarkerHasNoLineTerminator();
    forall i | 0 <= i < |base| + |Marker| ensures !IsLineTerminator(s[i]) {
      if i < |base| {
        assert s[i] == base[i];
      } else {
        assert s[i] == tail[i - |base|];
      }
    }
  }

  /** A tail with no marker past its start adds none after the base. */
  lemma NoMarkerPastBase(base: string, tail: string)
    requires forall j: nat | 0 < j :: !MarkerAt(tail, j)
    ensures forall k: nat | |base| < k :: !MarkerAt(base + tail, k)
  {
    var s := base + tail;
    assert s[|base|..] == tail;
    forall k: nat | |base| < k ensures !MarkerAt(s, k) {
      MarkerAtSuffix(s, |base|, k - |base|);
    }
  }

  /** Appending an issue path to a one-line base gives back that base. */
  lemma {:induction false} BaseOfIssuePath(base: string, key: string, suffix: string)
    requires NoLineTerminator(base)
    requires '/' !in key
    requires suffix == "" || suffix == "/watchers"
    ensures GetJiraBaseURL(base + "/rest/api/2/issue/" + key + suffix) == Success(base)
  {
    var tail := IssuePath + key + suffix;
    var s := base + tail;
    assert s == base + "/rest/api/2/issue/" + key + suffix;
    assert tail[..|Marker|] == Marker;
    MarkerAfterBase(base, tail);
    NoMarkerAfterIssuePath(key, suffix);
    NoMarkerPastBase(base, tail);
    var t := FirstLineEnd(s);
    MarkerAtPrefix(s, t, |base|);
    var k := LastMarker(s[..t]);
    MarkerAtPrefix(s, t, k.value);
    assert k.value == |base|;
    assert s[..|base|] == base;
  }

  /** The watchers and full-issue URLs lead back to the same base URL as the
      webhook's `self` url, whenever the key holds no `/`. */
  lemma IssueURLsRoundTrip(issue: PartialIssue)
    requires GetJiraBaseURL(issue.self).Success?
    requires '/' !in issue.key
    ensures var base := GetJiraBaseURL(issue.self).value;
      && GetJiraBaseURL(IssueURL(base, issue.key) + "/watchers") == Success(base)
      && GetJiraBaseURL(IssueURL(base, issue.key)) == Success(base)
  {
    var base := GetJiraBaseURL(issue.self).value;
    BaseOfIssuePath(base, issue.key, "/watchers");
    BaseOfIssuePath(base, issue.key, "");
    assert IssueURL(base, issue.key) == base + "/rest/api/2/issue/" + issue.key + "";
  }
}
