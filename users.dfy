/** Lists of GitHub users: lodash's `uniqBy(users, u => u.login)` and the
    `filter(u => u.login !== x)` the handlers apply before addressing. */
module Users {
  import opened Types

  function LoginsOf(us: seq<User>): set<string>
  {
    set u | u in us :: u.login
  }

  predicate DistinctLogins(us: seq<User>)
  {
    forall i, j | 0 <= i < j < |us| :: us[i].login != us[j].login
  }

  lemma LoginsOfAppend(a: seq<User>, b: seq<User>)
    ensures LoginsOf(a + b) == LoginsOf(a) + LoginsOf(b)
  {
    forall l | l in LoginsOf(a + b) ensures l in LoginsOf(a) + LoginsOf(b) {
      var u :| u in a + b && u.login == l;
      if u in a { assert l in LoginsOf(a); } else { assert l in LoginsOf(b); }
    }
    forall l | l in LoginsOf(a) + LoginsOf(b) ensures l in LoginsOf(a + b) {
      if l in LoginsOf(a) {
        var u :| u in a && u.login == l;
        assert u in a + b;
      } else {
        var u :| u in b && u.login == l;
        assert u in a + b;
      }
    }
  }

  /** Keeps the first user seen with each login, in the order seen. */
  function UniqByLogin(us: seq<User>): (r: seq<User>)
    ensures LoginsOf(r) == LoginsOf(us)
    ensures DistinctLogins(r)
    ensures forall u <- r :: u in us
    ensures |r| <= |us|
    decreases |us|
  {
    if us == [] then []
    else
      var prefix := us[..|us| - 1];
      var last := us[|us| - 1];
      var rest := UniqByLogin(prefix);
      assert us == prefix + [last];
      LoginsOfAppend(prefix, [last]);
      assert LoginsOf([last]) == {last.login};
      if last.login in LoginsOf(rest) then rest
      else
        LoginsOfAppend(rest, [last]);
        rest + [last]
  }

  /** The position where `login` first occurs in `us`; `|us|` when it
      does not occur. */
  function FirstIndex(us: seq<User>, login: string): (i: nat)
    ensures i <= |us|
    ensures i < |us| ==> us[i].login == login
    ensures forall j | 0 <= j < i :: us[j].login != login
  {
    if us == [] then 0
    else if us[0].login == login then 0
    else FirstIndex(us[1..], login) + 1
  }

  lemma FirstIndexIs(us: seq<User>, login: string, i: nat)
    requires i <= |us|
    requires i < |us| ==> us[i].login == login
    requires forall j | 0 <= j < i :: us[j].login != login
    ensures FirstIndex(us, login) == i
  {
  }

  lemma FirstIndexSnoc(us: seq<User>, x: User, login: string)
    requires FirstIndex(us, login) < |us|
    ensures FirstIndex(us + [x], login) == FirstIndex(us, login)
  {
    FirstIndexIs(us + [x], login, FirstIndex(us, login));
  }

  lemma FirstIndexOfMember(us: seq<User>, u: User)
    requires u in us
    ensures FirstIndex(us, u.login) < |us|
  {
    var i :| 0 <= i < |us| && us[i] == u;
    assert FirstIndex(us, u.login) <= i;
  }

  /** Each kept user sits at the first occurrence of its login. As a User
      carries only its login, this half holds of any user with that login;
      the content of the first-seen order is in OrderedByFirstSeen. */
  ghost predicate KeptAtFirstSeen(r: seq<User>, us: seq<User>)
  {
    forall k | 0 <= k < |r| ::
      FirstIndex(us, r[k].login) < |us| && us[FirstIndex(us, r[k].login)] == r[k]
  }

  /** Kept users are ordered by where their logins are first seen. */
  ghost predicate OrderedByFirstSeen(r: seq<User>, us: seq<User>)
  {
    forall j, k | 0 <= j < k < |r| :: FirstIndex(us, r[j].login) < FirstIndex(us, r[k].login)
  }

  lemma FirstSeenSnoc(rest: seq<User>, prefix: seq<User>, last: User)
    requires KeptAtFirstSeen(rest, prefix) && OrderedByFirstSeen(rest, prefix)
    ensures KeptAtFirstSeen(rest, prefix + [last]) && OrderedByFirstSeen(rest, prefix + [last])
  {
    forall k | 0 <= k < |rest|
      ensures FirstIndex(prefix + [last], rest[k].login) == FirstIndex(prefix, rest[k].login)
    {
      FirstIndexSnoc(prefix, last, rest[k].login);
    }
  }

  lemma FirstSeenAppendNew(rest: seq<User>, prefix: seq<User>, last: User)
    requires KeptAtFirstSeen(rest, prefix + [last]) && OrderedByFirstSeen(rest, prefix + [last])
    requires forall k | 0 <= k < |rest| :: FirstIndex(prefix + [last], rest[k].login) < |prefix|
    requires forall j | 0 <= j < |prefix| :: prefix[j].login != last.login
    ensures KeptAtFirstSeen(rest + [last], prefix + [last])
    ensures OrderedByFirstSeen(rest + [last], prefix + [last])
  {
    FirstIndexIs(prefix + [last], last.login, |prefix|);
    KeptAfterAppendNew(rest, prefix + [last], last);
    OrderedAfterAppendNew(rest, prefix + [last], last, |prefix|);
  }

  lemma KeptAfterAppendNew(rest: seq<User>, us: seq<User>, last: User)
    requires KeptAtFirstSeen(rest, us)
    requires FirstIndex(us, last.login) == |us| - 1 && us[|us| - 1] == last
    ensures KeptAtFirstSeen(rest + [last], us)
  {
    var r := rest + [last];
    forall k | 0 <= k < |r|
      ensures FirstIndex(us, r[k].login) < |us| && us[FirstIndex(us, r[k].login)] == r[k]
    {
      if k < |rest| {
        assert r[k] == rest[k];
      } else {
        assert r[k] == last;
      }
    }
  }

  lemma OrderedAfterAppendNew(rest: seq<User>, us: seq<User>, last: User, n: nat)
    requires OrderedByFirstSeen(rest, us)
    requires forall k | 0 <= k < |rest| :: FirstIndex(us, rest[k].login) < n
    requires FirstIndex(us, last.login) == n
    ensures OrderedByFirstSeen(rest + [last], us)
  {
    var r := rest + [last];
    forall j, k | 0 <= j < k < |r| ensures FirstIndex(us, r[j].login) < FirstIndex(us, r[k].login) {
      assert r[j] == rest[j];
      if k < |rest| {
        assert r[k] == rest[k];
      } else {
        assert r[k] == last;
        assert FirstIndex(us, rest[j].login) < n;
      }
    }
  }

  /** The deduplicated list is the first occurrences, ordered by where each
      login is first seen: with distinctness and the equal login sets of
      UniqByLogin's contract this pins the result down completely. */
  lemma {:induction false} UniqByLoginKeepsFirstSeen(us: seq<User>)
    ensures KeptAtFirstSeen(UniqByLogin(us), us)
    ensures OrderedByFirstSeen(UniqByLogin(us), us)
    decreases |us|
  {
    if us != [] {
      var prefix := us[..|us| - 1];
      var last := us[|us| - 1];
      assert us == prefix + [last];
      var rest := UniqByLogin(prefix);
      UniqByLoginKeepsFirstSeen(prefix);
      FirstSeenSnoc(rest, prefix, last);
      if last.login !in LoginsOf(rest) {
        forall j | 0 <= j < |prefix| ensures prefix[j].login != last.login {
          assert prefix[j].login in LoginsOf(prefix);
        }
        FirstSeenAppendNew(rest, prefix, last);
      }
    }
  }

  /** The first user is always kept, at the head. */
  lemma {:induction false} UniqByLoginHead(us: seq<User>)
    requires us != []
    ensures UniqByLogin(us) != [] && UniqByLogin(us)[0] == us[0]
    decreases |us|
  {
    if |us| > 1 {
      var prefix := us[..|us| - 1];
      UniqByLoginHead(prefix);
    }
  }

  /** A list without repeated logins is left as it is. */
  lemma {:induction false} UniqByLoginOfDistinct(us: seq<User>)
    requires DistinctLogins(us)
    ensures UniqByLogin(us) == us
    decreases |us|
  {
    if us != [] {
      var prefix := us[..|us| - 1];
      var last := us[|us| - 1];
      UniqByLoginOfDistinct(prefix);
      assert us == prefix + [last];
    }
  }

  /** The users whose login differs from `login`, in their original order. */
  function ExcludeLogin(us: seq<User>, login: string): (r: seq<User>)
    ensures forall u :: u in r <==> u in us && u.login != login
    ensures LoginsOf(r) == LoginsOf(us) - {login}
    ensures |r| <= |us|
  {
    if us == [] then []
    else
      var rest := ExcludeLogin(us[1..], login);
      assert us == [us[0]] + us[1..];
      LoginsOfAppend([us[0]], us[1..]);
      assert LoginsOf([us[0]]) == {us[0].login};
      if us[0].login == login then rest
      else
        LoginsOfAppend([us[0]], rest);
        [us[0]] + rest
  }

  /** Excluding a login works piecewise, so relative order is kept. */
  lemma {:induction false} ExcludeLoginAppend(a: seq<User>, b: seq<User>, login: string)
    ensures ExcludeLogin(a + b, login) == ExcludeLogin(a, login) + ExcludeLogin(b, login)
    decreases |a|
  {
    if a == [] {
      assert a + b == b;
    } else {
      assert (a + b)[0] == a[0];
      assert (a + b)[1..] == a[1..] + b;
      ExcludeLoginAppend(a[1..], b, login);
    }
  }

  /** Excluding a login keeps every other user as often as it occurs. */
  lemma {:induction false} ExcludeLoginCounts(us: seq<User>, login: string)
    ensures forall u: User | u.login != login :: multiset(ExcludeLogin(us, login))[u] == multiset(us)[u]
    decreases |us|
  {
    if us != [] {
      ExcludeLoginCounts(us[1..], login);
      assert us == [us[0]] + us[1..];
    }
  }

  /** Excluding a login never brings back a repeated login. */
  lemma {:induction false} ExcludeLoginKeepsDistinct(us: seq<User>, login: string)
    requires DistinctLogins(us)
    ensures DistinctLogins(ExcludeLogin(us, login))
    decreases |us|
  {
    if us != [] {
      ExcludeLoginKeepsDistinct(us[1..], login);
      var rest := ExcludeLogin(us[1..], login);
      if us[0].login != login {
        forall k | 0 <= k < |rest| ensures rest[k].login != us[0].login {
          assert rest[k] in us[1..];
          var i :| 0 <= i < |us[1..]| && us[1..][i] == rest[k];
          assert us[i + 1] == rest[k];
        }
      }
    }
  }

  /** `[owner, ...others]` without the commenter: the owner first unless
      they wrote the comment, then the others in order, repeats kept. */
  function CommentAudience(owner: User, others: seq<User>, commenter: string): (r: seq<User>)
    ensures r == (if owner.login == commenter then [] else [owner]) + ExcludeLogin(others, commenter)
    ensures forall u: User | u.login != commenter :: multiset(r)[u] == multiset([owner] + others)[u]
    ensures commenter !in LoginsOf(r)
  {
    ExcludeLoginAppend([owner], others, commenter);
    ExcludeLoginCounts([owner] + others, commenter);
    assert ExcludeLogin([owner], commenter) == if owner.login == commenter then [] else [owner];
    ExcludeLogin([owner] + others, commenter)
  }

  /** A user listed among the others who is also the owner is told
      twice: nothing removes repeats. */
  lemma CommentAudienceKeepsRepeats(owner: User, others: seq<User>, commenter: string)
    requires owner in others && owner.login != commenter
    ensures multiset(CommentAudience(owner, others, commenter))[owner] >= 2
  {
    assert multiset([owner] + others)[owner] == 1 + multiset(others)[owner];
  }

  /** Such an owner is heard first as the owner, then again as one of the
      others. */
  lemma CommentAudienceOwnerTwice(owner: User, others: seq<User>, commenter: string)
    requires owner in others && owner.login != commenter
    ensures var r := CommentAudience(owner, others, commenter);
      r[0] == owner && exists j | 0 < j < |r| :: r[j] == owner
  {
    var rest := ExcludeLogin(others, commenter);
    var r := CommentAudience(owner, others, commenter);
    assert r == [owner] + rest;
    assert owner in rest;
    var k :| 0 <= k < |rest| && rest[k] == owner;
    assert r[1 + k] == owner;
  }

  /** One message with the same body for each user, in order. */
  function Notify(users: seq<User>, body: string): (ms: seq<Message>)
    ensures |ms| == |users|
    ensures forall i | 0 <= i < |ms| :: ms[i] == ToLogin(users[i].login, body)
    ensures AddressedByLogin(ms)
  {
    seq(|users|, i requires 0 <= i < |users| => ToLogin(users[i].login, body))
  }
}
