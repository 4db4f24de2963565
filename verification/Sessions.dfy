/** The order sessions are listed in, their grouping by user, and whom the limiter disconnects. */
module Sessions {

  /** A live session; its process ID and start time identify it. */
  datatype Session = Session(pid: int, user: string, startedAt: int, bytes: nat)

  /** Oldest first, process IDs deciding between equal start times. */
  predicate Before(a: Session, b: Session) { a.startedAt < b.startedAt || (a.startedAt == b.startedAt && a.pid < b.pid) }

  ghost predicate Sorted(s: seq<Session>) { forall i, j | 0 <= i < j < |s| :: Before(s[i], s[j]) }

  predicate DistinctPids(s: seq<Session>) { forall i, j | 0 <= i < j < |s| :: s[i].pid != s[j].pid }

  // Sorting.

  function Insert(x: Session, s: seq<Session>): seq<Session>
  {
    if s == [] || Before(x, s[0]) then [x] + s else [s[0]] + Insert(x, s[1..])
  }

  function Sort(s: seq<Session>): seq<Session>
  {
    if s == [] then [] else Insert(s[0], Sort(s[1..]))
  }

  lemma {:induction false} InsertKeeps(x: Session, s: seq<Session>)
    ensures multiset(Insert(x, s)) == multiset{x} + multiset(s)
  {
    if s != [] {
      assert s == [s[0]] + s[1..];
      if !Before(x, s[0]) {
        InsertKeeps(x, s[1..]);
      }
    }
  }

  lemma {:induction false} InsertSorts(x: Session, s: seq<Session>)
    requires Sorted(s) && forall i | 0 <= i < |s| :: s[i].pid != x.pid
    ensures Sorted(Insert(x, s))
  {
    if s != [] {
      if Before(x, s[0]) {
        forall j | 0 <= j < |s| ensures Before(x, s[j]) {
          assert j > 0 ==> Before(s[0], s[j]);
        }
      } else {
        var t := Insert(x, s[1..]);
        InsertSorts(x, s[1..]);
        InsertKeeps(x, s[1..]);
        forall j | 0 <= j < |t| ensures Before(s[0], t[j]) {
          assert t[j] in multiset(t);
          if t[j] != x {
            assert t[j] in s[1..];
          }
        }
      }
    }
  }

  lemma {:induction false} SortSorts(s: seq<Session>)
    requires DistinctPids(s)
    ensures Sorted(Sort(s)) && multiset(Sort(s)) == multiset(s)
    ensures var t := Sort(s);
            forall i, j | 0 <= i < j < |t| :: t[i].startedAt < t[j].startedAt || (t[i].startedAt == t[j].startedAt && t[i].pid < t[j].pid)
  {
    if s != [] {
      var t := Sort(s[1..]);
      SortSorts(s[1..]);
      assert s == [s[0]] + s[1..];
      InsertKeeps(s[0], t);
      OtherPids(s, t);
      hide Sorted, DistinctPids;
      InsertSorts(s[0], t);
    }
    SortedMeans(Sort(s));
  }

  lemma SortedMeans(s: seq<Session>)
    requires Sorted(s)
    ensures forall i, j | 0 <= i < j < |s| :: s[i].startedAt < s[j].startedAt || (s[i].startedAt == s[j].startedAt && s[i].pid < s[j].pid)
  {
  }

  lemma OtherPids(s: seq<Session>, t: seq<Session>)
    requires DistinctPids(s) && s != [] && multiset(t) == multiset(s[1..])
    ensures forall i | 0 <= i < |t| :: t[i].pid != s[0].pid
  {
    forall i | 0 <= i < |t| ensures t[i].pid != s[0].pid {
      assert t[i] in multiset(t);
      assert t[i] in s[1..];
    }
  }

  lemma SameFirst(a: seq<Session>, b: seq<Session>)
    requires Sorted(a) && Sorted(b) && multiset(a) == multiset(b) && a != [] && b != []
    ensures a[0] == b[0]
  {
    hide Before;
    assert a[0] in multiset(b) && b[0] in multiset(a);
    var i :| 0 <= i < |b| && b[i] == a[0];
    var j :| 0 <= j < |a| && a[j] == b[0];
    if i > 0 && j > 0 {
      Asymmetric(a[0], b[0]);
    }
  }

  lemma RestSame(a: seq<Session>, b: seq<Session>)
    requires multiset(a) == multiset(b) && a != [] && b != [] && a[0] == b[0]
    ensures multiset(a[1..]) == multiset(b[1..])
  {
    assert a == [a[0]] + a[1..] && b == [b[0]] + b[1..];
    assert multiset(a[1..]) == multiset(a) - multiset{a[0]};
    assert multiset(b[1..]) == multiset(b) - multiset{b[0]};
  }

  /** Whatever algorithm sorts, the listing is the same: the order leaves no choice. */
  lemma {:induction false} SortedOnce(a: seq<Session>, b: seq<Session>)
    requires Sorted(a) && Sorted(b) && multiset(a) == multiset(b)
    ensures a == b
  {
    hide Before;
    assert |multiset(a)| == |a| && |multiset(b)| == |b|;
    if a != [] {
      SameFirst(a, b);
      RestSame(a, b);
      SortedOnce(a[1..], b[1..]);
      assert a == [a[0]] + a[1..] && b == [b[0]] + b[1..];
    }
  }

  lemma Asymmetric(a: Session, b: Session)
    ensures !(Before(a, b) && Before(b, a))
  {
  }

  // Grouping.

  /** The sessions of one user, in the order listed. */
  function Of(s: seq<Session>, user: string): seq<Session>
  {
    if s == [] then []
    else
      var r := Of(s[..|s| - 1], user);
      if s[|s| - 1].user == user then r + [s[|s| - 1]] else r
  }

  lemma {:induction false} OfMembers(s: seq<Session>, user: string)
    ensures forall x :: x in Of(s, user) <==> x in s && x.user == user
  {
    if s != [] {
      OfMembers(s[..|s| - 1], user);
      assert s == s[..|s| - 1] + [s[|s| - 1]];
    }
  }

  lemma OfStep(s: seq<Session>, i: nat, user: string)
    requires i < |s|
    ensures Of(s[..i + 1], user) == if s[i].user == user then Of(s[..i], user) + [s[i]] else Of(s[..i], user)
  {
    assert s[..i + 1][..i] == s[..i];
  }

  /** ByUser: a user is in the result exactly if he has a session. */
  method ByUser(sessions: seq<Session>) returns (m: map<string, seq<Session>>)
    ensures forall u :: u in m <==> Of(sessions, u) != []
    ensures forall u | u in m :: m[u] == Of(sessions, u)
  {
    hide Of;
    m := map[];
    assert forall u :: Of(sessions[..0], u) == [] by { OfNone(sessions[..0]); }
    for i := 0 to |sessions|
      invariant forall u :: u in m <==> Of(sessions[..i], u) != []
      invariant forall u | u in m :: m[u] == Of(sessions[..i], u)
    {
      var s := sessions[i];
      forall u ensures Of(sessions[..i + 1], u) == if s.user == u then Of(sessions[..i], u) + [s] else Of(sessions[..i], u) {
        OfStep(sessions, i, u);
      }
      m := m[s.user := (if s.user in m then m[s.user] else []) + [s]];
    }
    assert sessions[..|sessions|] == sessions;
  }

  lemma OfNone(s: seq<Session>)
    requires s == []
    ensures forall u :: Of(s, u) == []
  {
  }

  /** Grouping keeps the order. */
  lemma {:induction false} GroupsStaySorted(s: seq<Session>, user: string)
    requires Sorted(s)
    ensures Sorted(Of(s, user))
  {
    if s != [] {
      var front, last := s[..|s| - 1], s[|s| - 1];
      GroupsStaySorted(front, user);
      OfMembers(front, user);
      var r := Of(front, user);
      forall i | 0 <= i < |r| ensures Before(r[i], last) {
        assert r[i] in front;
      }
    }
  }

  // The limiter.

  /** Whom to disconnect of one account's sessions, and who stays. */
  function Victims(ss: seq<Session>, max: int, newest: bool): seq<Session>
  {
    if max <= 0 || |ss| <= max then []
    else if newest then ss[max..] else ss[..|ss| - max]
  }

  function Survivors(ss: seq<Session>, max: int, newest: bool): seq<Session>
  {
    if max <= 0 || |ss| <= max then ss
    else if newest then ss[..max] else ss[|ss| - max..]
  }

  /** No victim started on the wrong side of a survivor. */
  ghost predicate FairlyChosen(v: seq<Session>, r: seq<Session>, newest: bool)
  {
    forall x, y | x in v && y in r :: x != y && if newest then y.startedAt <= x.startedAt else x.startedAt <= y.startedAt
  }

  /** The limiter leaves exactly the allowed number, everybody is a victim or a survivor and not both,
      and the choice is by start time. */
  lemma LimiterIsFair(sessions: seq<Session>, user: string, max: int, newest: bool)
    requires Sorted(sessions) && max > 0
    ensures var ss := Of(sessions, user);
            var v, r := Victims(ss, max, newest), Survivors(ss, max, newest);
            && (|ss| > max ==> |r| == max) && (|ss| <= max ==> v == [] && r == ss)
            && multiset(v) + multiset(r) == multiset(ss) && FairlyChosen(v, r, newest)
  {
    GroupsStaySorted(sessions, user);
    hide Of, Sorted, Before, FairlyChosen;
    Fair(Of(sessions, user), max, newest);
  }

  lemma Fair(ss: seq<Session>, max: int, newest: bool)
    requires Sorted(ss) && max > 0
    ensures var v, r := Victims(ss, max, newest), Survivors(ss, max, newest);
            && (|ss| > max ==> |r| == max) && (|ss| <= max ==> v == [] && r == ss)
            && multiset(v) + multiset(r) == multiset(ss) && FairlyChosen(v, r, newest)
  {
    hide Sorted, Before, FairlyChosen;
    if |ss| <= max {
      NobodyChosen(ss, newest);
    } else {
      Cut(ss, if newest then max else |ss| - max);
    }
  }

  lemma NobodyChosen(r: seq<Session>, newest: bool)
    ensures FairlyChosen([], r, newest)
  {
  }

  lemma Cut(ss: seq<Session>, cut: nat)
    requires Sorted(ss) && cut <= |ss|
    ensures multiset(ss[..cut]) + multiset(ss[cut..]) == multiset(ss)
    ensures FairlyChosen(ss[..cut], ss[cut..], false) && FairlyChosen(ss[cut..], ss[..cut], true)
  {
    assert ss == ss[..cut] + ss[cut..];
    forall x, y | x in ss[..cut] && y in ss[cut..] ensures x.startedAt <= y.startedAt && x != y {
      var i :| 0 <= i < cut && ss[i] == x;
      var j :| cut <= j < |ss| && ss[j] == y;
      assert Before(ss[i], ss[j]);
    }
  }

  /** Once the victims are gone and nobody logs in, the next passes disconnect nobody, however many
      sessions end by themselves. */
  lemma NobodyAfterwards(ss: seq<Session>, later: seq<Session>, max: int, newest: bool)
    requires DistinctPids(later) && Subset(later, Survivors(ss, max, newest))
    ensures Victims(later, max, newest) == []
  {
    var r := Survivors(ss, max, newest);
    if max > 0 && |ss| > max {
      SubsetShorter(later, r);
    } else if max > 0 {
      SubsetShorter(later, ss);
    }
  }

  ghost predicate Subset(a: seq<Session>, b: seq<Session>) { forall i | 0 <= i < |a| :: a[i] in b }

  lemma {:induction false} SubsetShorter(a: seq<Session>, b: seq<Session>)
    requires DistinctPids(a) && Subset(a, b)
    ensures |a| <= |b|
  {
    if a != [] {
      var last := a[|a| - 1];
      var k :| 0 <= k < |b| && b[k] == last;
      var rest := b[..k] + b[k + 1..];
      var front := a[..|a| - 1];
      forall i | 0 <= i < |front| ensures front[i] in rest {
        assert a[i] in b && a[i].pid != last.pid;
        var m :| 0 <= m < |b| && b[m] == a[i];
        assert m < k ==> rest[m] == a[i];
        assert m > k ==> rest[m - 1] == a[i];
      }
      SubsetShorter(front, rest);
    }
  }
}
