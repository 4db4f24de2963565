/** One pass of the daemon: traffic counted from per-session counters, accounts locked, sessions disconnected. */
module DaemonTick {
  import opened Sessions
  import opened Accounts

  /** What is remembered of a session between passes. */
  datatype IOBase = IOBase(start: int, bytes: nat)

  /** The baselines, whether no pass was made since the start, and the time of the start. */
  datatype Meter = Meter(prev: map<int, IOBase>, first: bool, started: int)

  predicate Known(m: Meter, s: Session) { s.pid in m.prev && m.prev[s.pid].start == s.startedAt }

  /** A session that is not known is counted from zero unless it may be older than this daemon. */
  predicate CountedWhole(m: Meter, startedAt: int) { !m.first || startedAt > m.started }

  function Charge(m: Meter, s: Session): nat
  {
    if Known(m, s) then (if s.bytes >= m.prev[s.pid].bytes then s.bytes - m.prev[s.pid].bytes else 0)
    else if CountedWhole(m, s.startedAt) then s.bytes else 0
  }

  /** Where the charging of a session stands before a pass: at its saved baseline, at all it shows when it is
      new in the first pass since the start but not younger than the daemon, and else at zero. */
  function PaidUpTo(prev: map<int, IOBase>, first: bool, started: int, s: Session): nat
  {
    if s.pid in prev && prev[s.pid].start == s.startedAt then prev[s.pid].bytes
    else if first && s.startedAt <= started then s.bytes
    else 0
  }

  /** A pass charges what a counter shows beyond that. */
  lemma ChargeMeans(m: Meter, s: Session)
    ensures var paid := PaidUpTo(m.prev, m.first, m.started, s);
            Charge(m, s) == if s.bytes > paid then s.bytes - paid else 0
  {
  }

  /** What one pass adds to a user. */
  function UserDelta(m: Meter, scan: seq<Session>, user: string): nat
  {
    if scan == [] then 0
    else
      var last := scan[|scan| - 1];
      UserDelta(m, scan[..|scan| - 1], user) + if last.user == user then Charge(m, last) else 0
  }

  function Baselines(scan: seq<Session>): map<int, IOBase>
  {
    if scan == [] then map[]
    else Baselines(scan[..|scan| - 1])[scan[|scan| - 1].pid := IOBase(scan[|scan| - 1].startedAt, scan[|scan| - 1].bytes)]
  }

  /** What a user's sessions show beyond what is paid, from the first listed to the last. */
  function Rises(prev: map<int, IOBase>, first: bool, started: int, scan: seq<Session>, user: string): nat
  {
    if scan == [] then 0
    else
      var paid := PaidUpTo(prev, first, started, scan[0]);
      (if scan[0].user == user && scan[0].bytes > paid then scan[0].bytes - paid else 0) + Rises(prev, first, started, scan[1..], user)
  }

  lemma {:induction false} RisesInTwo(prev: map<int, IOBase>, first: bool, started: int, a: seq<Session>, b: seq<Session>, user: string)
    ensures Rises(prev, first, started, a + b, user) == Rises(prev, first, started, a, user) + Rises(prev, first, started, b, user)
  {
    if a == [] {
      assert a + b == b;
    } else {
      assert (a + b)[1..] == a[1..] + b;
      RisesInTwo(prev, first, started, a[1..], b, user);
    }
  }

  lemma {:induction false} DeltaIsRises(m: Meter, scan: seq<Session>, user: string)
    ensures UserDelta(m, scan, user) == Rises(m.prev, m.first, m.started, scan, user)
  {
    if scan != [] {
      hide PaidUpTo, Charge;
      var front, last := scan[..|scan| - 1], scan[|scan| - 1];
      DeltaIsRises(m, front, user);
      ChargeMeans(m, last);
      RisesInTwo(m.prev, m.first, m.started, front, [last], user);
      assert scan == front + [last];
    }
  }

  /** The bytes on all counters of a user. */
  function Shown(scan: seq<Session>, user: string): nat
  {
    if scan == [] then 0 else (if scan[0].user == user then scan[0].bytes else 0) + Shown(scan[1..], user)
  }

  /** The session has no saved baseline. */
  predicate Unsaved(prev: map<int, IOBase>, s: Session) { s.pid in prev ==> prev[s.pid].start != s.startedAt }

  /** In the first pass after a start, sessions without a baseline that started at or before the daemon add
      nothing; sessions without a baseline add all they show if they started after it, or in any later
      pass. */
  lemma {:induction false} NewSessionsPay(prev: map<int, IOBase>, first: bool, started: int, scan: seq<Session>, user: string)
    requires forall i | 0 <= i < |scan| && scan[i].user == user :: Unsaved(prev, scan[i])
    ensures first && (forall i | 0 <= i < |scan| && scan[i].user == user :: scan[i].startedAt <= started)
            ==> Rises(prev, first, started, scan, user) == 0
    ensures !first || (forall i | 0 <= i < |scan| && scan[i].user == user :: scan[i].startedAt > started)
            ==> Rises(prev, first, started, scan, user) == Shown(scan, user)
  {
    if scan != [] {
      var more := scan[1..];
      assert forall i | 0 <= i < |more| :: more[i] == scan[i + 1];
      NewSessionsPay(prev, first, started, more, user);
      assert scan[0].user == user ==> Unsaved(prev, scan[0]);
    }
  }

  lemma UserDeltaStep(m: Meter, scan: seq<Session>, i: nat, user: string)
    requires i < |scan|
    ensures UserDelta(m, scan[..i + 1], user) == UserDelta(m, scan[..i], user) + if scan[i].user == user then Charge(m, scan[i]) else 0
    ensures Baselines(scan[..i + 1]) == Baselines(scan[..i])[scan[i].pid := IOBase(scan[i].startedAt, scan[i].bytes)]
  {
    assert scan[..i + 1][..i] == scan[..i];
  }

  function Get(m: map<string, nat>, k: string): nat { if k in m then m[k] else 0 }

  /** The record as the pass sees it, with its traffic. */
  function Seen(u: User, delta: nat): User { u.(trafficUsed := u.trafficUsed + delta) }

  /** Whom a pass disconnects of one account's sessions. */
  function ToKill(u: User, ss: seq<Session>, now: int, limiter: bool, newest: bool): seq<Session>
  {
    if u.disabled then ss
    else if IsExpired(u, now) || QuotaExceeded(u) || !limiter then []
    else Victims(ss, u.maxConnections, newest)
  }

  /** One account after enforcement. */
  predicate Settled(stored: User, record: User, u: User, saved: bool, victims: seq<Session>, ss: seq<Session>,
                    now: int, limiter: bool, newest: bool)
  {
    record == Enforced(stored, u, saved, now) && victims == ToKill(u, ss, now, limiter, newest)
  }

  class Daemon {
    var prev: map<int, IOBase>
    var lastTick: int
    var started: int
    var users: map<string, User>

    /** Run, up to the first pass: the baselines are those the last daemon published, if any. */
    constructor (published: map<int, IOBase>, now: int, users: map<string, User>)
      ensures View() == Meter(published, true, now) && this.users == users
    {
      prev, lastTick, started, this.users := published, NEVER, now, users;
    }

    function View(): Meter
      reads this
    {
      Meter(prev, lastTick == NEVER, started)
    }

    /** The traffic part of tick. */
    method Count(sessions: seq<Session>, now: int) returns (deltas: map<string, nat>)
      requires now != NEVER
      modifies this`prev, this`lastTick
      ensures View() == Meter(Baselines(sessions), false, started)
      ensures forall u :: Get(deltas, u) == UserDelta(old(View()), sessions, u)
    {
      ghost var m := View();
      var firstTick := lastTick == NEVER;
      lastTick := now;
      deltas := map[];
      var next: map<int, IOBase> := map[];
      hide UserDelta, Baselines;
      assert Baselines(sessions[..0]) == map[] && forall u :: UserDelta(m, sessions[..0], u) == 0 by {
        NothingYet(m, sessions[..0]);
      }
      for i := 0 to |sessions|
        invariant prev == m.prev && started == m.started && lastTick == now
        invariant next == Baselines(sessions[..i])
        invariant forall u :: Get(deltas, u) == UserDelta(m, sessions[..i], u)
      {
        var s := sessions[i];
        forall u ensures UserDelta(m, sessions[..i + 1], u) == UserDelta(m, sessions[..i], u) + if s.user == u then Charge(m, s) else 0 {
          UserDeltaStep(m, sessions, i, u);
        }
        UserDeltaStep(m, sessions, i, "");
        ghost var before := deltas;
        if s.pid in prev && prev[s.pid].start == s.startedAt {
          if s.bytes >= prev[s.pid].bytes {
            deltas := deltas[s.user := Get(deltas, s.user) + (s.bytes - prev[s.pid].bytes)];
          }
        } else if !firstTick || s.startedAt > started {
          deltas := deltas[s.user := Get(deltas, s.user) + s.bytes];
        }
        forall u ensures Get(deltas, u) == Get(before, u) + if s.user == u then Charge(m, s) else 0 {
          assert Get(deltas, s.user) == Get(before, s.user) + Charge(m, s);
        }
        next := next[s.pid := IOBase(s.startedAt, s.bytes)];
      }
      assert sessions[..|sessions|] == sessions;
      prev := next;
    }

    /** AddTraffic: one transaction over all users on record; it works whole or not at all. */
    method AddTraffic(deltas: map<string, nat>) returns (ok: bool)
      modifies this`users
      ensures users == if ok then (map name | name in old(users) :: Seen(old(users)[name], Get(deltas, name))) else old(users)
    {
      ok := *;
      if !ok {
        return;
      }
      var todo, next := deltas.Keys, users;
      while todo != {}
        invariant todo <= deltas.Keys && next.Keys == users.Keys
        invariant forall name | name in users :: next[name] == if name in deltas && name !in todo then Seen(users[name], deltas[name]) else users[name]
        decreases |todo|
      {
        var name :| name in todo;
        todo := todo - {name};
        if name in next && deltas[name] > 0 {
          next := next[name := Seen(next[name], deltas[name])];
        }
      }
      assert next == map name | name in users :: Seen(users[name], Get(deltas, name));
      users := next;
    }

    /** The decision on one account, on its record as the pass saw it, and the record it
        leaves in the database. Locking can fail. */
    method EnforceOne(stored: User, u: User, ss: seq<Session>, now: int, limiter: bool, newest: bool)
      returns (record: User, saved: bool, victims: seq<Session>)
      ensures Settled(stored, record, u, saved, victims, ss, now, limiter, newest)
    {
      hide Victims, IsExpired, QuotaExceeded;
      var reason := "";
      record, saved, victims := stored, true, [];
      if !u.disabled && IsExpired(u, now) {
        reason := EXPIRED;
      } else if !u.disabled && QuotaExceeded(u) {
        reason := QUOTA;
      } else if u.disabled && |ss| > 0 {
        victims := ss;
      } else {
        VictimsAre(ss, u.maxConnections, newest);
        if limiter && u.maxConnections > 0 && |ss| > u.maxConnections {
          var excess := |ss| - u.maxConnections;
          victims := if newest then ss[|ss| - excess..] else ss[..excess];
        }
      }
      if reason != "" {
        saved := *;
        if saved {
          record := record.(disabled := true, lockReason := reason);
        }
      }
    }

    /** Goes through the accounts, in any order. */
    method EnforceAll(seen: map<string, User>, groups: map<string, seq<Session>>, now: int, limiter: bool, newest: bool)
      returns (locked: map<string, bool>, killed: map<string, seq<Session>>)
      requires seen.Keys == users.Keys == groups.Keys
      modifies this`users
      ensures users.Keys == old(users).Keys == killed.Keys == locked.Keys
      ensures forall name | name in users :: users[name] == Enforced(old(users)[name], seen[name], locked[name], now)
      ensures forall name | name in users :: killed[name] == ToKill(seen[name], groups[name], now, limiter, newest)
    {
      hide ToKill, Enforced, Settled;
      ghost var before := users;
      var todo := seen.Keys;
      locked, killed := map[], map[];
      while todo != {}
        invariant todo <= seen.Keys && users.Keys == seen.Keys
        invariant forall name | name in todo :: users[name] == before[name]
        invariant forall name | name in locked || name in killed :: name in seen
        invariant forall name | name in seen && name !in todo ::
                    && name in locked && name in killed
                    && Settled(before[name], users[name], seen[name], locked[name], killed[name], groups[name], now, limiter, newest)
        decreases |todo|
      {
        var name :| name in todo;
        var record, saved, victims := EnforceOne(users[name], seen[name], groups[name], now, limiter, newest);
        users := users[name := record];
        locked := locked[name := saved];
        killed := killed[name := victims];
        todo := todo - {name};
      }
      forall name | name in users
        ensures users[name] == Enforced(before[name], seen[name], locked[name], now)
        ensures killed[name] == ToKill(seen[name], groups[name], now, limiter, newest)
      {
        SettledMeans(before[name], users[name], seen[name], locked[name], killed[name], groups[name], now, limiter, newest);
      }
    }

    /** The enforcement part of tick. */
    method Enforce(seen: map<string, User>, sessions: seq<Session>, now: int, limiter: bool, newest: bool)
      returns (locked: map<string, bool>, killed: map<string, seq<Session>>)
      requires seen.Keys == users.Keys
      modifies this`users
      ensures users.Keys == old(users).Keys && killed.Keys == users.Keys == locked.Keys
      ensures forall name | name in users :: users[name] == Enforced(old(users)[name], seen[name], locked[name], now)
      ensures forall name | name in users :: killed[name] == ToKill(seen[name], Of(sessions, name), now, limiter, newest)
    {
      hide Of, ToKill, Enforced;
      var byUser := ByUser(sessions);
      var groups := map name | name in seen :: if name in byUser then byUser[name] else [];
      assert forall name | name in seen :: groups[name] == Of(sessions, name);
      locked, killed := EnforceAll(seen, groups, now, limiter, newest);
    }

    /** One account as the daemon and the database hold it. */
    function AccountOf(name: string): Account
      requires name in users
      reads this
    {
      Account(View(), users[name])
    }

    /** tick: for every account the deed of a pass. */
    method Tick(sessions: seq<Session>, now: int, limiter: bool, newest: bool)
      returns (counted: bool, locked: map<string, bool>, killed: map<string, seq<Session>>)
      requires now != NEVER
      modifies this
      ensures View() == Meter(Baselines(sessions), false, old(started))
      ensures users.Keys == old(users).Keys
      ensures forall name | name in users :: name in locked &&
                AccountOf(name) == DoDeed(old(AccountOf(name)), Pays(sessions, now, counted, locked[name]), name)
      ensures killed.Keys == users.Keys == locked.Keys
      ensures forall name | name in users ::
                users[name] == Ticked(old(users)[name], UserDelta(old(View()), sessions, name), counted, locked[name], now)
      ensures forall name | name in users ::
                killed[name] == ToKill(Seen(old(users)[name], UserDelta(old(View()), sessions, name)), Of(sessions, name), now, limiter, newest)
      ensures forall name | name in users ::
                users[name].trafficUsed == old(users)[name].trafficUsed
                                           + if counted then Rises(old(prev), old(lastTick) == NEVER, old(started), sessions, name) else 0
      ensures forall name | name in users && old(users)[name].disabled :: killed[name] == Of(sessions, name)
    {
      hide UserDelta, Baselines, Rises, Of, ToKill, Ticked, Enforced;
      ghost var m := View();
      var byName := users;
      var deltas := Count(sessions, now);
      var seen := map name | name in byName :: Seen(byName[name], Get(deltas, name));
      counted := AddTraffic(deltas);
      locked, killed := Enforce(seen, sessions, now, limiter, newest);
      forall name | name in users
        ensures users[name] == Ticked(byName[name], Get(deltas, name), counted, locked[name], now)
      {
        TickedIs(byName[name], Get(deltas, name), counted, locked[name], now);
      }
      forall name | name in users
        ensures users[name].trafficUsed == byName[name].trafficUsed + (if counted then Rises(m.prev, m.first, m.started, sessions, name) else 0)
        ensures byName[name].disabled ==> killed[name] == Of(sessions, name)
      {
        DeltaIsRises(m, sessions, name);
        WhomAPassLocks(byName[name], Get(deltas, name), counted, locked[name], now);
        WhomAPassDisconnects(seen[name], Of(sessions, name), now, limiter, newest);
      }
    }
  }

  /** Whom a pass disconnects: of a locked account every session, of an account that is due for locking nobody
      yet, and of any other, if the limiter is on and the account has a limit, as many as are too many,
      taken from the end or from the front of the listing. */
  lemma WhomAPassDisconnects(u: User, ss: seq<Session>, now: int, limiter: bool, newest: bool)
    ensures var k := ToKill(u, ss, now, limiter, newest);
            var due := u.expiresAt != 0 && u.expiresAt <= now;
            var spent := u.trafficLimit > 0 && u.trafficUsed >= u.trafficLimit;
            && |k| == (if u.disabled then |ss|
                       else if !due && !spent && limiter && 0 < u.maxConnections < |ss| then |ss| - u.maxConnections else 0)
            && k == if newest then ss[|ss| - |k|..] else ss[..|k|]
    ensures u.disabled ==> ToKill(u, ss, now, limiter, newest) == ss
  {
  }

  lemma SettledMeans(stored: User, record: User, u: User, saved: bool, victims: seq<Session>, ss: seq<Session>,
                     now: int, limiter: bool, newest: bool)
    requires Settled(stored, record, u, saved, victims, ss, now, limiter, newest)
    ensures record == Enforced(stored, u, saved, now) && victims == ToKill(u, ss, now, limiter, newest)
  {
  }

  lemma NothingYet(m: Meter, scan: seq<Session>)
    requires scan == []
    ensures Baselines(scan) == map[] && forall u :: UserDelta(m, scan, u) == 0
  {
  }

  lemma VictimsAre(ss: seq<Session>, max: int, newest: bool)
    ensures Victims(ss, max, newest)
         == if max > 0 && |ss| > max then (if newest then ss[|ss| - (|ss| - max)..] else ss[..|ss| - max]) else []
  {
  }

  /** What happens to an account and its meter: a pass, whose traffic save and lock may work or not, a
      restart of the daemon, or a manager call. */
  datatype Deed = Pays(scan: seq<Session>, now: int, counted: bool, locked: bool) | Reboots(at: int) | Manages(call: Call, now: int)

  datatype Account = Account(meter: Meter, user: User)

  function DoDeed(a: Account, d: Deed, name: string): Account
  {
    match d
    case Pays(scan, now, counted, locked) =>
      Account(Meter(Baselines(scan), false, a.meter.started), Ticked(a.user, UserDelta(a.meter, scan, name), counted, locked, now))
    case Reboots(at) => a.(meter := Meter(a.meter.prev, true, at))
    case Manages(call, now) => (var o := Do(a.user, call, now); if o.Saved? then a.(user := o.user) else a)
  }

  /** What enforcement makes of a stored record, deciding on the record as seen. */
  function Enforced(stored: User, seen: User, locked: bool, now: int): User
  {
    if !seen.disabled && IsExpired(seen, now) && locked then stored.(disabled := true, lockReason := EXPIRED)
    else if !seen.disabled && !IsExpired(seen, now) && QuotaExceeded(seen) && locked then stored.(disabled := true, lockReason := QUOTA)
    else stored
  }

  lemma TickedIs(u: User, delta: nat, counted: bool, locked: bool, now: int)
    ensures Ticked(u, delta, counted, locked, now) == Enforced(if counted then Seen(u, delta) else u, Seen(u, delta), locked, now)
  {
  }

  // Whole runs: passes and restarts.

  datatype Event = Pass(scan: seq<Session>) | Restart(at: int)

  /** A restart keeps the baselines, which every pass publishes. */
  function After(m: Meter, e: Event): Meter
  {
    match e
    case Pass(scan) => Meter(Baselines(scan), false, m.started)
    case Restart(at) => Meter(m.prev, true, at)
  }

  function Run(m: Meter, es: seq<Event>): Meter
  {
    if es == [] then m else After(Run(m, es[..|es| - 1]), es[|es| - 1])
  }

  datatype Id = Id(pid: int, startedAt: int)

  function IdOf(s: Session): Id { Id(s.pid, s.startedAt) }

  /** The charges one scan makes for one session. */
  function ChargedIn(m: Meter, scan: seq<Session>, id: Id): nat
  {
    if scan == [] then 0
    else
      var last := scan[|scan| - 1];
      ChargedIn(m, scan[..|scan| - 1], id) + if IdOf(last) == id then Charge(m, last) else 0
  }

  function ChargedBy(m: Meter, e: Event, id: Id): nat { if e.Pass? then ChargedIn(m, e.scan, id) else 0 }

  /** All that a run charges for one session. */
  function Charged(m: Meter, es: seq<Event>, id: Id): nat
  {
    if es == [] then 0
    else Charged(m, es[..|es| - 1], id) + ChargedBy(Run(m, es[..|es| - 1]), es[|es| - 1], id)
  }

  /** What is to be seen of a session: nothing so far, its last counter, or its last counter before it
      ended; base is the counter where its charging began. */
  datatype Sight = Unseen | Alive(base: nat, last: nat) | Gone(base: nat, last: nat)

  predicate InScan(scan: seq<Session>, id: Id, i: nat) { i < |scan| && IdOf(scan[i]) == id }

  function Find(scan: seq<Session>, id: Id): (r: int)
    ensures r < |scan| && (r >= 0 ==> InScan(scan, id, r)) && (r < 0 ==> r == -1 && forall i: nat :: !InScan(scan, id, i))
  {
    if scan == [] then -1
    else if IdOf(scan[|scan| - 1]) == id then |scan| - 1
    else
      var r := Find(scan[..|scan| - 1], id);
      assert forall i: nat :: InScan(scan, id, i) ==> InScan(scan[..|scan| - 1], id, i);
      r
  }

  /** The charging of a session begins at its saved baseline, or at zero when it is certain to be newer
      than the previous pass or the daemon, or else where it is first seen. */
  function Look(m: Meter, t: Sight, e: Event, id: Id): Sight
  {
    if e.Restart? then t
    else
      var i := Find(e.scan, id);
      if i < 0 then (if t.Alive? then Gone(t.base, t.last) else t)
      else if t.Unseen? then Alive(if CountedWhole(m, id.startedAt) then 0 else e.scan[i].bytes, e.scan[i].bytes)
      else Alive(t.base, e.scan[i].bytes)
  }

  function Start(m: Meter, id: Id): Sight
  {
    if id.pid in m.prev && m.prev[id.pid].start == id.startedAt then Alive(m.prev[id.pid].bytes, m.prev[id.pid].bytes) else Unseen
  }

  function Watch(m: Meter, es: seq<Event>, id: Id): Sight
  {
    if es == [] then Start(m, id)
    else Look(Run(m, es[..|es| - 1]), Watch(m, es[..|es| - 1], id), es[|es| - 1], id)
  }

  /** Scans list each process once. */
  predicate EachOnce(es: seq<Event>) { forall k | 0 <= k < |es| && es[k].Pass? :: DistinctPids(es[k].scan) }

  /** A scan shows a session again that an earlier scan had missed. */
  predicate Returns(m: Meter, front: seq<Event>, e: Event, id: Id)
  {
    e.Pass? && Watch(m, front, id).Gone? && Find(e.scan, id) >= 0
  }

  /** A scan shows a lower counter than the last: it could not be read, and stands at zero. */
  predicate Falls(m: Meter, front: seq<Event>, e: Event, id: Id)
  {
    e.Pass? && !Watch(m, front, id).Unseen? && Find(e.scan, id) >= 0 && e.scan[Find(e.scan, id)].bytes < Watch(m, front, id).last
  }

  /** What one event makes the session pay twice: all that came before a return counted from zero, and what
      a counter fell, as it is charged again when the counter rises. */
  function Extra(m: Meter, front: seq<Event>, e: Event, id: Id): nat
  {
    if Returns(m, front, e, id) && CountedWhole(Run(m, front), id.startedAt) then Watch(m, front, id).last
    else if Falls(m, front, e, id) then Watch(m, front, id).last - e.scan[Find(e.scan, id)].bytes
    else 0
  }

  /** What one event leaves unpaid: on a return that starts over, right after a restart, what the counter rose meanwhile. */
  function Lost(m: Meter, front: seq<Event>, e: Event, id: Id): nat
  {
    if Returns(m, front, e, id) && !CountedWhole(Run(m, front), id.startedAt) && !Falls(m, front, e, id)
    then e.scan[Find(e.scan, id)].bytes - Watch(m, front, id).last
    else 0
  }

  function Twice(m: Meter, es: seq<Event>, id: Id): nat
  {
    if es == [] then 0 else Twice(m, es[..|es| - 1], id) + Extra(m, es[..|es| - 1], es[|es| - 1], id)
  }

  function Never(m: Meter, es: seq<Event>, id: Id): nat
  {
    if es == [] then 0 else Never(m, es[..|es| - 1], id) + Lost(m, es[..|es| - 1], es[|es| - 1], id)
  }

  lemma {:induction false} ChargedOnce(m: Meter, scan: seq<Session>, id: Id)
    requires DistinctPids(scan)
    ensures ChargedIn(m, scan, id) == if Find(scan, id) < 0 then 0 else Charge(m, scan[Find(scan, id)])
  {
    hide Charge;
    if scan != [] {
      var k := |scan| - 1;
      var front := scan[..k];
      ChargedOnce(m, front, id);
      if IdOf(scan[k]) == id {
        forall i: nat | i < k ensures !InScan(front, id, i) {
          assert scan[i].pid != scan[k].pid;
        }
      }
    }
  }

  lemma {:induction false} BaselinesAre(scan: seq<Session>, pid: int)
    requires DistinctPids(scan)
    ensures pid in Baselines(scan) <==> exists i | 0 <= i < |scan| :: scan[i].pid == pid
    ensures forall i | 0 <= i < |scan| && scan[i].pid == pid :: Baselines(scan)[pid] == IOBase(scan[i].startedAt, scan[i].bytes)
  {
    if scan != [] {
      var k := |scan| - 1;
      var front := scan[..k];
      BaselinesAre(front, pid);
      forall i | 0 <= i < |scan| && scan[i].pid == pid ensures Baselines(scan)[pid] == IOBase(scan[i].startedAt, scan[i].bytes) {
        if i < k {
          assert front[i] == scan[i];
        }
      }
      if pid in Baselines(front) {
        var i :| 0 <= i < |front| && front[i].pid == pid;
        assert scan[i].pid == pid;
      }
      assert forall i | 0 <= i < k :: front[i] == scan[i];
    }
  }

  /** A session's baseline after a pass is its counter in that pass. */
  lemma {:induction false} StartAfterPass(scan: seq<Session>, id: Id, first: bool, started: int)
    requires DistinctPids(scan)
    ensures var i := Find(scan, id);
            Start(Meter(Baselines(scan), first, started), id) == if i < 0 then Unseen else Alive(scan[i].bytes, scan[i].bytes)
  {
    hide Baselines;
    BaselinesAre(scan, id.pid);
    var i := Find(scan, id);
    if i < 0 && id.pid in Baselines(scan) {
      var j :| 0 <= j < |scan| && scan[j].pid == id.pid;
      assert !InScan(scan, id, j);
    }
  }

  lemma {:induction false} ChargeIs(m: Meter, s: Session)
    ensures Charge(m, s) == match Start(m, IdOf(s))
                            case Alive(_, last) => if s.bytes >= last then s.bytes - last else 0
                            case _ => if CountedWhole(m, s.startedAt) then s.bytes else 0
  {
  }

  /** Over any run of passes and restarts, whatever the scans miss and however counters move: what a session
      was charged, and what was never charged, is its last counter less where its charging began, and
      what was charged twice. */
  lemma {:induction false} ChargedInGeneral(m: Meter, es: seq<Event>, id: Id)
    requires EachOnce(es)
    ensures var t := Watch(m, es, id);
            && (t.Unseen? ==> Charged(m, es, id) == 0 && Twice(m, es, id) == 0 && Never(m, es, id) == 0)
            && (!t.Unseen? ==> Charged(m, es, id) + Never(m, es, id) == t.last - t.base + Twice(m, es, id))
            && Start(Run(m, es), id) == (if t.Alive? then Alive(t.last, t.last) else Unseen)
    decreases |es|
  {
    hide Charge, Baselines, CountedWhole, Find, ChargedIn, DistinctPids, Start;
    if es == [] {
      NothingCharged(m, id);
    } else {
      var front, e := es[..|es| - 1], es[|es| - 1];
      ChargedInGeneral(m, front, id);
      var n := Run(m, front);
      if e.Pass? {
        ChargedOnce(n, e.scan, id);
        StartAfterPass(e.scan, id, false, n.started);
        var i := Find(e.scan, id);
        if i >= 0 {
          FoundIs(e.scan, id);
          ChargeIs(n, e.scan[i]);
        }
      } else {
        SameStart(n, e.at, id);
      }
    }
  }

  lemma NothingCharged(m: Meter, id: Id)
    ensures var t := Start(m, id); t == (if t.Alive? then Alive(t.last, t.last) else Unseen)
  {
  }

  lemma FoundIs(scan: seq<Session>, id: Id)
    ensures Find(scan, id) >= 0 ==> IdOf(scan[Find(scan, id)]) == id && scan[Find(scan, id)].startedAt == id.startedAt
  {
  }

  /** A scan missed the session after a sighting with something on its counter and a later one shows it
      again, or the counter falls. */
  predicate Slips(m: Meter, es: seq<Event>, id: Id, k: nat)
    requires k < |es|
  {
    (Returns(m, es[..k], es[k], id) && Watch(m, es[..k], id).last > 0) || Falls(m, es[..k], es[k], id)
  }

  predicate NoneSlipped(m: Meter, es: seq<Event>, id: Id) { forall k | 0 <= k < |es| :: !Slips(m, es, id, k) }

  /** No return starts over: none comes in the first pass after a restart. */
  predicate NoneForgotten(m: Meter, es: seq<Event>, id: Id)
  {
    forall k | 0 <= k < |es| && Returns(m, es[..k], es[k], id) :: CountedWhole(Run(m, es[..k]), id.startedAt)
  }

  lemma FrontOf(m: Meter, es: seq<Event>, id: Id)
    requires es != []
    ensures var front, n := es[..|es| - 1], |es| - 1;
            && (NoneSlipped(m, es, id) <==> NoneSlipped(m, front, id) && !Slips(m, es, id, n))
            && (NoneForgotten(m, es, id) ==> NoneForgotten(m, front, id))
            && (NoneForgotten(m, es, id) && Returns(m, front, es[n], id) ==> CountedWhole(Run(m, front), id.startedAt))
  {
    hide Returns, Falls, Watch, CountedWhole, Run;
    var front, n := es[..|es| - 1], |es| - 1;
    forall k | 0 <= k < n ensures front[..k] == es[..k] && front[k] == es[k] {
    }
    assert es[..n] == front;
    forall k | 0 <= k < n ensures Slips(m, front, id, k) == Slips(m, es, id, k) {
    }
    if NoneSlipped(m, front, id) && !Slips(m, es, id, n) {
      forall k | 0 <= k < |es| ensures !Slips(m, es, id, k) {
        if k < n {
          assert !Slips(m, front, id, k);
        }
      }
    }
    if NoneSlipped(m, es, id) {
      forall k | 0 <= k < n ensures !Slips(m, front, id, k) {
        assert !Slips(m, es, id, k);
      }
    }
  }

  lemma ExtraIffSlips(m: Meter, es: seq<Event>, id: Id)
    requires es != []
    requires var front, n := es[..|es| - 1], |es| - 1;
             Returns(m, front, es[n], id) ==> CountedWhole(Run(m, front), id.startedAt)
    ensures var front, n := es[..|es| - 1], |es| - 1;
            (Extra(m, front, es[n], id) == 0 <==> !Slips(m, es, id, n)) && Lost(m, front, es[n], id) == 0
  {
    hide Find, Watch, CountedWhole, Run;
    assert es[..|es| - 1] == es[..(|es| - 1) as nat];
  }

  lemma {:induction false} TwiceIffSlipped(m: Meter, es: seq<Event>, id: Id)
    requires NoneForgotten(m, es, id)
    ensures Twice(m, es, id) == 0 <==> NoneSlipped(m, es, id)
    ensures Never(m, es, id) == 0
    decreases |es|
  {
    hide Slips, Extra, Lost, Returns, Watch, CountedWhole, Run, NoneSlipped, NoneForgotten;
    if es == [] {
      NoEventSlips(m, es, id);
    } else {
      FrontOf(m, es, id);
      ExtraIffSlips(m, es, id);
      TwiceIffSlipped(m, es[..|es| - 1], id);
    }
  }

  lemma NoEventSlips(m: Meter, es: seq<Event>, id: Id)
    requires es == []
    ensures NoneSlipped(m, es, id)
  {
  }

  /** A session is charged exactly its last counter less where its charging began if and only if what it paid
      twice is what it never paid. As long as no return comes right after a restart it never pays too
      little, and pays exactly if and only if no scan missed it after a sighting with something on its
      counter and its counter never fell. */
  lemma ExactIffNoneSlipped(m: Meter, es: seq<Event>, id: Id)
    requires EachOnce(es) && !Watch(m, es, id).Unseen?
    ensures var t := Watch(m, es, id);
            && (Charged(m, es, id) == t.last - t.base <==> Twice(m, es, id) == Never(m, es, id))
            && (NoneForgotten(m, es, id) ==>
                  && Charged(m, es, id) >= t.last - t.base
                  && (Charged(m, es, id) == t.last - t.base <==> NoneSlipped(m, es, id)))
  {
    hide EachOnce, NoneForgotten, NoneSlipped, Charged, Watch, Twice, Never;
    ChargedInGeneral(m, es, id);
    if NoneForgotten(m, es, id) {
      TwiceIffSlipped(m, es, id);
    }
  }

  /** Such runs: a session with a saved baseline of 100 that one scan misses, or shows with an unreadable
      counter, pays 120 for the 20 it carried. */
  lemma SlipExample(missed: bool) returns (m: Meter, es: seq<Event>, id: Id)
    ensures m.prev == map[1 := IOBase(7, 100)] && id == Id(1, 7) && |es| == 3
    ensures es[1] == Pass(if missed then [] else [Session(1, "u", 7, 0)])
    ensures EachOnce(es) && Watch(m, es, id) == Alive(100, 120) && Charged(m, es, id) == 120
  {
    m, id := Meter(map[1 := IOBase(7, 100)], true, 9), Id(1, 7);
    var a, z, b := Session(1, "u", 7, 100), Session(1, "u", 7, 0), Session(1, "u", 7, 120);
    var mid: seq<Session> := if missed then [] else [z];
    var e0, e1, e2 := Pass([a]), Pass(mid), Pass([b]);
    assert [a][..0] == [] && [b][..0] == [] && [z][..0] == [];
    assert Find([a], id) == 0 && Find([b], id) == 0 && Find([z], id) == 0 && Find([], id) == -1;
    assert Baselines([a]) == map[1 := IOBase(7, 100)] && Baselines([]) == map[];
    assert Baselines([z]) == Baselines([])[1 := IOBase(7, 0)] == map[1 := IOBase(7, 0)];
    var x0: seq<Event>, x1, x2, x3 := [], [e0], [e0, e1], [e0, e1, e2];
    assert x1[..0] == x0 && x2[..1] == x1 && x3[..2] == x2;
    assert Run(m, x0) == m && Run(m, x1) == After(m, e0) && Run(m, x2) == After(Run(m, x1), e1);
    assert Watch(m, x0, id) == Alive(100, 100);
    assert Watch(m, x1, id) == Alive(100, 100);
    assert Watch(m, x2, id) == if missed then Gone(100, 100) else Alive(100, 0);
    assert Watch(m, x3, id) == Alive(100, 120);
    assert ChargedIn(m, [a], id) == 0;
    assert Charged(m, x0, id) == 0 && Charged(m, x1, id) == 0;
    assert ChargedIn(Run(m, x1), mid, id) == 0;
    assert Charged(m, x2, id) == 0;
    assert ChargedIn(Run(m, x2), [b], id) == 120;
    es := x3;
  }

  /** No scan misses a live session, and its counter does not fall. */
  predicate Fair(m: Meter, es: seq<Event>, id: Id)
  {
    EachOnce(es) && forall k | 0 <= k < |es| :: !Returns(m, es[..k], es[k], id) && !Falls(m, es[..k], es[k], id)
  }

  /** Then what a session was charged is exactly its last counter less where its charging began, over any run
      of passes and restarts: never more than it carried, nothing twice, nothing lost. */
  lemma ChargedExactly(m: Meter, es: seq<Event>, id: Id)
    requires Fair(m, es, id)
    ensures var t := Watch(m, es, id);
            && (t.Unseen? ==> Charged(m, es, id) == 0)
            && (!t.Unseen? ==> t.base <= t.last && Charged(m, es, id) == t.last - t.base)
  {
    hide EachOnce, Returns, Falls, Charged, Watch, Twice, Never;
    ChargedInGeneral(m, es, id);
    TwiceIffSlipped(m, es, id);
  }

  lemma SameStart(m: Meter, at: int, id: Id)
    ensures Start(Meter(m.prev, true, at), id) == Start(m, id)
  {
  }

  // The same in terms of what the passes show.

  predicate Saved(m: Meter, id: Id) { id.pid in m.prev && m.prev[id.pid].start == id.startedAt }

  ghost predicate Shows(e: Event, id: Id) { e.Pass? && exists i: nat :: InScan(e.scan, id, i) }

  lemma ShowsIffFound(e: Event, id: Id)
    ensures Shows(e, id) <==> e.Pass? && Find(e.scan, id) >= 0
  {
    if e.Pass? && Find(e.scan, id) >= 0 {
      assert InScan(e.scan, id, Find(e.scan, id));
    }
  }

  lemma FoundOnce(e: Event, id: Id, i: nat)
    requires e.Pass? && DistinctPids(e.scan) && InScan(e.scan, id, i)
    ensures Find(e.scan, id) == i
  {
    var r := Find(e.scan, id);
    if r >= 0 {
      assert e.scan[r].pid == e.scan[i].pid;
    }
  }

  /** The first event that shows a session, and the last. */
  ghost predicate FirstShown(es: seq<Event>, id: Id, k: nat)
  {
    k < |es| && Shows(es[k], id) && forall j | 0 <= j < k :: !Shows(es[j], id)
  }

  ghost predicate LastShown(es: seq<Event>, id: Id, k: nat)
  {
    k < |es| && Shows(es[k], id) && forall j | k < j < |es| :: !Shows(es[j], id)
  }

  /** A meter is in its first pass as long as no pass was made since its start or the last restart, and then
      counts from that. */
  lemma {:induction false} FirstPassMeans(m: Meter, es: seq<Event>, r: nat)
    requires r <= |es| && forall i | r <= i < |es| :: es[i].Pass?
    ensures Run(m, es).first == (r == |es| && Run(m, es[..r]).first) && Run(m, es).started == Run(m, es[..r]).started
    ensures r > 0 && es[r - 1].Restart? ==> Run(m, es[..r]).first && Run(m, es[..r]).started == es[r - 1].at
    decreases |es|
  {
    if r == |es| {
      assert es[..r] == es;
    } else {
      hide Baselines;
      var front := es[..|es| - 1];
      FirstPassMeans(m, front, r);
      assert front[..r] == es[..r];
    }
  }

  lemma {:induction false} NotSeenYet(m: Meter, es: seq<Event>, id: Id)
    requires !Saved(m, id) && forall j | 0 <= j < |es| :: !Shows(es[j], id)
    ensures Watch(m, es, id).Unseen?
    decreases |es|
  {
    if es != [] {
      hide Shows, Run;
      NotSeenYet(m, es[..|es| - 1], id);
      ShowsIffFound(es[|es| - 1], id);
    }
  }

  /** Where the charging of a session without a baseline begins: at what its first sighting shows, if that is
      the first pass since a start and the session is not younger than the daemon; else at zero. */
  lemma {:induction false} BaseMeans(m: Meter, es: seq<Event>, id: Id, k: nat, i: nat)
    requires EachOnce(es) && !Saved(m, id) && FirstShown(es, id, k) && InScan(es[k].scan, id, i)
    ensures var t, n := Watch(m, es, id), Run(m, es[..k]);
            !t.Unseen? && t.base == if n.first && id.startedAt <= n.started then es[k].scan[i].bytes else 0
    decreases |es|
  {
    hide Shows, Run, DistinctPids, Saved;
    var front, e := es[..|es| - 1], es[|es| - 1];
    if k == |es| - 1 {
      assert es[..k] == front;
      NotSeenYet(m, front, id);
      ShowsIffFound(e, id);
      FoundOnce(e, id, i);
    } else {
      assert front[..k] == es[..k];
      BaseMeans(m, front, id, k, i);
    }
  }

  /** A saved baseline is where charging begins. */
  lemma {:induction false} SavedBase(m: Meter, es: seq<Event>, id: Id)
    requires Saved(m, id)
    ensures var t := Watch(m, es, id); !t.Unseen? && t.base == m.prev[id.pid].bytes
    decreases |es|
  {
    if es != [] {
      hide Run;
      SavedBase(m, es[..|es| - 1], id);
    }
  }

  lemma {:induction false} LastMeans(m: Meter, es: seq<Event>, id: Id, k: nat, i: nat)
    requires EachOnce(es) && LastShown(es, id, k) && InScan(es[k].scan, id, i)
    ensures var t := Watch(m, es, id); !t.Unseen? && t.last == es[k].scan[i].bytes
    decreases |es|
  {
    hide Shows, Run, DistinctPids, CountedWhole;
    var front, e := es[..|es| - 1], es[|es| - 1];
    if k == |es| - 1 {
      ShowsIffFound(e, id);
      FoundOnce(e, id, i);
    } else {
      LastMeans(m, front, id, k, i);
      ShowsIffFound(e, id);
    }
  }

  /** Every pass between two that know of a session shows it, and what is shown never falls. */
  ghost predicate Steady(m: Meter, es: seq<Event>, id: Id)
  {
    && EachOnce(es)
    && (forall j, k | 0 <= j < k < |es| && es[j].Pass? && Shows(es[k], id) && KnownBy(m, es, id, j) :: Shows(es[j], id))
    && (forall k, b: nat | 0 <= k < |es| && es[k].Pass? && InScan(es[k].scan, id, b) && Saved(m, id) ::
          m.prev[id.pid].bytes <= es[k].scan[b].bytes)
    && (forall j, k, a: nat, b: nat | 0 <= j < k < |es| && es[j].Pass? && es[k].Pass? && InScan(es[j].scan, id, a) && InScan(es[k].scan, id, b) ::
          es[j].scan[a].bytes <= es[k].scan[b].bytes)
  }

  /** A session is known from a saved baseline or an earlier sighting. */
  ghost predicate KnownBy(m: Meter, es: seq<Event>, id: Id, j: nat)
    requires j <= |es|
  {
    Saved(m, id) || exists i | 0 <= i < j :: Shows(es[i], id)
  }

  lemma {:induction false} SeenMeans(m: Meter, es: seq<Event>, id: Id)
    requires !Watch(m, es, id).Unseen?
    ensures KnownBy(m, es, id, |es|)
    ensures || (Saved(m, id) && Watch(m, es, id).last == m.prev[id.pid].bytes)
            || exists i, a: nat :: 0 <= i < |es| && es[i].Pass? && InScan(es[i].scan, id, a) && Watch(m, es, id).last == es[i].scan[a].bytes
    decreases |es|
  {
    if es != [] {
      hide Run, InScan;
      var front, e := es[..|es| - 1], es[|es| - 1];
      ShowsIffFound(e, id);
      if e.Pass? && Find(e.scan, id) >= 0 {
        assert InScan(e.scan, id, Find(e.scan, id));
      } else {
        SeenMeans(m, front, id);
        if !(Saved(m, id) && Watch(m, front, id).last == m.prev[id.pid].bytes) {
          var i, a: nat :| 0 <= i < |front| && front[i].Pass? && InScan(front[i].scan, id, a) && Watch(m, front, id).last == front[i].scan[a].bytes;
          assert es[i] == front[i];
        }
        if !Saved(m, id) {
          var i :| 0 <= i < |front| && Shows(front[i], id);
          assert Shows(es[i], id);
        }
      }
    }
  }

  lemma {:induction false} GoneMeans(m: Meter, es: seq<Event>, id: Id) returns (j: nat)
    requires Watch(m, es, id).Gone?
    ensures j < |es| && es[j].Pass? && !Shows(es[j], id) && KnownBy(m, es, id, j)
    decreases |es|
  {
    hide Run, Shows;
    var front, e := es[..|es| - 1], es[|es| - 1];
    if Watch(m, front, id).Gone? {
      j := GoneMeans(m, front, id);
    } else {
      SeenMeans(m, front, id);
      ShowsIffFound(e, id);
      j := |front|;
    }
    if !Saved(m, id) {
      var i :| 0 <= i < j && Shows(front[i], id);
      assert Shows(es[i], id);
    }
  }

  lemma SteadyIsFair(m: Meter, es: seq<Event>, id: Id)
    requires Steady(m, es, id)
    ensures Fair(m, es, id)
  {
    hide Watch, EachOnce, Shows, InScan, Saved, KnownBy;
    forall k | 0 <= k < |es| ensures !Returns(m, es[..k], es[k], id) && !Falls(m, es[..k], es[k], id) {
      var front, e := es[..k], es[k];
      ShowsIffFound(e, id);
      if Returns(m, front, e, id) {
        var j := GoneMeans(m, front, id);
        KnownInLonger(m, es, k, id, j);
      }
      if Falls(m, front, e, id) {
        SeenMeans(m, front, id);
      }
    }
  }

  lemma KnownInLonger(m: Meter, es: seq<Event>, k: nat, id: Id, j: nat)
    requires j < k <= |es| && KnownBy(m, es[..k], id, j)
    ensures KnownBy(m, es, id, j)
  {
    if !Saved(m, id) {
      var i :| 0 <= i < j && Shows(es[..k][i], id);
      assert Shows(es[i], id);
    }
  }

  /** What a session pays over any run of passes and restarts that sees it steadily: all that its last sighting
      shows, less its saved baseline; or, without one, less what its first sighting shows if that was the
      first pass since a start and the session had started at or before that start; or less nothing,
      if it started after the daemon or was first seen in a later pass. */
  lemma ChargedFromSightings(m: Meter, es: seq<Event>, id: Id, k: nat, i: nat, n: nat, j: nat)
    requires Steady(m, es, id)
    requires FirstShown(es, id, k) && InScan(es[k].scan, id, i) && LastShown(es, id, n) && InScan(es[n].scan, id, j)
    ensures var at := Run(m, es[..k]);
            Charged(m, es, id) + (if Saved(m, id) then m.prev[id.pid].bytes
                                  else if at.first && id.startedAt <= at.started then es[k].scan[i].bytes
                                  else 0)
            == es[n].scan[j].bytes
  {
    SteadyIsFair(m, es, id);
    ChargedExactly(m, es, id);
    LastMeans(m, es, id, n, j);
    if Saved(m, id) {
      SavedBase(m, es, id);
    } else {
      BaseMeans(m, es, id, k, i);
    }
    hide Steady, Charged, Watch, Run, FirstShown, LastShown, Saved, InScan;
  }

  // Users.

  /** All that a run adds to a user. */
  function UserCharged(m: Meter, es: seq<Event>, user: string): nat
  {
    if es == [] then 0
    else
      var e := es[|es| - 1];
      UserCharged(m, es[..|es| - 1], user) + if e.Pass? then UserDelta(Run(m, es[..|es| - 1]), e.scan, user) else 0
  }

  /** The sum of what sessions carried beyond where their charging began. */
  function Carried(m: Meter, es: seq<Event>, ids: seq<Id>): nat
  {
    if ids == [] then 0
    else
      var t := Watch(m, es, ids[0]);
      (if t.Unseen? || t.last < t.base then 0 else t.last - t.base) + Carried(m, es, ids[1..])
  }

  function ChargedTogether(m: Meter, scan: seq<Session>, ids: seq<Id>): nat
  {
    if ids == [] then 0 else ChargedIn(m, scan, ids[0]) + ChargedTogether(m, scan, ids[1..])
  }

  predicate Distinct(ids: seq<Id>) { forall i, j | 0 <= i < j < |ids| :: ids[i] != ids[j] }

  /** ids are the sessions of a user, as far as a scan shows. */
  predicate SessionsOf(scan: seq<Session>, user: string, ids: seq<Id>)
  {
    forall i | 0 <= i < |scan| :: scan[i].user == user <==> IdOf(scan[i]) in ids
  }

  lemma {:induction false} OneMore(m: Meter, scan: seq<Session>, ids: seq<Id>)
    requires scan != [] && Distinct(ids)
    ensures ChargedTogether(m, scan, ids) == ChargedTogether(m, scan[..|scan| - 1], ids)
                                           + if IdOf(scan[|scan| - 1]) in ids then Charge(m, scan[|scan| - 1]) else 0
    decreases |ids|
  {
    hide Charge;
    if ids != [] {
      assert Distinct(ids[1..]);
      OneMore(m, scan, ids[1..]);
      assert ids[0] !in ids[1..];
    }
  }

  lemma {:induction false} UserDeltaIsTogether(m: Meter, scan: seq<Session>, user: string, ids: seq<Id>)
    requires Distinct(ids) && SessionsOf(scan, user, ids)
    ensures UserDelta(m, scan, user) == ChargedTogether(m, scan, ids)
    decreases |scan|
  {
    hide Charge;
    if scan == [] {
      NoneTogether(m, ids);
    } else {
      UserDeltaIsTogether(m, scan[..|scan| - 1], user, ids);
      OneMore(m, scan, ids);
    }
  }

  lemma {:induction false} NoneTogether(m: Meter, ids: seq<Id>)
    ensures ChargedTogether(m, [], ids) == 0
  {
    if ids != [] {
      NoneTogether(m, ids[1..]);
    }
  }

  function Sum(m: Meter, es: seq<Event>, ids: seq<Id>): nat
  {
    if ids == [] then 0 else Charged(m, es, ids[0]) + Sum(m, es, ids[1..])
  }

  lemma {:induction false} SumStep(m: Meter, es: seq<Event>, ids: seq<Id>)
    requires es != []
    ensures var front, e := es[..|es| - 1], es[|es| - 1];
            Sum(m, es, ids) == Sum(m, front, ids) + if e.Pass? then ChargedTogether(Run(m, front), e.scan, ids) else 0
    decreases |ids|
  {
    hide Run, ChargedIn;
    if ids != [] {
      SumStep(m, es, ids[1..]);
    }
  }

  lemma {:induction false} SumIsCarried(m: Meter, es: seq<Event>, ids: seq<Id>)
    requires forall id | id in ids :: Fair(m, es, id)
    ensures Sum(m, es, ids) == Carried(m, es, ids)
    decreases |ids|
  {
    hide Fair, Charged, Watch, Run, Start;
    if ids != [] {
      ChargedExactly(m, es, ids[0]);
      SumIsCarried(m, es, ids[1..]);
    }
  }

  lemma {:induction false} UserChargedIsSum(m: Meter, es: seq<Event>, user: string, ids: seq<Id>)
    requires Distinct(ids) && forall i | 0 <= i < |es| && es[i].Pass? :: SessionsOf(es[i].scan, user, ids)
    ensures UserCharged(m, es, user) == Sum(m, es, ids)
    decreases |es|
  {
    hide Run, UserDelta, ChargedTogether, SessionsOf, Distinct;
    if es == [] {
      NoEvents(m, es, ids);
    } else {
      var front, e := es[..|es| - 1], es[|es| - 1];
      UserChargedIsSum(m, front, user, ids);
      SumStep(m, es, ids);
      if e.Pass? {
        UserDeltaIsTogether(Run(m, front), e.scan, user, ids);
      }
    }
  }

  lemma {:induction false} NoEvents(m: Meter, es: seq<Event>, ids: seq<Id>)
    requires es == []
    ensures Sum(m, es, ids) == 0
    decreases |ids|
  {
    if ids != [] {
      NoEvents(m, es, ids[1..]);
    }
  }

  /** A user pays for exactly what his sessions carried beyond where their charging began. */
  lemma UserPaysForWhatWasCarried(m: Meter, es: seq<Event>, user: string, ids: seq<Id>)
    requires Distinct(ids) && (forall i | 0 <= i < |es| && es[i].Pass? :: SessionsOf(es[i].scan, user, ids))
    requires forall id | id in ids :: Fair(m, es, id)
    ensures UserCharged(m, es, user) == Carried(m, es, ids)
  {
    hide Fair, SessionsOf, Distinct;
    UserChargedIsSum(m, es, user, ids);
    SumIsCarried(m, es, ids);
  }

  // Whole lives of one account: passes, restarts and manager calls.

  function Lived(a: Account, ds: seq<Deed>, name: string): Account
  {
    if ds == [] then a else DoDeed(Lived(a, ds[..|ds| - 1], name), ds[|ds| - 1], name)
  }

  /** What the meter sees of it. */
  function Metered(ds: seq<Deed>): seq<Event>
  {
    if ds == [] then []
    else
      var d := ds[|ds| - 1];
      Metered(ds[..|ds| - 1]) + if d.Pays? then [Pass(d.scan)] else if d.Reboots? then [Restart(d.at)] else []
  }

  predicate EachSaved(ds: seq<Deed>) { forall i | 0 <= i < |ds| && ds[i].Pays? :: ds[i].counted }

  predicate NoReset(ds: seq<Deed>) { forall i | 0 <= i < |ds| :: !(ds[i].Manages? && ds[i].call == ResetTraffic) }

  lemma RunMore(m: Meter, es: seq<Event>, e: Event, user: string)
    ensures Run(m, es + [e]) == After(Run(m, es), e)
    ensures UserCharged(m, es + [e], user) == UserCharged(m, es, user) + if e.Pass? then UserDelta(Run(m, es), e.scan, user) else 0
  {
    assert (es + [e])[..|es|] == es;
  }

  lemma {:induction false} MeterLives(a: Account, ds: seq<Deed>, name: string)
    ensures Lived(a, ds, name).meter == Run(a.meter, Metered(ds))
    decreases |ds|
  {
    hide Baselines, UserDelta, Do, Ticked;
    if ds != [] {
      var front, d := ds[..|ds| - 1], ds[|ds| - 1];
      MeterLives(a, front, name);
      var es := Metered(front);
      if d.Pays? {
        RunMore(a.meter, es, Pass(d.scan), name);
      } else if d.Reboots? {
        RunMore(a.meter, es, Restart(d.at), name);
      } else {
        assert Metered(ds) == es + [] == es;
      }
    }
  }

  lemma OnlyResetsCount(u: User, d: Deed, delta: nat)
    ensures d.Manages? && Do(u, d.call, d.now).Saved? && d.call != ResetTraffic ==> Do(u, d.call, d.now).user.trafficUsed == u.trafficUsed
    ensures d.Pays? && d.counted ==> Ticked(u, delta, d.counted, d.locked, d.now).trafficUsed == u.trafficUsed + delta
  {
  }

  /** Between resets, with every save working, the usage on record grows by what the meter charges. */
  lemma {:induction false} UsageIsCharged(a: Account, ds: seq<Deed>, name: string)
    requires EachSaved(ds) && NoReset(ds)
    ensures Lived(a, ds, name).user.trafficUsed == a.user.trafficUsed + UserCharged(a.meter, Metered(ds), name)
    decreases |ds|
  {
    hide Baselines, UserDelta, Do, Ticked, Run;
    if ds != [] {
      var front, d := ds[..|ds| - 1], ds[|ds| - 1];
      UsageIsCharged(a, front, name);
      MeterLives(a, front, name);
      var es := Metered(front);
      var before := Lived(a, front, name);
      OnlyResetsCount(before.user, d, if d.Pays? then UserDelta(before.meter, d.scan, name) else 0);
      if d.Pays? {
        RunMore(a.meter, es, Pass(d.scan), name);
      } else if d.Reboots? {
        RunMore(a.meter, es, Restart(d.at), name);
      } else {
        assert Metered(ds) == es + [] == es;
      }
    }
  }

  lemma {:induction false} LivedInTwo(a: Account, before: seq<Deed>, since: seq<Deed>, name: string)
    ensures Lived(a, before + since, name) == Lived(Lived(a, before, name), since, name)
    decreases |since|
  {
    hide DoDeed;
    if since == [] {
      assert before + since == before;
    } else {
      LivedInTwo(a, before, since[..|since| - 1], name);
      assert (before + since)[..|before + since| - 1] == before + since[..|since| - 1];
    }
  }

  /** The usage on record is exactly what the user's sessions carried since the last reset, beyond the
      baselines saved then: over every life of passes, restarts and manager calls, when saves work, no scan
      misses a live session, counters do not go back and ids are the user's sessions. */
  lemma UsageIsCarriedSinceReset(a: Account, before: seq<Deed>, now: int, since: seq<Deed>, name: string, ids: seq<Id>)
    requires EachSaved(since) && NoReset(since)
    requires Distinct(ids)
    requires forall i | 0 <= i < |Metered(since)| && Metered(since)[i].Pass? :: SessionsOf(Metered(since)[i].scan, name, ids)
    requires forall id | id in ids :: Fair(Lived(a, before, name).meter, Metered(since), id)
    ensures Lived(a, before + [Manages(ResetTraffic, now)] + since, name).user.trafficUsed
         == Carried(Lived(a, before, name).meter, Metered(since), ids)
  {
    hide Fair, SessionsOf, Distinct, Carried, EachSaved, NoReset, UserCharged;
    var reset := Manages(ResetTraffic, now);
    var was := Lived(a, before, name);
    LivedInTwo(a, before + [reset], since, name);
    LivedInTwo(a, before, [reset], name);
    assert [reset][..0] == [];
    assert Lived(was, [reset], name) == DoDeed(was, reset, name);
    var start := DoDeed(was, reset, name);
    assert start.meter == was.meter && start.user.trafficUsed == 0;
    UsageIsCharged(start, since, name);
    UserPaysForWhatWasCarried(was.meter, Metered(since), name, ids);
  }
}
