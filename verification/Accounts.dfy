/** The account lock state machine: manager calls, the daemon's enforcement, and what every run of them keeps. */
module Accounts {

  /** Seconds since the zero time; the zero time itself means "never". */
  type Time = int
  const NEVER: Time := 0
  const DAY := 86400

  const MANUAL := "manual"
  const EXPIRED := "expired"
  const QUOTA := "quota"

  datatype User = User(maxConnections: int, expiresAt: Time, disabled: bool, lockReason: string, trafficLimit: int, trafficUsed: int)

  predicate IsExpired(u: User, now: Time) { u.expiresAt != NEVER && !(now < u.expiresAt) }

  predicate QuotaExceeded(u: User) { u.trafficLimit > 0 && u.trafficUsed >= u.trafficLimit }

  /** The manager calls that change a stored record. */
  datatype Call = Renew(days: int) | SetExpiry(t: Time) | SetMaxConnections(n: int) | SetTrafficLimit(bytes: int)
                | ResetTraffic | Lock(reason: string) | Unlock

  datatype Outcome = Saved(user: User) | Refused

  function Freed(u: User): User { u.(disabled := false, lockReason := "") }

  predicate LockedFor(u: User, reason: string) { u.disabled && u.lockReason == reason }

  /** What one call makes of a record. */
  function Do(u: User, call: Call, now: Time): Outcome
  {
    match call
    case Renew(days) =>
      if days <= 0 then Refused
      else
        var v := u.(expiresAt := (if u.expiresAt < now then now else u.expiresAt) + days * DAY);
        Saved(if LockedFor(u, EXPIRED) then Freed(v) else v)
    case SetExpiry(t) => Saved(if LockedFor(u, EXPIRED) && t > now then Freed(u.(expiresAt := t)) else u.(expiresAt := t))
    case SetMaxConnections(n) => if n < 1 then Refused else Saved(u.(maxConnections := n))
    case SetTrafficLimit(bytes) =>
      var v := u.(trafficLimit := if bytes < 0 then 0 else bytes);
      Saved(if LockedFor(u, QUOTA) && !QuotaExceeded(v) then Freed(v) else v)
    case ResetTraffic => Saved(if LockedFor(u, QUOTA) then Freed(u.(trafficUsed := 0)) else u.(trafficUsed := 0))
    case Lock(reason) => Saved(u.(disabled := true, lockReason := if reason == "" then MANUAL else reason))
    case Unlock => if IsExpired(u, now) || QuotaExceeded(u) then Refused else Saved(Freed(u))
  }

  /** The record a new account starts with. */
  function Created(maxConnections: int, days: nat, limit: nat, now: Time): User {
    User(maxConnections, now + days * DAY, false, "", limit, 0)
  }

  /** One daemon pass over an account: the traffic counted, then the decision on the pass's own copy.
      Either write can fail. */
  function Ticked(u: User, delta: nat, counted: bool, locked: bool, now: Time): User
  {
    var seen := u.(trafficUsed := u.trafficUsed + delta);
    var stored := if counted then seen else u;
    if !seen.disabled && IsExpired(seen, now) then
      if locked then stored.(disabled := true, lockReason := EXPIRED) else stored
    else if !seen.disabled && QuotaExceeded(seen) then
      if locked then stored.(disabled := true, lockReason := QUOTA) else stored
    else stored
  }

  /** The manager over its database: every call is one transaction on one record. */
  class Manager {
    var users: map<string, User>

    constructor ()
      ensures users == map[]
    {
      users := map[];
    }

    /** Whether the transaction went through, and the database it left. */
    ghost predicate Transacted(before: map<string, User>, name: string, call: Call, now: Time, ok: bool, fault: bool)
      reads this
    {
      && (ok <==> !fault && name in before && Do(before[name], call, now).Saved?)
      && users == if ok then before[name := Do(before[name], call, now).user] else before
    }

    method Renew(name: string, days: int, now: Time) returns (ok: bool, fault: bool)
      modifies this
      ensures Transacted(old(users), name, Call.Renew(days), now, ok, fault)
    {
      fault := *;
      if days <= 0 || name !in users || fault {
        return false, fault;
      }
      var u := users[name];
      var base := u.expiresAt;
      if base < now {
        base := now;
      }
      u := u.(expiresAt := base + days * DAY);
      if u.disabled && u.lockReason == EXPIRED {
        u := u.(disabled := false, lockReason := "");
      }
      users := users[name := u];
      ok := true;
    }

    method SetExpiry(name: string, t: Time, now: Time) returns (ok: bool, fault: bool)
      modifies this
      ensures Transacted(old(users), name, Call.SetExpiry(t), now, ok, fault)
    {
      fault := *;
      if name !in users || fault {
        return false, fault;
      }
      var u := users[name].(expiresAt := t);
      if u.disabled && u.lockReason == EXPIRED && t > now {
        u := u.(disabled := false, lockReason := "");
      }
      users := users[name := u];
      ok := true;
    }

    method SetMaxConnections(name: string, n: int, now: Time) returns (ok: bool, fault: bool)
      modifies this
      ensures Transacted(old(users), name, Call.SetMaxConnections(n), now, ok, fault)
    {
      fault := *;
      if n < 1 || name !in users || fault {
        return false, fault;
      }
      users := users[name := users[name].(maxConnections := n)];
      ok := true;
    }

    method SetTrafficLimit(name: string, bytes: int, now: Time) returns (ok: bool, fault: bool)
      modifies this
      ensures Transacted(old(users), name, Call.SetTrafficLimit(bytes), now, ok, fault)
    {
      fault := *;
      if name !in users || fault {
        return false, fault;
      }
      var limit := bytes;
      if limit < 0 {
        limit := 0;
      }
      var u := users[name].(trafficLimit := limit);
      if u.disabled && u.lockReason == QUOTA && !QuotaExceeded(u) {
        u := u.(disabled := false, lockReason := "");
      }
      users := users[name := u];
      ok := true;
    }

    method ResetTraffic(name: string, now: Time) returns (ok: bool, fault: bool)
      modifies this
      ensures Transacted(old(users), name, Call.ResetTraffic, now, ok, fault)
    {
      fault := *;
      if name !in users || fault {
        return false, fault;
      }
      var u := users[name].(trafficUsed := 0);
      if u.disabled && u.lockReason == QUOTA {
        u := u.(disabled := false, lockReason := "");
      }
      users := users[name := u];
      ok := true;
    }

    method Lock(name: string, reason: string, now: Time) returns (ok: bool, fault: bool)
      modifies this
      ensures Transacted(old(users), name, Call.Lock(reason), now, ok, fault)
    {
      fault := *;
      if name !in users || fault {
        return false, fault;
      }
      var why := reason;
      if why == "" {
        why := MANUAL;
      }
      users := users[name := users[name].(disabled := true, lockReason := why)];
      ok := true;
    }

    method Unlock(name: string, now: Time) returns (ok: bool, fault: bool)
      modifies this
      ensures Transacted(old(users), name, Call.Unlock, now, ok, fault)
    {
      fault := *;
      if name !in users || fault {
        return false, fault;
      }
      var u := users[name];
      if IsExpired(u, now) || QuotaExceeded(u) {
        return false, fault;
      }
      users := users[name := u.(disabled := false, lockReason := "")];
      ok := true;
    }

    /** Create, once the Linux account exists. */
    method Create(name: string, maxConnections: int, days: int, limit: nat, defaultMax: int, defaultDays: nat, now: Time)
      returns (ok: bool, fault: bool)
      modifies this
      ensures ok <==> !fault && name !in old(users)
      ensures users == if ok then old(users)[name := Created(if maxConnections <= 0 then defaultMax else maxConnections,
                                                              if days <= 0 then defaultDays else days, limit, now)]
                       else old(users)
      ensures ok ==> var u := users[name];
              && !u.disabled && u.lockReason == "" && u.trafficUsed == 0 && u.trafficLimit == limit
              && u.maxConnections == (if maxConnections >= 1 then maxConnections else defaultMax)
              && u.expiresAt - now == 86400 * if days >= 1 then days else defaultDays
    {
      fault := *;
      if name in users || fault {
        return false, fault;
      }
      var conns, span := maxConnections, days;
      if conns <= 0 {
        conns := defaultMax;
      }
      if span <= 0 {
        span := defaultDays;
      }
      users := users[name := User(conns, now + span * DAY, false, "", limit, 0)];
      ok := true;
    }

    method Delete(name: string) returns (ok: bool, fault: bool)
      modifies this
      ensures ok <==> !fault && name in old(users)
      ensures users == if ok then old(users) - {name} else old(users)
    {
      fault := *;
      if name !in users || fault {
        return false, fault;
      }
      users := users - {name};
      ok := true;
    }
  }

  // One call.

  /** A call that frees an account leaves it outside the condition it was locked for: an expiry lock
      goes only with the expiry, a quota lock only with the excess, and a manual lock only by Unlock. */
  lemma FreedOnlyWhenFit(u: User, call: Call, now: Time)
    requires u.disabled && Do(u, call, now).Saved? && !Do(u, call, now).user.disabled
    ensures var v := Do(u, call, now).user;
            && (u.lockReason == EXPIRED ==> !IsExpired(v, now))
            && (u.lockReason == QUOTA ==> !QuotaExceeded(v))
            && (u.lockReason != EXPIRED && u.lockReason != QUOTA ==> call == Unlock)
            && v.lockReason == ""
  {
  }

  /** Field by field, whatever the call: each is refused for one reason only, and each sets one field. Days are
      added to the expiry, or to now if the expiry is past, so renewing never shortens a valid account. */
  lemma OneFieldChanges(u: User, call: Call, now: Time)
    ensures Do(u, call, now).Refused? <==>
              || (call.Renew? && call.days <= 0)
              || (call.SetMaxConnections? && call.n < 1)
              || (call.Unlock? && u.expiresAt != 0 && u.expiresAt <= now)
              || (call.Unlock? && u.trafficLimit > 0 && u.trafficUsed >= u.trafficLimit)
    ensures Do(u, call, now).Saved? ==>
              var v := Do(u, call, now).user;
              && v.maxConnections == (if call.SetMaxConnections? then call.n else u.maxConnections)
              && v.trafficUsed == (if call.ResetTraffic? then 0 else u.trafficUsed)
              && v.trafficLimit == (if call.SetTrafficLimit? && call.bytes < 0 then 0 else if call.SetTrafficLimit? then call.bytes else u.trafficLimit)
              && (call.SetExpiry? ==> v.expiresAt == call.t)
              && (call.Renew? ==> v.expiresAt - call.days * 86400 == if u.expiresAt >= now then u.expiresAt else now)
              && (!call.SetExpiry? && !call.Renew? ==> v.expiresAt == u.expiresAt)
  {
  }

  /** Who is locked after a call: Lock locks, and a locked account comes free exactly by renewing or moving its
      expiry ahead when it was locked for that, by a reset or a limit with room when it was locked for
      its quota, and by Unlock. */
  lemma WhoIsLocked(u: User, call: Call, now: Time)
    requires Do(u, call, now).Saved?
    ensures var v := Do(u, call, now).user;
            var frees := || (u.lockReason == "expired" && (call.Renew? || (call.SetExpiry? && call.t > now)))
                         || (u.lockReason == "quota" && call.ResetTraffic?)
                         || (u.lockReason == "quota" && call.SetTrafficLimit? && (call.bytes <= 0 || u.trafficUsed < call.bytes))
                         || call.Unlock?;
            && (v.disabled <==> call.Lock? || (u.disabled && !frees))
            && (call.Lock? ==> v.lockReason == if call.reason == "" then "manual" else call.reason)
            && (u.disabled && frees ==> v.lockReason == "")
            && (!call.Lock? && !(u.disabled && frees) && !call.Unlock? ==> v.lockReason == u.lockReason)
  {
  }

  /** Whom a pass locks, and why: an enabled account whose time has come, and else one whose traffic, this
      pass's included, has reached its limit. A failed write locks nobody, and nothing unlocks. */
  lemma WhomAPassLocks(u: User, delta: nat, counted: bool, locked: bool, now: Time)
    ensures var v := Ticked(u, delta, counted, locked, now);
            var due := u.expiresAt != 0 && u.expiresAt <= now;
            var spent := u.trafficLimit > 0 && u.trafficUsed + delta >= u.trafficLimit;
            && (v.disabled <==> u.disabled || (locked && (due || spent)))
            && v.lockReason == (if u.disabled || !locked then u.lockReason
                                else if due then "expired" else if spent then "quota" else u.lockReason)
            && v.trafficUsed == (if counted then u.trafficUsed + delta else u.trafficUsed)
            && v.maxConnections == u.maxConnections && v.expiresAt == u.expiresAt && v.trafficLimit == u.trafficLimit
  {
  }

  /** After a pass whose lock writes succeed, an account that is still enabled is unexpired and under quota. */
  lemma TickEnforces(u: User, delta: nat, counted: bool, now: Time)
    ensures var v := Ticked(u, delta, counted, true, now); !v.disabled ==> !IsExpired(v, now) && !QuotaExceeded(v)
    ensures var v := Ticked(u, delta, counted, true, now); u.disabled ==> v.disabled && v.lockReason == u.lockReason
  {
  }

  // Whole runs of one account, from Create.

  /** What happens to an account: a manager call as the command line, the TUI and the daemon make them
      (locks by hand carry no reason or "manual"), or a daemon pass. */
  datatype Event = Manage(call: Call) | Tick(delta: nat, counted: bool, locked: bool)

  datatype Moment = Moment(event: Event, now: Time)

  predicate ByHand(call: Call) { call.Lock? ==> call.reason == "" || call.reason == MANUAL }

  function After(u: User, m: Moment): User
  {
    match m.event
    case Manage(call) => (var o := Do(u, call, m.now); if o.Saved? then o.user else u)
    case Tick(delta, counted, locked) => Ticked(u, delta, counted, locked, m.now)
  }

  function RunFrom(u: User, run: seq<Moment>): User
  {
    if run == [] then u else After(RunFrom(u, run[..|run| - 1]), run[|run| - 1])
  }

  /** Times do not go back, and locks are by hand. */
  predicate Ordered(start: Time, run: seq<Moment>)
  {
    && (forall i | 0 <= i < |run| :: start <= run[i].now && (run[i].event.Manage? ==> ByHand(run[i].event.call)))
    && (forall i, j | 0 <= i < j < |run| :: run[i].now <= run[j].now)
  }

  /** Disabled means that a reason is on record, and the reason is one of three. */
  predicate Consistent(u: User)
  {
    && (u.disabled <==> u.lockReason != "")
    && (u.disabled ==> u.lockReason in [MANUAL, EXPIRED, QUOTA])
  }

  /** The reason on record is true: a quota lock means the quota is used up; an expiry lock means the
      time is past, unless the expiry was since set to "never". */
  predicate Truthful(u: User, now: Time)
  {
    && (LockedFor(u, QUOTA) ==> QuotaExceeded(u))
    && (LockedFor(u, EXPIRED) ==> IsExpired(u, now) || u.expiresAt == NEVER)
  }

  predicate AllCounted(run: seq<Moment>) { forall i | 0 <= i < |run| && run[i].event.Tick? :: run[i].event.counted }

  predicate NeverUnlocked(run: seq<Moment>) { forall i | 0 <= i < |run| :: run[i].event != Manage(Unlock) }

  function LastTime(start: Time, run: seq<Moment>): Time { if run == [] then start else run[|run| - 1].now }

  lemma AfterKeeps(u: User, m: Moment)
    requires Consistent(u) && (m.event.Manage? ==> ByHand(m.event.call))
    ensures Consistent(After(u, m))
    ensures LockedFor(u, MANUAL) && m.event != Manage(Unlock) ==> LockedFor(After(u, m), MANUAL)
  {
  }

  lemma AfterTruthful(u: User, m: Moment, before: Time)
    requires Consistent(u) && Truthful(u, before) && before <= m.now && (m.event.Manage? ==> ByHand(m.event.call))
    requires m.event.Tick? ==> m.event.counted
    ensures Truthful(After(u, m), m.now)
  {
  }

  lemma OrderedFront(start: Time, run: seq<Moment>)
    requires Ordered(start, run) && run != []
    ensures Ordered(start, run[..|run| - 1]) && LastTime(start, run[..|run| - 1]) <= run[|run| - 1].now
  {
  }

  /** In every run the lock flag and its reason agree, and when traffic saves succeed the reason is true. */
  lemma {:induction false} RunsAreConsistent(u: User, start: Time, run: seq<Moment>)
    requires Consistent(u) && Truthful(u, start) && Ordered(start, run)
    ensures Consistent(RunFrom(u, run))
    ensures AllCounted(run) ==> Truthful(RunFrom(u, run), LastTime(start, run))
    decreases |run|
  {
    if run != [] {
      var front := run[..|run| - 1];
      OrderedFront(start, run);
      RunsAreConsistent(u, start, front);
      AfterKeeps(RunFrom(u, front), run[|run| - 1]);
      assert AllCounted(run) ==> AllCounted(front);
      if AllCounted(run) {
        AfterTruthful(RunFrom(u, front), run[|run| - 1], LastTime(start, front));
      }
    }
  }

  lemma CreatedIsFit(maxConnections: int, days: nat, limit: nat, now: Time)
    requires days > 0 && now > NEVER
    ensures var u := Created(maxConnections, days, limit, now);
            Consistent(u) && Truthful(u, now) && !IsExpired(u, now) && !QuotaExceeded(u)
  {
  }

  /** A lock made by hand outlasts everything but Unlock: renewals, resets, limits and any number of daemon passes. */
  lemma {:induction false} ManualLockStays(u: User, start: Time, run: seq<Moment>)
    requires Consistent(u) && Truthful(u, start) && Ordered(start, run) && LockedFor(u, MANUAL) && NeverUnlocked(run)
    ensures LockedFor(RunFrom(u, run), MANUAL)
    decreases |run|
  {
    if run != [] {
      var front := run[..|run| - 1];
      OrderedFront(start, run);
      RunsAreConsistent(u, start, front);
      ManualLockStays(u, start, front);
      AfterKeeps(RunFrom(u, front), run[|run| - 1]);
    }
  }

  lemma OrderedPrefix(start: Time, run: seq<Moment>, n: nat)
    requires Ordered(start, run) && n <= |run|
    ensures Ordered(start, run[..n]) && (AllCounted(run) ==> AllCounted(run[..n]))
  {
  }

  /** Every step of every run from Create: flag and reason agree; a lock that goes leaves its condition
      false, and goes by hand only by Unlock; a pass with a successful lock leaves an enabled account
      unexpired and under quota; and the reason on record is true as long as traffic saves succeed. */
  lemma EveryStepFromCreate(maxConnections: int, days: nat, limit: nat, start: Time, run: seq<Moment>, i: nat)
    requires days > 0 && start > NEVER && Ordered(start, run) && i < |run|
    ensures var u := Created(maxConnections, days, limit, start);
            var v, w, m := RunFrom(u, run[..i]), RunFrom(u, run[..i + 1]), run[i];
            && Consistent(w)
            && (v.disabled && !w.disabled ==>
                  && m.event.Manage?
                  && (v.lockReason == EXPIRED ==> !IsExpired(w, m.now))
                  && (v.lockReason == QUOTA ==> !QuotaExceeded(w))
                  && (v.lockReason == MANUAL ==> m.event == Manage(Unlock)))
            && (m.event.Tick? && m.event.locked && !w.disabled ==> !IsExpired(w, m.now) && !QuotaExceeded(w))
            && (AllCounted(run) ==> Truthful(w, m.now))
  {
    var u := Created(maxConnections, days, limit, start);
    CreatedIsFit(maxConnections, days, limit, start);
    OrderedPrefix(start, run, i);
    OrderedPrefix(start, run, i + 1);
    RunsAreConsistent(u, start, run[..i]);
    RunsAreConsistent(u, start, run[..i + 1]);
    assert run[..i + 1][..i] == run[..i];
    hide Consistent, Truthful, IsExpired, QuotaExceeded;
    StepLifts(RunFrom(u, run[..i]), run[i]);
  }

  lemma StepLifts(v: User, m: Moment)
    requires Consistent(v)
    ensures var w := After(v, m);
            && (v.disabled && !w.disabled ==>
                  && m.event.Manage?
                  && (v.lockReason == EXPIRED ==> !IsExpired(w, m.now))
                  && (v.lockReason == QUOTA ==> !QuotaExceeded(w))
                  && (v.lockReason == MANUAL ==> m.event == Manage(Unlock)))
            && (m.event.Tick? && m.event.locked && !w.disabled ==> !IsExpired(w, m.now) && !QuotaExceeded(w))
  {
    match m.event
    case Manage(call) =>
      if v.disabled && Do(v, call, m.now).Saved? && !Do(v, call, m.now).user.disabled {
        FreedOnlyWhenFit(v, call, m.now);
      }
    case Tick(delta, counted, locked) => TickEnforces(v, delta, counted, m.now);
  }

  /** The traffic of the passes in a run whose saves worked. */
  function Counted(run: seq<Moment>): nat
  {
    if run == [] then 0
    else
      var e := run[|run| - 1].event;
      Counted(run[..|run| - 1]) + if e.Tick? && e.counted then e.delta else 0
  }

  predicate NeverReset(run: seq<Moment>) { forall i | 0 <= i < |run| :: run[i].event != Manage(ResetTraffic) }

  lemma {:induction false} UsageGrows(u: User, run: seq<Moment>)
    requires NeverReset(run)
    ensures RunFrom(u, run).trafficUsed == u.trafficUsed + Counted(run)
    decreases |run|
  {
    if run != [] {
      UsageGrows(u, run[..|run| - 1]);
    }
  }

  lemma {:induction false} RunInTwo(u: User, a: seq<Moment>, b: seq<Moment>)
    ensures RunFrom(u, a + b) == RunFrom(RunFrom(u, a), b)
    decreases |b|
  {
    hide After;
    if b == [] {
      assert a + b == a;
    } else {
      RunInTwo(u, a, b[..|b| - 1]);
      assert (a + b)[..|a + b| - 1] == a + b[..|b| - 1];
    }
  }

  /** The usage on record is the traffic counted since the last reset, whatever else happened before and after. */
  lemma UsageSinceReset(u: User, before: seq<Moment>, now: Time, since: seq<Moment>)
    requires NeverReset(since)
    ensures RunFrom(u, before + [Moment(Manage(ResetTraffic), now)] + since).trafficUsed == Counted(since)
  {
    var reset := Moment(Manage(ResetTraffic), now);
    RunInTwo(u, before + [reset], since);
    RunInTwo(u, before, [reset]);
    var v := RunFrom(u, before);
    assert [reset][..0] == [];
    assert RunFrom(v, [reset]) == After(v, reset);
    UsageGrows(RunFrom(u, before + [reset]), since);
  }

  /** Which locks Unlock lifts, on accounts as runs leave them: one made by hand on an account that is
      fit, one for expiry after the expiry was set to "never", and a quota lock on an account that is not
      expired and whose usage on record is below its limit. */
  lemma UnlockLifts(u: User, now: Time)
    requires Consistent(u) && u.disabled && (LockedFor(u, EXPIRED) ==> IsExpired(u, now) || u.expiresAt == NEVER)
    ensures Do(u, Unlock, now).Saved? <==>
              && (u.trafficLimit <= 0 || u.trafficUsed < u.trafficLimit)
              && (u.expiresAt == NEVER || (u.lockReason != EXPIRED && now < u.expiresAt))
  {
  }

  /** A lock for expiry is always true or outlived by "never", also when traffic saves fail. */
  lemma {:induction false} ExpiryLockTrue(u: User, start: Time, run: seq<Moment>)
    requires Consistent(u) && Ordered(start, run) && (LockedFor(u, EXPIRED) ==> IsExpired(u, start) || u.expiresAt == NEVER)
    ensures var v := RunFrom(u, run);
            Consistent(v) && (LockedFor(v, EXPIRED) ==> IsExpired(v, LastTime(start, run)) || v.expiresAt == NEVER)
    decreases |run|
  {
    if run != [] {
      OrderedFront(start, run);
      ExpiryLockTrue(u, start, run[..|run| - 1]);
      AfterExpiry(RunFrom(u, run[..|run| - 1]), run[|run| - 1], LastTime(start, run[..|run| - 1]));
    }
  }

  lemma AfterExpiry(u: User, m: Moment, before: Time)
    requires Consistent(u) && before <= m.now && (m.event.Manage? ==> ByHand(m.event.call))
    requires LockedFor(u, EXPIRED) ==> IsExpired(u, before) || u.expiresAt == NEVER
    ensures var v := After(u, m); Consistent(v) && (LockedFor(v, EXPIRED) ==> IsExpired(v, m.now) || v.expiresAt == NEVER)
  {
  }

  /** A pass that set a quota lock which has held since, without saving the traffic that caused it. */
  predicate SetUnsaved(u: User, run: seq<Moment>, i: nat)
  {
    && i < |run| && run[i].event.Tick? && !run[i].event.counted && run[i].event.locked
    && !RunFrom(u, run[..i]).disabled
    && forall j | i < j <= |run| :: LockedFor(RunFrom(u, run[..j]), QUOTA)
  }

  lemma UntrueStep(u: User, m: Moment)
    requires Consistent(u) && (m.event.Manage? ==> ByHand(m.event.call))
    requires LockedFor(After(u, m), QUOTA) && !QuotaExceeded(After(u, m))
    ensures || (LockedFor(u, QUOTA) && !QuotaExceeded(u))
            || (!u.disabled && m.event.Tick? && !m.event.counted && m.event.locked)
  {
  }

  /** Over every run, a quota lock on an account whose usage on record is below its limit was set by a pass
      that could not save its traffic. */
  lemma {:induction false} UntrueLockWasUnsaved(u: User, start: Time, run: seq<Moment>) returns (i: nat)
    requires Consistent(u) && Truthful(u, start) && Ordered(start, run)
    requires LockedFor(RunFrom(u, run), QUOTA) && !QuotaExceeded(RunFrom(u, run))
    ensures SetUnsaved(u, run, i)
    decreases |run|
  {
    var n := |run| - 1;
    var front := run[..n];
    OrderedFront(start, run);
    RunsAreConsistent(u, start, front);
    UntrueStep(RunFrom(u, front), run[n]);
    hide After, Consistent, Truthful, QuotaExceeded, Ordered, SetUnsaved;
    if LockedFor(RunFrom(u, front), QUOTA) && !QuotaExceeded(RunFrom(u, front)) {
      i := UntrueLockWasUnsaved(u, start, front);
      SetLonger(u, run, i);
    } else {
      i := n;
      SetLast(u, run);
    }
  }

  lemma SetLonger(u: User, run: seq<Moment>, i: nat)
    requires run != [] && SetUnsaved(u, run[..|run| - 1], i) && LockedFor(RunFrom(u, run), QUOTA)
    ensures SetUnsaved(u, run, i)
  {
    hide RunFrom, LockedFor;
    var front := run[..|run| - 1];
    forall j | i < j <= |run| ensures LockedFor(RunFrom(u, run[..j]), QUOTA) {
      if j < |run| {
        assert front[..j] == run[..j];
      } else {
        assert run[..j] == run;
      }
    }
    assert front[..i] == run[..i];
  }

  lemma SetLast(u: User, run: seq<Moment>)
    requires run != [] && LockedFor(RunFrom(u, run), QUOTA)
    requires var e := run[|run| - 1].event; e.Tick? && !e.counted && e.locked && !RunFrom(u, run[..|run| - 1]).disabled
    ensures SetUnsaved(u, run, |run| - 1)
  {
    hide RunFrom, LockedFor;
    assert run[..|run|] == run;
  }

  /** A quota lock that is not true: the pass that set it could not save the traffic that caused it. */
  lemma UntrueQuotaLock(now: Time)
    requires now > NEVER
    ensures var u := RunFrom(Created(1, 1, 100, now), [Moment(Tick(100, false, true), now)]);
            LockedFor(u, QUOTA) && !Truthful(u, now) && Do(u, Unlock, now).Saved?
  {
    var u := Created(1, 1, 100, now);
    var run := [Moment(Tick(100, false, true), now)];
    assert run[..0] == [];
    assert RunFrom(u, run) == After(u, run[0]);
  }

  /** Renewing an account that is locked for expiry frees it, and passes leave it free until it expires again
      or its traffic runs out. */
  lemma RenewHolds(u: User, days: int, now: Time, m: Moment)
    requires LockedFor(u, EXPIRED) && days > 0 && now > NEVER && m.event.Tick?
    ensures var v := After(u, Moment(Manage(Renew(days)), now));
            && !v.disabled && v.expiresAt >= now + days * DAY
            && (m.now < now + days * DAY && !QuotaExceeded(v.(trafficUsed := v.trafficUsed + m.event.delta)) ==> !After(v, m).disabled)
  {
  }

  /** An account is shown active exactly if a pass at that moment would leave it enabled. */
  datatype Status = Active | Locked | Expired | OverQuota

  function StatusOf(u: User, now: Time): Status
  {
    if LockedFor(u, QUOTA) then OverQuota
    else if IsExpired(u, now) || LockedFor(u, EXPIRED) then Expired
    else if u.disabled then Locked
    else if QuotaExceeded(u) then OverQuota
    else Active
  }

  lemma ShownActive(u: User, now: Time)
    ensures StatusOf(u, now) == Active <==> !Ticked(u, 0, true, true, now).disabled
  {
  }
}
