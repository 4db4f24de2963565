/** The flow lifecycle of the UDP gateway as a state machine.

    Every goroutine of the server is cut into its atomic steps: a locked section is one
    step, the compare-and-swap of closeFlow is another, and its socket close with the
    counter decrement a third. Runs are arbitrary interleavings of these steps. */
module UdpgwFlows {
  import opened Bytes
  import opened UdpgwProto
  import opened Wrappers

  type ClientId = nat
  type FlowId = nat
  type LoopId = nat
  type Time = int

  datatype Config = Config(maxClients: nat, maxFlows: nat) {
    predicate Valid() { maxClients > 0 && maxFlows > 0 }
  }

  /** Open until the compare-and-swap in closeFlow, Claimed until its winner has closed the
      socket and decremented the counter. */
  datatype Life = Open | Claimed | Closed

  datatype Flow = Flow(client: ClientId, conid: nat, orig: AddrPort, target: AddrPort, lastUse: Time, life: Life)

  /** done: close() has begun. closed: its locked section has run. */
  datatype Client = Client(since: Time, table: map<nat, FlowId>, done: bool, closed: bool)

  datatype Server = Server(
    clients: map<ClientId, Client>,       // every client ever started
    registry: set<ClientId>,              // those the server still lists
    flows: map<FlowId, Flow>,             // every flow ever opened
    counter: int,                         // the server's count of flows
    closing: multiset<FlowId>,            // closeFlow calls that have not run yet
    readers: set<FlowId>,                 // flows whose reader goroutine still runs
    doomed: set<ClientId>,                // clients Server.Close still has to close
    closed: bool,
    loops: map<LoopId, Option<ClientId>>, // accept loops, and the client whose close() they wait for
    released: multiset<FlowId>            // history: one entry per counter decrement
  )

  function Init(loops: set<LoopId>): Server {
    Server(map[], {}, map[], 0, multiset{}, {}, {}, false, map l | l in loops :: None, multiset{})
  }

  datatype Action =
    | Accept(loop: LoopId, c: ClientId, now: Time, evict: ClientId)
    | AcceptDone(loop: LoopId)
    | CloseBegin(c: ClientId)
    | CloseTable(c: ClientId)
    | Unregister(c: ClientId)
    | Handle(c: ClientId, p: Packet, newId: FlowId, lru: FlowId, target: AddrPort, opens: bool, now: Time)
    | Touch(f: FlowId, now: Time)
    | Reap(c: ClientId, cutoff: Time)
    | ReaderFails(f: FlowId)
    | ReaderQuits(f: FlowId)
    | CloseClaim(f: FlowId)
    | CloseFinish(f: FlowId)
    | CloseServer

  // Accepting clients.

  predicate Oldest(s: Server, c: ClientId)
    requires s.registry <= s.clients.Keys
  {
    c in s.registry && forall o | o in s.registry :: s.clients[c].since <= s.clients[o].since
  }

  predicate CanAccept(cfg: Config, s: Server, loop: LoopId, c: ClientId, evict: ClientId)
    requires s.registry <= s.clients.Keys
  {
    && loop in s.loops && s.loops[loop].None? && c !in s.clients
    && (!s.closed && |s.registry| >= cfg.maxClients ==> Oldest(s, evict))
  }

  function AfterAccept(cfg: Config, s: Server, loop: LoopId, c: ClientId, now: Time, evict: ClientId): Server
  {
    if s.closed then s
    else
      var waits := if |s.registry| >= cfg.maxClients then Some(evict) else None;
      s.(clients := s.clients[c := Client(now, map[], false, false)],
         registry := s.registry + {c},
         loops := s.loops[loop := waits])
  }

  // Packets.

  /** The client already has a flow for this packet and keeps it. */
  predicate Keeps(s: Server, table: map<nat, FlowId>, p: Packet)
    requires p.Datagram?
  {
    && p.conid in table && table[p.conid] in s.flows
    && !IsRebind(p.flags) && s.flows[table[p.conid]].orig == p.addr
  }

  predicate LeastRecent(s: Server, table: map<nat, FlowId>, f: FlowId)
  {
    && f in s.flows && s.flows[f].conid in table && table[s.flows[f].conid] == f
    && forall k | k in table && table[k] in s.flows :: s.flows[f].lastUse <= s.flows[table[k]].lastUse
  }

  function Others(table: map<nat, FlowId>, conid: nat): map<nat, FlowId> { table - {conid} }

  /** When the table stays full without the packet's own entry, the flow to evict is a least recently used one. */
  predicate CanEvict(cfg: Config, s: Server, table: map<nat, FlowId>, conid: nat, lru: FlowId)
  {
    |Others(table, conid)| >= cfg.maxFlows ==> LeastRecent(s, Others(table, conid), lru)
  }

  predicate CanHandle(cfg: Config, s: Server, c: ClientId, p: Packet, newId: FlowId, lru: FlowId)
  {
    && c in s.clients && p.Datagram?
    && (!s.clients[c].closed && !Keeps(s, s.clients[c].table, p) ==>
          && newId !in s.flows
          && CanEvict(cfg, s, s.clients[c].table, p.conid, lru))
  }

  /** The ids handle takes out of the table before it opens a flow: the packet's own, and
      the least recently used one if the others still fill the table. */
  function RoomKeys(cfg: Config, s: Server, table: map<nat, FlowId>, conid: nat, lru: FlowId): set<nat>
  {
    var own := if conid in table then {conid} else {};
    if Full(cfg, s, table, conid, lru) then own + {s.flows[lru].conid} else own
  }

  predicate Full(cfg: Config, s: Server, table: map<nat, FlowId>, conid: nat, lru: FlowId)
  {
    |Others(table, conid)| >= cfg.maxFlows && lru in s.flows
  }

  function FlowsAt(table: map<nat, FlowId>, keys: set<nat>): set<FlowId>
  {
    set k | k in keys && k in table :: table[k]
  }

  /** Takes entries out of one client's table and announces the closeFlow calls on them: what
      making room, reaping, failing readers and closing a client have in common. */
  function Retired(s: Server, c: ClientId, keys: set<nat>, out: multiset<FlowId>, readers: set<FlowId>, closes: bool): Server
    requires c in s.clients
  {
    var cl := s.clients[c];
    s.(clients := s.clients[c := cl.(table := cl.table - keys, closed := cl.closed || closes)],
       closing := s.closing + out,
       readers := readers)
  }

  function Opened(s: Server, c: ClientId, conid: nat, id: FlowId, f: Flow): Server
    requires c in s.clients
  {
    s.(clients := s.clients[c := s.clients[c].(table := s.clients[c].table[conid := id])],
       flows := s.flows[id := f],
       counter := s.counter + 1,
       readers := s.readers + {id})
  }

  /** The locked section of handle. */
  function AfterHandle(cfg: Config, s: Server, c: ClientId, p: Packet, newId: FlowId, lru: FlowId, target: AddrPort, opens: bool, now: Time): Server
    requires c in s.clients && p.Datagram?
  {
    var cl := s.clients[c];
    if cl.closed || Keeps(s, cl.table, p) then s
    else
      var keys := RoomKeys(cfg, s, cl.table, p.conid, lru);
      var r := Retired(s, c, keys, multiset(FlowsAt(cl.table, keys)), s.readers, false);
      if opens then Opened(r, c, p.conid, newId, Flow(c, p.conid, p.addr, target, now, Open)) else r
  }

  // Reaping, failing readers, closing.

  function Stale(s: Server, table: map<nat, FlowId>, cutoff: Time): set<nat>
  {
    set k | k in table && table[k] in s.flows && s.flows[table[k]].lastUse < cutoff
  }

  function AfterReap(s: Server, c: ClientId, cutoff: Time): Server
    requires c in s.clients
  {
    var table := s.clients[c].table;
    var stale := Stale(s, table, cutoff);
    Retired(s, c, stale, multiset(FlowsAt(table, stale)), s.readers, false)
  }

  function AfterCloseTable(s: Server, c: ClientId): Server
    requires c in s.clients
  {
    var table := s.clients[c].table;
    Retired(s, c, table.Keys, multiset(FlowsAt(table, table.Keys)), s.readers, true)
  }

  function OwnKeys(s: Server, f: FlowId): set<nat>
    requires f in s.flows
  {
    if InTable(s, f) then {s.flows[f].conid} else {}
  }

  function AfterReaderFails(s: Server, f: FlowId): Server
    requires f in s.flows && s.flows[f].client in s.clients
  {
    Retired(s, s.flows[f].client, OwnKeys(s, f), multiset{f}, s.readers - {f}, false)
  }

  /** The compare-and-swap: only a call that finds the flow open goes on. */
  function AfterCloseClaim(s: Server, f: FlowId): Server
    requires f in s.flows
  {
    s.(closing := s.closing - multiset{f},
       flows := s.flows[f := s.flows[f].(life := if s.flows[f].life.Open? then Claimed else s.flows[f].life)])
  }

  function AfterCloseFinish(s: Server, f: FlowId): Server
    requires f in s.flows
  {
    s.(flows := s.flows[f := s.flows[f].(life := Closed)],
       counter := s.counter - 1,
       released := s.released + multiset{f})
  }

  // One step of any goroutine.

  predicate Enabled(cfg: Config, s: Server, a: Action)
    requires s.registry <= s.clients.Keys
  {
    match a
    case Accept(loop, c, now, evict) => CanAccept(cfg, s, loop, c, evict)
    case AcceptDone(loop) => loop in s.loops && s.loops[loop].Some? && s.loops[loop].value !in s.registry
    case CloseBegin(c) => c in s.clients && !s.clients[c].done
    case CloseTable(c) => c in s.clients && s.clients[c].done && !s.clients[c].closed
    case Unregister(c) => c in s.clients && s.clients[c].closed
    case Handle(c, p, newId, lru, target, opens, now) => CanHandle(cfg, s, c, p, newId, lru)
    case Touch(f, now) => f in s.flows
    case Reap(c, cutoff) => c in s.clients
    case ReaderFails(f) => f in s.readers && f in s.flows && s.flows[f].client in s.clients
    case ReaderQuits(f) => f in s.readers && f in s.flows && s.flows[f].client in s.clients && s.clients[s.flows[f].client].done
    case CloseClaim(f) => f in s.closing && f in s.flows
    case CloseFinish(f) => f in s.flows && s.flows[f].life.Claimed?
    case CloseServer => true
  }

  function Step(cfg: Config, s: Server, a: Action): Server
    requires s.registry <= s.clients.Keys && Enabled(cfg, s, a)
  {
    match a
    case Accept(loop, c, now, evict) => AfterAccept(cfg, s, loop, c, now, evict)
    case AcceptDone(loop) => s.(loops := s.loops[loop := None])
    case CloseBegin(c) => s.(clients := s.clients[c := s.clients[c].(done := true)], doomed := s.doomed - {c})
    case CloseTable(c) => AfterCloseTable(s, c)
    case Unregister(c) => s.(registry := s.registry - {c})
    case Handle(c, p, newId, lru, target, opens, now) => AfterHandle(cfg, s, c, p, newId, lru, target, opens, now)
    case Touch(f, now) => s.(flows := s.flows[f := s.flows[f].(lastUse := now)])
    case Reap(c, cutoff) => AfterReap(s, c, cutoff)
    case ReaderFails(f) => AfterReaderFails(s, f)
    case ReaderQuits(f) => s.(readers := s.readers - {f})
    case CloseClaim(f) => AfterCloseClaim(s, f)
    case CloseFinish(f) => AfterCloseFinish(s, f)
    case CloseServer => if s.closed then s else s.(closed := true, doomed := s.registry)
  }

  // The invariant.

  predicate InTable(s: Server, f: FlowId)
    requires f in s.flows
  {
    var fl := s.flows[f];
    fl.client in s.clients && fl.conid in s.clients[fl.client].table && s.clients[fl.client].table[fl.conid] == f
  }

  function LiveIn(flows: map<FlowId, Flow>): set<FlowId> { set f | f in flows && !flows[f].life.Closed? }

  function Live(s: Server): set<FlowId> { LiveIn(s.flows) }

  /** Each entry of the table is an open flow of this client, kept under its own id, that nobody is closing. */
  predicate TableOK(cfg: Config, s: Server, c: ClientId, cl: Client)
  {
    && (cl.closed ==> cl.done && cl.table == map[])
    && |cl.table| <= cfg.maxFlows
    && forall k | k in cl.table :: EntryOK(s, c, k, cl.table[k])
  }

  predicate EntryOK(s: Server, c: ClientId, k: nat, f: FlowId)
  {
    f in s.flows && s.flows[f].client == c && s.flows[f].conid == k && s.flows[f].life.Open? && f !in s.closing
  }

  /** A flow is open only while a table holds it or a closeFlow call on it is outstanding. */
  predicate FlowOK(s: Server, f: FlowId)
    requires f in s.flows
  {
    && s.flows[f].client in s.clients
    && (s.flows[f].life.Open? ==> InTable(s, f) || f in s.closing)
    && s.released[f] == if s.flows[f].life.Closed? then 1 else 0
  }

  predicate Shape(s: Server)
  {
    && s.registry <= s.clients.Keys
    && s.readers <= s.flows.Keys
    && (forall f | f in s.closing :: f in s.flows)
    && (forall f | f in s.released :: f in s.flows)
    && s.counter == |Live(s)|
  }

  predicate ClientOK(s: Server, c: ClientId)
    requires c in s.clients
  {
    && (!s.clients[c].closed ==> c in s.registry)
    && (s.closed && !s.clients[c].closed ==> c in s.doomed || s.clients[c].done)
  }

  predicate Inv(cfg: Config, s: Server)
  {
    && Shape(s)
    && (forall c | c in s.clients :: TableOK(cfg, s, c, s.clients[c]))
    && (forall f | f in s.flows :: FlowOK(s, f))
    && (forall c | c in s.clients :: ClientOK(s, c))
  }

  lemma InitInv(cfg: Config, loops: set<LoopId>)
    ensures Inv(cfg, Init(loops))
  {
    assert Live(Init(loops)) == {};
  }

  // The invariant, part by part.

  lemma InvShape(cfg: Config, s: Server)
    requires Inv(cfg, s)
    ensures Shape(s) && s.registry <= s.clients.Keys
  {
  }

  lemma InvClient(cfg: Config, s: Server, c: ClientId)
    requires Inv(cfg, s) && c in s.clients
    ensures TableOK(cfg, s, c, s.clients[c]) && ClientOK(s, c)
  {
    hide TableOK, ClientOK, FlowOK, Shape;
  }

  lemma InvFlow(cfg: Config, s: Server, f: FlowId)
    requires Inv(cfg, s) && f in s.flows
    ensures FlowOK(s, f)
  {
    hide TableOK, ClientOK, FlowOK, Shape;
  }

  lemma MakeInv(cfg: Config, s: Server)
    requires Shape(s)
    requires forall c | c in s.clients :: TableOK(cfg, s, c, s.clients[c]) && ClientOK(s, c)
    requires forall f | f in s.flows :: FlowOK(s, f)
    ensures Inv(cfg, s)
  {
    hide TableOK, ClientOK, FlowOK, Shape;
  }

  lemma AcceptKeepsInv(cfg: Config, s: Server, loop: LoopId, c: ClientId, now: Time, evict: ClientId)
    requires Inv(cfg, s) && CanAccept(cfg, s, loop, c, evict)
    ensures Inv(cfg, AfterAccept(cfg, s, loop, c, now, evict))
  {
    hide Inv, TableOK, FlowOK, ClientOK, Live, Shape, AfterAccept, Oldest;
    var t := AfterAccept(cfg, s, loop, c, now, evict);
    InvShape(cfg, s);
    AcceptShape(cfg, s, loop, c, now, evict);
    forall f | f in t.flows ensures FlowOK(t, f) {
      InvFlow(cfg, s, f);
      AcceptFlow(cfg, s, loop, c, now, evict, f);
    }
    forall d | d in t.clients ensures TableOK(cfg, t, d, t.clients[d]) && ClientOK(t, d) {
      if d in s.clients {
        InvClient(cfg, s, d);
      }
      AcceptClient(cfg, s, loop, c, now, evict, d);
    }
    MakeInv(cfg, t);
  }

  lemma AcceptFlow(cfg: Config, s: Server, loop: LoopId, c: ClientId, now: Time, evict: ClientId, f: FlowId)
    requires c !in s.clients && f in s.flows && FlowOK(s, f)
    ensures FlowOK(AfterAccept(cfg, s, loop, c, now, evict), f)
  {
  }

  lemma AcceptClient(cfg: Config, s: Server, loop: LoopId, c: ClientId, now: Time, evict: ClientId, d: ClientId)
    requires c !in s.clients
    requires d in s.clients ==> TableOK(cfg, s, d, s.clients[d]) && ClientOK(s, d)
    ensures var t := AfterAccept(cfg, s, loop, c, now, evict);
            d in t.clients ==> TableOK(cfg, t, d, t.clients[d]) && ClientOK(t, d)
  {
    var t := AfterAccept(cfg, s, loop, c, now, evict);
    if d in s.clients {
      forall k | k in s.clients[d].table ensures EntryOK(t, d, k, s.clients[d].table[k]) {
        assert EntryOK(s, d, k, s.clients[d].table[k]);
      }
    }
  }

  lemma AcceptShape(cfg: Config, s: Server, loop: LoopId, c: ClientId, now: Time, evict: ClientId)
    requires Shape(s)
    ensures Shape(AfterAccept(cfg, s, loop, c, now, evict)) && AfterAccept(cfg, s, loop, c, now, evict).flows == s.flows
  {
    assert Live(AfterAccept(cfg, s, loop, c, now, evict)) == Live(s);
  }

  lemma CloseClaimKeepsInv(cfg: Config, s: Server, f: FlowId)
    requires Inv(cfg, s) && f in s.closing && f in s.flows
    ensures Inv(cfg, AfterCloseClaim(s, f))
  {
    hide Inv, TableOK, FlowOK, Live, Shape, ClientOK, AfterCloseClaim;
    var t := AfterCloseClaim(s, f);
    InvShape(cfg, s);
    CloseClaimShape(s, f);
    forall c | c in t.clients ensures TableOK(cfg, t, c, t.clients[c]) && ClientOK(t, c) {
      InvClient(cfg, s, c);
      ClaimTable(cfg, s, f, c);
    }
    forall g | g in t.flows ensures FlowOK(t, g) {
      InvFlow(cfg, s, g);
      ClaimFlow(s, f, g);
    }
    MakeInv(cfg, t);
  }

  lemma CloseClaimShape(s: Server, f: FlowId)
    requires Shape(s) && f in s.flows
    ensures var t := AfterCloseClaim(s, f); Shape(t) && t.clients == s.clients && t.flows.Keys == s.flows.Keys
  {
    assert Live(AfterCloseClaim(s, f)) == Live(s);
  }

  lemma ClaimTable(cfg: Config, s: Server, f: FlowId, c: ClientId)
    requires f in s.closing && f in s.flows && c in s.clients && TableOK(cfg, s, c, s.clients[c]) && ClientOK(s, c)
    ensures TableOK(cfg, AfterCloseClaim(s, f), c, s.clients[c]) && ClientOK(AfterCloseClaim(s, f), c)
  {
    var t := AfterCloseClaim(s, f);
    forall k | k in s.clients[c].table ensures EntryOK(t, c, k, s.clients[c].table[k]) {
      assert EntryOK(s, c, k, s.clients[c].table[k]);
    }
  }

  lemma ClaimFlow(s: Server, f: FlowId, g: FlowId)
    requires f in s.closing && f in s.flows && g in s.flows && FlowOK(s, g)
    ensures FlowOK(AfterCloseClaim(s, f), g)
  {
    var t := AfterCloseClaim(s, f);
    if g != f {
      assert t.closing[g] == s.closing[g];
      assert InTable(s, g) == InTable(t, g);
    }
  }

  lemma CloseFinishKeepsInv(cfg: Config, s: Server, f: FlowId)
    requires Inv(cfg, s) && f in s.flows && s.flows[f].life.Claimed?
    ensures Inv(cfg, AfterCloseFinish(s, f))
  {
    hide Inv, TableOK, FlowOK, Live, Shape, ClientOK, AfterCloseFinish;
    var t := AfterCloseFinish(s, f);
    InvShape(cfg, s);
    CloseFinishShape(s, f);
    InvFlow(cfg, s, f);
    forall c | c in t.clients ensures TableOK(cfg, t, c, t.clients[c]) && ClientOK(t, c) {
      InvClient(cfg, s, c);
      FinishTable(cfg, s, f, c);
    }
    forall g | g in t.flows ensures FlowOK(t, g) {
      InvFlow(cfg, s, g);
      FinishFlow(s, f, g);
    }
    MakeInv(cfg, t);
  }

  lemma CloseFinishShape(s: Server, f: FlowId)
    requires Shape(s) && f in s.flows && s.flows[f].life.Claimed?
    ensures var t := AfterCloseFinish(s, f); Shape(t) && t.clients == s.clients && t.flows.Keys == s.flows.Keys
  {
    var t := AfterCloseFinish(s, f);
    assert Live(t) == Live(s) - {f} && f in Live(s);
  }

  lemma FinishTable(cfg: Config, s: Server, f: FlowId, c: ClientId)
    requires f in s.flows && s.flows[f].life.Claimed? && c in s.clients && TableOK(cfg, s, c, s.clients[c]) && ClientOK(s, c)
    ensures TableOK(cfg, AfterCloseFinish(s, f), c, s.clients[c]) && ClientOK(AfterCloseFinish(s, f), c)
  {
    var t := AfterCloseFinish(s, f);
    forall k | k in s.clients[c].table ensures EntryOK(t, c, k, s.clients[c].table[k]) {
      assert EntryOK(s, c, k, s.clients[c].table[k]);
    }
  }

  lemma FinishFlow(s: Server, f: FlowId, g: FlowId)
    requires f in s.flows && s.flows[f].life.Claimed? && FlowOK(s, f) && g in s.flows && FlowOK(s, g)
    ensures FlowOK(AfterCloseFinish(s, f), g)
  {
    var t := AfterCloseFinish(s, f);
    if g != f {
      assert InTable(s, g) == InTable(t, g);
    }
  }

  predicate MayRetire(s: Server, c: ClientId, keys: set<nat>, out: multiset<FlowId>)
    requires c in s.clients
  {
    && keys <= s.clients[c].table.Keys
    && (forall k | k in keys :: s.clients[c].table[k] in out)
    && (forall f | f in out :: f in s.flows && (InTable(s, f) ==> s.flows[f].client == c && s.flows[f].conid in keys))
  }

  lemma RetireKeepsInv(cfg: Config, s: Server, c: ClientId, keys: set<nat>, out: multiset<FlowId>, readers: set<FlowId>, closes: bool)
    requires Inv(cfg, s) && c in s.clients && MayRetire(s, c, keys, out)
    requires closes ==> keys == s.clients[c].table.Keys && s.clients[c].done
    requires readers <= s.readers
    ensures Inv(cfg, Retired(s, c, keys, out, readers, closes))
  {
    hide Inv, TableOK, FlowOK, ClientOK, Live, MayRetire, Shape, Retired;
    var t := Retired(s, c, keys, out, readers, closes);
    InvShape(cfg, s);
    RetireShape(s, c, keys, out, readers, closes);
    forall d | d in t.clients ensures TableOK(cfg, t, d, t.clients[d]) && ClientOK(t, d) {
      InvClient(cfg, s, d);
      RetireTable(cfg, s, c, keys, out, readers, closes, d);
    }
    forall g | g in t.flows ensures FlowOK(t, g) {
      InvFlow(cfg, s, g);
      RetireFlow(s, c, keys, out, readers, closes, g);
    }
    MakeInv(cfg, t);
  }

  lemma RetireShape(s: Server, c: ClientId, keys: set<nat>, out: multiset<FlowId>, readers: set<FlowId>, closes: bool)
    requires Shape(s) && c in s.clients && MayRetire(s, c, keys, out) && readers <= s.readers
    ensures var t := Retired(s, c, keys, out, readers, closes);
            Shape(t) && t.clients.Keys == s.clients.Keys && t.flows == s.flows
  {
    assert Live(Retired(s, c, keys, out, readers, closes)) == Live(s);
  }

  lemma RetireTable(cfg: Config, s: Server, c: ClientId, keys: set<nat>, out: multiset<FlowId>, readers: set<FlowId>, closes: bool, d: ClientId)
    requires c in s.clients && MayRetire(s, c, keys, out)
    requires closes ==> keys == s.clients[c].table.Keys && s.clients[c].done
    requires d in s.clients && TableOK(cfg, s, d, s.clients[d]) && ClientOK(s, d)
    ensures var t := Retired(s, c, keys, out, readers, closes); TableOK(cfg, t, d, t.clients[d]) && ClientOK(t, d)
  {
    var t := Retired(s, c, keys, out, readers, closes);
    forall k | k in t.clients[d].table ensures EntryOK(t, d, k, t.clients[d].table[k]) {
      var f := s.clients[d].table[k];
      assert EntryOK(s, d, k, f);
      assert InTable(s, f);
    }
    if d == c {
      TableShrinks(s.clients[c].table, keys);
      if closes {
        assert s.clients[c].table - keys == map[];
      }
    }
  }

  lemma RetireFlow(s: Server, c: ClientId, keys: set<nat>, out: multiset<FlowId>, readers: set<FlowId>, closes: bool, g: FlowId)
    requires c in s.clients && MayRetire(s, c, keys, out)
    requires g in s.flows && FlowOK(s, g)
    ensures FlowOK(Retired(s, c, keys, out, readers, closes), g)
  {
    var t := Retired(s, c, keys, out, readers, closes);
    var fl := s.flows[g];
    if fl.life.Open? && g !in s.closing {
      assert InTable(s, g);
      if fl.client == c && fl.conid in keys {
        assert s.clients[c].table[fl.conid] in out;
      } else {
        assert InTable(t, g);
      }
    }
  }

  lemma TableShrinks(table: map<nat, FlowId>, keys: set<nat>)
    ensures |table - keys| <= |table|
  {
    assert (table - keys).Keys == table.Keys - keys;
    assert |table.Keys - keys| <= |table.Keys|;
    assert |(table - keys).Keys| == |table - keys| && |table.Keys| == |table|;
  }

  lemma FlowsAtOwned(cfg: Config, s: Server, c: ClientId, keys: set<nat>)
    requires c in s.clients && TableOK(cfg, s, c, s.clients[c]) && keys <= s.clients[c].table.Keys
    ensures MayRetire(s, c, keys, multiset(FlowsAt(s.clients[c].table, keys)))
  {
    var out := FlowsAt(s.clients[c].table, keys);
    forall f | f in out ensures f in s.flows && s.flows[f].client == c && s.flows[f].conid in keys {
      var k :| k in keys && k in s.clients[c].table && s.clients[c].table[k] == f;
      assert EntryOK(s, c, k, f);
    }
  }

  lemma ReapKeepsInv(cfg: Config, s: Server, c: ClientId, cutoff: Time)
    requires Inv(cfg, s) && c in s.clients
    ensures Inv(cfg, AfterReap(s, c, cutoff))
  {
    var table := s.clients[c].table;
    var stale := Stale(s, table, cutoff);
    FlowsAtOwned(cfg, s, c, stale);
    RetireKeepsInv(cfg, s, c, stale, multiset(FlowsAt(table, stale)), s.readers, false);
  }

  lemma CloseTableKeepsInv(cfg: Config, s: Server, c: ClientId)
    requires Inv(cfg, s) && c in s.clients && s.clients[c].done
    ensures Inv(cfg, AfterCloseTable(s, c))
  {
    var table := s.clients[c].table;
    FlowsAtOwned(cfg, s, c, table.Keys);
    RetireKeepsInv(cfg, s, c, table.Keys, multiset(FlowsAt(table, table.Keys)), s.readers, true);
  }

  lemma OwnKeysRetire(s: Server, f: FlowId)
    requires f in s.flows && s.flows[f].client in s.clients
    ensures MayRetire(s, s.flows[f].client, OwnKeys(s, f), multiset{f})
  {
  }

  lemma ReaderFailsKeepsInv(cfg: Config, s: Server, f: FlowId)
    requires Inv(cfg, s) && f in s.flows && s.flows[f].client in s.clients
    ensures Inv(cfg, AfterReaderFails(s, f))
  {
    hide Inv, MayRetire, Retired, OwnKeys;
    OwnKeysRetire(s, f);
    RetireKeepsInv(cfg, s, s.flows[f].client, OwnKeys(s, f), multiset{f}, s.readers - {f}, false);
  }

  // handle: make room, then open.

  /** Making room leaves the packet's id free and a place for it. */
  lemma RoomIsEnough(cfg: Config, s: Server, table: map<nat, FlowId>, conid: nat, lru: FlowId)
    requires cfg.Valid() && |table| <= cfg.maxFlows && CanEvict(cfg, s, table, conid, lru)
    ensures var keys := RoomKeys(cfg, s, table, conid, lru);
            keys <= table.Keys && conid !in table - keys && |table - keys| < cfg.maxFlows
  {
    var rest := Others(table, conid);
    var keys := RoomKeys(cfg, s, table, conid, lru);
    RoomMap(cfg, s, table, conid, lru);
    hide RoomKeys;
    if |rest| >= cfg.maxFlows {
      OneLess(rest, s.flows[lru].conid);
      if conid in table {
        OneLess(table, conid);
      }
    }
  }

  lemma RoomMap(cfg: Config, s: Server, table: map<nat, FlowId>, conid: nat, lru: FlowId)
    requires CanEvict(cfg, s, table, conid, lru)
    ensures var rest, keys := Others(table, conid), RoomKeys(cfg, s, table, conid, lru);
            && table - keys == (if Full(cfg, s, table, conid, lru) then rest - {s.flows[lru].conid} else rest)
            && keys <= table.Keys
            && (conid !in table ==> rest == table)
  {
    if Full(cfg, s, table, conid, lru) {
      assert LeastRecent(s, Others(table, conid), lru);
      DropOne(table, conid);
      DropTwo(table, conid, s.flows[lru].conid);
    } else {
      DropOne(table, conid);
    }
  }

  lemma DropOne(table: map<nat, FlowId>, conid: nat)
    ensures var own := if conid in table then {conid} else {};
            Others(table, conid) == table - own && own <= table.Keys && (conid !in table ==> Others(table, conid) == table)
  {
  }

  lemma DropTwo(table: map<nat, FlowId>, conid: nat, k: nat)
    requires k in Others(table, conid)
    ensures var own := if conid in table then {conid} else {};
            Others(table, conid) - {k} == table - (own + {k}) && own + {k} <= table.Keys
  {
  }

  lemma OneLess(table: map<nat, FlowId>, k: nat)
    requires k in table
    ensures |table - {k}| == |table| - 1
  {
    assert (table - {k}).Keys == table.Keys - {k};
    assert |(table - {k}).Keys| == |table - {k}| && |table.Keys| == |table|;
  }

  lemma OpenKeepsInv(cfg: Config, s: Server, c: ClientId, conid: nat, id: FlowId, f: Flow)
    requires Inv(cfg, s) && c in s.clients && !s.clients[c].closed
    requires conid !in s.clients[c].table && |s.clients[c].table| < cfg.maxFlows
    requires id !in s.flows && f.client == c && f.conid == conid && f.life.Open?
    ensures Inv(cfg, Opened(s, c, conid, id, f))
  {
    hide Inv, TableOK, FlowOK, ClientOK, Live, Shape, Opened;
    var t := Opened(s, c, conid, id, f);
    InvShape(cfg, s);
    OpenShape(s, c, conid, id, f);
    forall g | g in t.flows ensures FlowOK(t, g) {
      if g in s.flows {
        InvFlow(cfg, s, g);
      }
      OpenFlow(s, c, conid, id, f, g);
    }
    forall d | d in t.clients ensures TableOK(cfg, t, d, t.clients[d]) && ClientOK(t, d) {
      InvClient(cfg, s, d);
      OpenTable(cfg, s, c, conid, id, f, d);
    }
    MakeInv(cfg, t);
  }

  lemma OpenShape(s: Server, c: ClientId, conid: nat, id: FlowId, f: Flow)
    requires Shape(s) && c in s.clients && id !in s.flows && f.life.Open?
    ensures var t := Opened(s, c, conid, id, f);
            && Shape(t) && t.clients.Keys == s.clients.Keys && t.flows.Keys == s.flows.Keys + {id}
            && id !in s.closing && id !in s.released
  {
    LiveMore(s.flows, id, f);
    hide LiveIn;
  }

  lemma LiveMore(flows: map<FlowId, Flow>, id: FlowId, f: Flow)
    requires id !in flows && f.life.Open?
    ensures |LiveIn(flows[id := f])| == |LiveIn(flows)| + 1
  {
    assert LiveIn(flows[id := f]) == LiveIn(flows) + {id};
  }

  lemma OpenFlow(s: Server, c: ClientId, conid: nat, id: FlowId, f: Flow, g: FlowId)
    requires c in s.clients && id !in s.flows && conid !in s.clients[c].table
    requires f.client == c && f.conid == conid && f.life.Open?
    requires id !in s.closing && id !in s.released
    requires g == id || (g in s.flows && FlowOK(s, g))
    ensures FlowOK(Opened(s, c, conid, id, f), g)
  {
  }

  lemma OpenTable(cfg: Config, s: Server, c: ClientId, conid: nat, id: FlowId, f: Flow, d: ClientId)
    requires c in s.clients && !s.clients[c].closed && conid !in s.clients[c].table && |s.clients[c].table| < cfg.maxFlows
    requires id !in s.flows && id !in s.closing && f.client == c && f.conid == conid && f.life.Open?
    requires d in s.clients && TableOK(cfg, s, d, s.clients[d]) && ClientOK(s, d)
    ensures var t := Opened(s, c, conid, id, f); TableOK(cfg, t, d, t.clients[d]) && ClientOK(t, d)
  {
    var t := Opened(s, c, conid, id, f);
    forall k | k in t.clients[d].table ensures EntryOK(t, d, k, t.clients[d].table[k]) {
      if k in s.clients[d].table {
        assert EntryOK(s, d, k, s.clients[d].table[k]);
      }
    }
  }

  lemma HandleKeepsInv(cfg: Config, s: Server, c: ClientId, p: Packet, newId: FlowId, lru: FlowId, target: AddrPort, opens: bool, now: Time)
    requires cfg.Valid() && Inv(cfg, s) && p.Datagram? && CanHandle(cfg, s, c, p, newId, lru)
    ensures Inv(cfg, AfterHandle(cfg, s, c, p, newId, lru, target, opens, now))
  {
    if !s.clients[c].closed && !Keeps(s, s.clients[c].table, p) {
      var table := s.clients[c].table;
      var keys := RoomKeys(cfg, s, table, p.conid, lru);
      var out := multiset(FlowsAt(table, keys));
      var r := Retired(s, c, keys, out, s.readers, false);
      assert TableOK(cfg, s, c, s.clients[c]);
      RoomIsEnough(cfg, s, table, p.conid, lru);
      FlowsAtOwned(cfg, s, c, keys);
      hide RoomKeys, MayRetire, Inv, Opened, Keeps, TableOK, FlowsAt;
      RetireKeepsInv(cfg, s, c, keys, out, s.readers, false);
      if opens {
        OpenKeepsInv(cfg, r, c, p.conid, newId, Flow(c, p.conid, p.addr, target, now, Open));
      }
    }
  }

  // The remaining steps touch one record each.

  predicate IsSmall(a: Action) { a.AcceptDone? || a.CloseBegin? || a.Unregister? || a.Touch? || a.ReaderQuits? || a.CloseServer? }

  lemma SmallStepKeepsInv(cfg: Config, s: Server, a: Action)
    requires Inv(cfg, s) && Enabled(cfg, s, a)
    requires IsSmall(a)
    ensures Inv(cfg, Step(cfg, s, a))
  {
    hide Inv, TableOK, FlowOK, ClientOK, Live, Shape;
    hide AfterHandle, AfterAccept, AfterReap, AfterCloseTable, AfterReaderFails, AfterCloseClaim, AfterCloseFinish, CanHandle, CanAccept;
    InvShape(cfg, s);
    if a.Touch? {
      TouchKeepsInv(cfg, s, a.f, a.now);
    } else {
      SideStepIs(cfg, s, a);
      hide Step, Enabled;
      SideStepKeepsInv(cfg, s, Step(cfg, s, a));
    }
  }

  /** Flows and tables stay; clients may begin to close, be unregistered or doomed, and readers may end. */
  predicate SideStep(s: Server, t: Server)
  {
    && t.flows == s.flows && t.closing == s.closing && t.released == s.released && t.counter == s.counter
    && t.clients.Keys == s.clients.Keys && t.registry <= s.registry && t.readers <= s.readers
    && (forall c | c in s.clients :: SameButDone(s.clients[c], t.clients[c]) && (ClientOK(s, c) ==> ClientOK(t, c)))
  }

  predicate SameButDone(f: Client, g: Client) { g.table == f.table && g.closed == f.closed && (f.done ==> g.done) }

  lemma SideStepIs(cfg: Config, s: Server, a: Action)
    requires s.registry <= s.clients.Keys && Enabled(cfg, s, a) && IsSmall(a) && !a.Touch?
    ensures SideStep(s, Step(cfg, s, a))
  {
    hide AfterHandle, AfterAccept, AfterReap, AfterCloseTable, AfterReaderFails, AfterCloseClaim, AfterCloseFinish, CanHandle, CanAccept;
    var t := Step(cfg, s, a);
    forall c | c in s.clients ensures ClientOK(s, c) ==> ClientOK(t, c) {
    }
  }

  lemma SideStepKeepsInv(cfg: Config, s: Server, t: Server)
    requires Inv(cfg, s) && SideStep(s, t)
    ensures Inv(cfg, t)
  {
    hide Inv, TableOK, FlowOK, ClientOK, Shape, SameButDone;
    InvShape(cfg, s);
    SideShape(s, t);
    forall c | c in t.clients ensures TableOK(cfg, t, c, t.clients[c]) && ClientOK(t, c) {
      InvClient(cfg, s, c);
      SideTable(cfg, s, t, c);
    }
    forall f | f in t.flows ensures FlowOK(t, f) {
      InvFlow(cfg, s, f);
      SideFlow(s, t, f);
    }
    MakeInv(cfg, t);
  }

  lemma SideShape(s: Server, t: Server)
    requires Shape(s) && SideStep(s, t)
    ensures Shape(t)
  {
    hide ClientOK, SameButDone;
    assert Live(t) == Live(s);
  }

  lemma SideTable(cfg: Config, s: Server, t: Server, c: ClientId)
    requires SideStep(s, t) && c in s.clients && TableOK(cfg, s, c, s.clients[c])
    ensures TableOK(cfg, t, c, t.clients[c])
  {
    hide ClientOK;
    forall k | k in s.clients[c].table ensures EntryOK(t, c, k, s.clients[c].table[k]) {
      assert EntryOK(s, c, k, s.clients[c].table[k]);
    }
  }

  lemma SideFlow(s: Server, t: Server, f: FlowId)
    requires SideStep(s, t) && f in s.flows && FlowOK(s, f)
    ensures FlowOK(t, f)
  {
    hide ClientOK;
    assert InTable(t, f) == InTable(s, f);
  }

  function Touched(s: Server, f: FlowId, now: Time): Server
    requires f in s.flows
  {
    s.(flows := s.flows[f := s.flows[f].(lastUse := now)])
  }

  lemma TouchKeepsInv(cfg: Config, s: Server, f: FlowId, now: Time)
    requires Inv(cfg, s) && f in s.flows
    ensures Inv(cfg, Touched(s, f, now))
  {
    hide Inv, TableOK, FlowOK, ClientOK, Shape, Touched;
    var t := Touched(s, f, now);
    InvShape(cfg, s);
    TouchShape(s, f, now);
    forall c | c in t.clients ensures TableOK(cfg, t, c, t.clients[c]) && ClientOK(t, c) {
      InvClient(cfg, s, c);
      TouchTable(cfg, s, f, now, c);
    }
    forall g | g in t.flows ensures FlowOK(t, g) {
      InvFlow(cfg, s, g);
      TouchFlow(s, f, now, g);
    }
    MakeInv(cfg, t);
  }

  lemma TouchShape(s: Server, f: FlowId, now: Time)
    requires Shape(s) && f in s.flows
    ensures var t := Touched(s, f, now); Shape(t) && t.clients == s.clients && t.flows.Keys == s.flows.Keys
  {
    assert Live(Touched(s, f, now)) == Live(s);
  }

  lemma TouchTable(cfg: Config, s: Server, f: FlowId, now: Time, c: ClientId)
    requires f in s.flows && c in s.clients && TableOK(cfg, s, c, s.clients[c]) && ClientOK(s, c)
    ensures TableOK(cfg, Touched(s, f, now), c, s.clients[c]) && ClientOK(Touched(s, f, now), c)
  {
    forall k | k in s.clients[c].table ensures EntryOK(Touched(s, f, now), c, k, s.clients[c].table[k]) {
      assert EntryOK(s, c, k, s.clients[c].table[k]);
    }
  }

  lemma TouchFlow(s: Server, f: FlowId, now: Time, g: FlowId)
    requires f in s.flows && g in s.flows && FlowOK(s, g)
    ensures FlowOK(Touched(s, f, now), g)
  {
    assert InTable(Touched(s, f, now), g) == InTable(s, g);
  }

  // Every step, and every run.

  lemma StepKeepsInv(cfg: Config, s: Server, a: Action)
    requires cfg.Valid() && Inv(cfg, s) && Enabled(cfg, s, a)
    ensures Inv(cfg, Step(cfg, s, a))
  {
    match a
    case Accept(loop, c, now, evict) => AcceptKeepsInv(cfg, s, loop, c, now, evict);
    case CloseTable(c) => CloseTableKeepsInv(cfg, s, c);
    case Handle(c, p, newId, lru, target, opens, now) => HandleKeepsInv(cfg, s, c, p, newId, lru, target, opens, now);
    case Reap(c, cutoff) => ReapKeepsInv(cfg, s, c, cutoff);
    case ReaderFails(f) => ReaderFailsKeepsInv(cfg, s, f);
    case CloseClaim(f) => CloseClaimKeepsInv(cfg, s, f);
    case CloseFinish(f) => CloseFinishKeepsInv(cfg, s, f);
    case _ => SmallStepKeepsInv(cfg, s, a);
  }

  /** A run: every action is enabled where it happens. */
  predicate Runs(cfg: Config, s: Server, run: seq<Action>)
    decreases |run|
  {
    run == [] ||
    (s.registry <= s.clients.Keys && Enabled(cfg, s, run[0]) && Runs(cfg, Step(cfg, s, run[0]), run[1..]))
  }

  function After(cfg: Config, s: Server, run: seq<Action>): Server
    requires Runs(cfg, s, run)
    decreases |run|
  {
    if run == [] then s else After(cfg, Step(cfg, s, run[0]), run[1..])
  }

  lemma {:induction false} RunKeepsInv(cfg: Config, s: Server, run: seq<Action>)
    requires cfg.Valid() && Inv(cfg, s) && Runs(cfg, s, run)
    ensures Inv(cfg, After(cfg, s, run))
    decreases |run|
  {
    if run != [] {
      hide Inv, Enabled, Step;
      StepKeepsInv(cfg, s, run[0]);
      RunKeepsInv(cfg, Step(cfg, s, run[0]), run[1..]);
    }
  }

  // What the invariant says about any run from the start.

  function Tabled(s: Server): set<FlowId> { set f | f in s.flows && InTable(s, f) }

  function Removed(s: Server): set<FlowId> { set f | f in s.flows && !InTable(s, f) && !s.flows[f].life.Closed? }

  lemma TabledIsOpen(cfg: Config, s: Server, f: FlowId)
    requires Inv(cfg, s) && f in s.flows && InTable(s, f)
    ensures s.flows[f].life.Open? && f !in s.closing
  {
    var fl := s.flows[f];
    hide FlowOK, Shape, ClientOK;
    assert TableOK(cfg, s, fl.client, s.clients[fl.client]);
    assert EntryOK(s, fl.client, fl.conid, f);
  }

  /** The counter is the number of table entries plus the flows removed but not yet closed. */
  lemma CounterCounts(cfg: Config, s: Server)
    requires Inv(cfg, s)
    ensures s.counter == |Tabled(s)| + |Removed(s)|
  {
    forall f | f in Tabled(s) ensures f in Live(s) {
      TabledIsOpen(cfg, s, f);
    }
    assert s.counter == |Live(s)|;
    hide Inv, InTable;
    LiveParts(s);
  }

  lemma LiveParts(s: Server)
    requires Tabled(s) <= Live(s)
    ensures |Live(s)| == |Tabled(s)| + |Removed(s)|
  {
    hide InTable;
    assert Live(s) == Tabled(s) + Removed(s);
    assert Tabled(s) !! Removed(s);
  }

  /** The entries of one client's table are as many flows of that client: no flow is entered twice. */
  lemma {:induction false} TableFlows(cfg: Config, s: Server, c: ClientId, keys: set<nat>)
    requires c in s.clients && TableOK(cfg, s, c, s.clients[c]) && keys <= s.clients[c].table.Keys
    ensures |FlowsAt(s.clients[c].table, keys)| == |keys|
    decreases keys
  {
    var table := s.clients[c].table;
    if keys == {} {
      assert FlowsAt(table, keys) == {};
    } else {
      var k :| k in keys;
      TableFlows(cfg, s, c, keys - {k});
      forall j | j in keys - {k} ensures table[j] != table[k] {
        DistinctEntries(cfg, s, c, j, k);
      }
      hide TableOK;
      assert FlowsAt(table, keys) == FlowsAt(table, keys - {k}) + {table[k]};
    }
  }

  lemma DistinctEntries(cfg: Config, s: Server, c: ClientId, j: nat, k: nat)
    requires c in s.clients && TableOK(cfg, s, c, s.clients[c])
    requires j in s.clients[c].table && k in s.clients[c].table && j != k
    ensures s.clients[c].table[j] != s.clients[c].table[k]
  {
    assert EntryOK(s, c, j, s.clients[c].table[j]) && EntryOK(s, c, k, s.clients[c].table[k]);
  }

  /** Safety of every interleaving: tables stay bounded and hold open flows of their own client
      under their own id, closed clients hold none, and each flow is counted down at most once,
      exactly when it is closed. */
  lemma RunsAreSafe(cfg: Config, loops: set<LoopId>, run: seq<Action>)
    requires cfg.Valid() && Runs(cfg, Init(loops), run)
    ensures var s := After(cfg, Init(loops), run);
            && s.counter == |Tabled(s)| + |Removed(s)|
            && (forall c | c in s.clients :: |s.clients[c].table| <= cfg.maxFlows && (s.clients[c].closed ==> s.clients[c].table == map[]))
            && (forall c, k | c in s.clients && k in s.clients[c].table :: OpenEntry(s, c, k))
            && (forall f | f in s.flows :: s.released[f] == if s.flows[f].life.Closed? then 1 else 0)
            && (forall f | f in s.released :: f in s.flows)
  {
    var s := After(cfg, Init(loops), run);
    InitInv(cfg, loops);
    RunKeepsInv(cfg, Init(loops), run);
    CounterCounts(cfg, s);
    InvIsSafe(cfg, s);
  }

  predicate OpenEntry(s: Server, c: ClientId, k: nat)
    requires c in s.clients && k in s.clients[c].table
  {
    var f := s.clients[c].table[k];
    f in s.flows && s.flows[f].client == c && s.flows[f].conid == k && s.flows[f].life.Open?
  }

  lemma InvIsSafe(cfg: Config, s: Server)
    requires Inv(cfg, s)
    ensures forall c | c in s.clients :: |s.clients[c].table| <= cfg.maxFlows && (s.clients[c].closed ==> s.clients[c].table == map[])
    ensures forall c, k | c in s.clients && k in s.clients[c].table :: OpenEntry(s, c, k)
    ensures forall f | f in s.flows :: s.released[f] == if s.flows[f].life.Closed? then 1 else 0
    ensures forall f | f in s.released :: f in s.flows
  {
    forall c | c in s.clients
      ensures |s.clients[c].table| <= cfg.maxFlows && (s.clients[c].closed ==> s.clients[c].table == map[])
      ensures forall k | k in s.clients[c].table :: OpenEntry(s, c, k)
    {
      hide FlowOK, Shape, ClientOK;
      assert TableOK(cfg, s, c, s.clients[c]);
      forall k | k in s.clients[c].table ensures OpenEntry(s, c, k) {
        assert EntryOK(s, c, k, s.clients[c].table[k]);
      }
    }
    forall f | f in s.flows ensures s.released[f] == if s.flows[f].life.Closed? then 1 else 0 {
      assert FlowOK(s, f);
    }
  }

  function Rank(l: Life): nat { match l case Open => 0 case Claimed => 1 case Closed => 2 }

  /** Identities are permanent and closing is one-way: a flow keeps its client, id and address, never
      reopens, and a closed client stays closed with an empty table. */
  predicate Later(s: Server, t: Server)
  {
    && (forall f | f in s.flows :: f in t.flows && LaterFlow(s.flows[f], t.flows[f]))
    && (forall c | c in s.clients :: c in t.clients && LaterClient(s.clients[c], t.clients[c]) && (s.clients[c].closed ==> t.clients[c].table == map[]))
    && s.released <= t.released
  }

  predicate LaterFlow(f: Flow, g: Flow)
  {
    g.client == f.client && g.conid == f.conid && g.orig == f.orig && g.target == f.target && Rank(f.life) <= Rank(g.life)
  }

  predicate LaterClient(f: Client, g: Client)
  {
    g.since == f.since && (f.done ==> g.done) && (f.closed ==> g.closed && (f.table == map[] ==> g.table == map[]))
  }

  lemma StepFlowLater(cfg: Config, s: Server, a: Action, f: FlowId)
    requires s.registry <= s.clients.Keys && Enabled(cfg, s, a) && f in s.flows
    ensures var t := Step(cfg, s, a); f in t.flows && LaterFlow(s.flows[f], t.flows[f])
  {
    if a.Handle? {
      HandleFlows(cfg, s, a.c, a.p, a.newId, a.lru, a.target, a.opens, a.now, f);
      hide AfterHandle, CanHandle;
    } else if a.Accept? {
      AcceptFlows(cfg, s, a.loop, a.c, a.now, a.evict);
    } else {
      hide Step, Enabled;
      OtherFlowLater(cfg, s, a, f);
    }
  }

  lemma AcceptFlows(cfg: Config, s: Server, loop: LoopId, c: ClientId, now: Time, evict: ClientId)
    ensures AfterAccept(cfg, s, loop, c, now, evict).flows == s.flows
  {
  }

  /** What retiring entries does to a client: its table shrinks, and it may close. */
  lemma RetiredClient(s: Server, c: ClientId, keys: set<nat>, out: multiset<FlowId>, readers: set<FlowId>, closes: bool, d: ClientId)
    requires c in s.clients
    ensures var t := Retired(s, c, keys, out, readers, closes);
            && t.clients.Keys == s.clients.Keys && t.flows == s.flows && t.closed == s.closed
            && (d in s.clients ==> LaterClient(s.clients[d], t.clients[d]))
  {
    var none: map<nat, FlowId> := map[];
    assert none - keys == none;
  }

  predicate Retires(s: Server, a: Action)
  {
    if a.ReaderFails? then a.f in s.flows && s.flows[a.f].client in s.clients else (a.Reap? || a.CloseTable?) && a.c in s.clients
  }

  function AfterRetiring(s: Server, a: Action): Server
    requires Retires(s, a)
  {
    if a.ReaderFails? then AfterReaderFails(s, a.f) else if a.Reap? then AfterReap(s, a.c, a.cutoff) else AfterCloseTable(s, a.c)
  }

  lemma RetiringClient(s: Server, a: Action, d: ClientId)
    requires Retires(s, a)
    ensures var t := AfterRetiring(s, a);
            && t.clients.Keys == s.clients.Keys && t.flows == s.flows && t.closed == s.closed
            && (d in s.clients ==> LaterClient(s.clients[d], t.clients[d]))
  {
    hide FlowsAt, InTable, OwnKeys, Stale, Retired, LaterClient;
    if a.ReaderFails? {
      RetiredClient(s, s.flows[a.f].client, OwnKeys(s, a.f), multiset{a.f}, s.readers - {a.f}, false, d);
    } else {
      var table := s.clients[a.c].table;
      if a.Reap? {
        var stale := Stale(s, table, a.cutoff);
        RetiredClient(s, a.c, stale, multiset(FlowsAt(table, stale)), s.readers, false, d);
      } else {
        RetiredClient(s, a.c, table.Keys, multiset(FlowsAt(table, table.Keys)), s.readers, true, d);
      }
    }
  }

  lemma OtherFlowLater(cfg: Config, s: Server, a: Action, f: FlowId)
    requires s.registry <= s.clients.Keys && Enabled(cfg, s, a) && f in s.flows && !a.Handle? && !a.Accept?
    ensures var t := Step(cfg, s, a); f in t.flows && LaterFlow(s.flows[f], t.flows[f])
  {
    hide AfterHandle, CanHandle, AfterAccept, CanAccept, AfterReap, AfterCloseTable, AfterReaderFails;
    if a.Reap? || a.CloseTable? || a.ReaderFails? {
      RetiringClient(s, a, 0);
      StepIsRetiring(cfg, s, a);
      hide Step, Enabled;
    } else if IsSmall(a) && !a.Touch? {
      SideStepIs(cfg, s, a);
      hide Step, Enabled;
    } else {
      hide LaterClient;
    }
  }

  lemma StepIsRetiring(cfg: Config, s: Server, a: Action)
    requires s.registry <= s.clients.Keys && Enabled(cfg, s, a) && (a.Reap? || a.CloseTable? || a.ReaderFails?)
    ensures Retires(s, a) && Step(cfg, s, a) == AfterRetiring(s, a)
  {
    hide AfterHandle, CanHandle, AfterAccept, CanAccept, AfterReap, AfterCloseTable, AfterReaderFails;
  }

  lemma HandleFlows(cfg: Config, s: Server, c: ClientId, p: Packet, newId: FlowId, lru: FlowId, target: AddrPort, opens: bool, now: Time, f: FlowId)
    requires p.Datagram? && CanHandle(cfg, s, c, p, newId, lru) && f in s.flows
    ensures var t := AfterHandle(cfg, s, c, p, newId, lru, target, opens, now); f in t.flows && t.flows[f] == s.flows[f]
    ensures s.released == AfterHandle(cfg, s, c, p, newId, lru, target, opens, now).released
  {
    hide RoomKeys, FlowsAt, CanEvict, IsRebind;
  }

  lemma HandleClient(cfg: Config, s: Server, c: ClientId, p: Packet, newId: FlowId, lru: FlowId, target: AddrPort, opens: bool, now: Time, d: ClientId)
    requires c in s.clients && p.Datagram?
    ensures var t := AfterHandle(cfg, s, c, p, newId, lru, target, opens, now);
            && t.clients.Keys == s.clients.Keys && t.closed == s.closed
            && (d in s.clients ==> LaterClient(s.clients[d], t.clients[d]))
  {
    hide RoomKeys, FlowsAt, Keeps;
  }

  /** No step of any goroutine reopens a client, and only accepting adds one. */
  lemma StepClientLater(cfg: Config, s: Server, a: Action, c: ClientId)
    requires s.registry <= s.clients.Keys && Enabled(cfg, s, a)
    ensures var t := Step(cfg, s, a);
            && (c in s.clients ==> c in t.clients && LaterClient(s.clients[c], t.clients[c]))
            && (s.closed ==> t.closed && t.clients.Keys == s.clients.Keys)
  {
    hide AfterHandle, CanHandle, AfterReap, AfterCloseTable, AfterReaderFails, Oldest;
    if a.Handle? {
      CanHandleAt(cfg, s, a.c, a.p, a.newId, a.lru);
      HandleClient(cfg, s, a.c, a.p, a.newId, a.lru, a.target, a.opens, a.now, c);
      hide LaterClient;
    } else if a.Reap? || a.CloseTable? || a.ReaderFails? {
      RetiringClient(s, a, c);
      StepIsRetiring(cfg, s, a);
      hide Step, Enabled, LaterClient;
    }
  }

  lemma CanHandleAt(cfg: Config, s: Server, c: ClientId, p: Packet, newId: FlowId, lru: FlowId)
    requires CanHandle(cfg, s, c, p, newId, lru)
    ensures c in s.clients && p.Datagram?
  {
  }

  lemma ReleasedGrows(cfg: Config, s: Server, a: Action)
    requires s.registry <= s.clients.Keys && Enabled(cfg, s, a)
    ensures s.released <= Step(cfg, s, a).released
  {
    hide CanHandle, CanAccept, Keeps, RoomKeys, FlowsAt, Stale, OwnKeys;
  }

  lemma ClosedStaysEmpty(f: Client, g: Client)
    requires LaterClient(f, g)
    ensures f.closed && f.table == map[] ==> g.table == map[]
  {
  }

  lemma StepIsLater(cfg: Config, s: Server, a: Action)
    requires s.registry <= s.clients.Keys && Enabled(cfg, s, a)
    requires forall c | c in s.clients && s.clients[c].closed :: s.clients[c].table == map[]
    ensures Later(s, Step(cfg, s, a))
  {
    hide Enabled, Step, LaterClient, LaterFlow;
    var t := Step(cfg, s, a);
    ReleasedGrows(cfg, s, a);
    forall f | f in s.flows ensures f in t.flows && LaterFlow(s.flows[f], t.flows[f]) {
      StepFlowLater(cfg, s, a, f);
    }
    forall c | c in s.clients
      ensures c in t.clients && LaterClient(s.clients[c], t.clients[c]) && (s.clients[c].closed ==> t.clients[c].table == map[])
    {
      StepClientLater(cfg, s, a, c);
      ClosedStaysEmpty(s.clients[c], t.clients[c]);
    }
  }

  lemma {:induction false} RunIsLater(cfg: Config, s: Server, run: seq<Action>)
    requires cfg.Valid() && Inv(cfg, s) && Runs(cfg, s, run)
    ensures Later(s, After(cfg, s, run))
    decreases |run|
  {
    if run == [] {
    } else {
      var t := Step(cfg, s, run[0]);
      InvIsSafe(cfg, s);
      StepKeepsInv(cfg, s, run[0]);
      hide Inv, Enabled, Step;
      StepIsLater(cfg, s, run[0]);
      RunIsLater(cfg, t, run[1..]);
      LaterTransitive(s, t, After(cfg, t, run[1..]));
    }
  }

  // Time stamps.

  /** The action stamps the flow with this time: it uses it, or opens it. */
  predicate Stamps(a: Action, f: FlowId, t: Time)
  {
    (a.Touch? && a.f == f && a.now == t) || (a.Handle? && a.newId == f && a.opens && a.now == t)
  }

  predicate Touches(a: Action, f: FlowId) { a.Touch? && a.f == f }

  lemma StepStamps(cfg: Config, s: Server, a: Action, f: FlowId)
    requires s.registry <= s.clients.Keys && Enabled(cfg, s, a) && f in Step(cfg, s, a).flows
    ensures var t := Step(cfg, s, a);
            || Stamps(a, f, t.flows[f].lastUse)
            || (f in s.flows && t.flows[f].lastUse == s.flows[f].lastUse && !Touches(a, f))
  {
    hide CanHandle, AfterAccept, CanAccept, AfterReap, AfterCloseTable, AfterReaderFails;
    if a.Handle? {
      HandleStamps(cfg, s, a.c, a.p, a.newId, a.lru, a.target, a.opens, a.now, f);
      hide AfterHandle;
    } else if a.Reap? || a.CloseTable? || a.ReaderFails? {
      StepIsRetiring(cfg, s, a);
      RetiringClient(s, a, 0);
      hide Step, Enabled;
    } else if a.Accept? {
      AcceptKeepsFlows(cfg, s, a.loop, a.c, a.now, a.evict);
    }
  }

  lemma HandleStamps(cfg: Config, s: Server, c: ClientId, p: Packet, newId: FlowId, lru: FlowId, target: AddrPort, opens: bool, now: Time, f: FlowId)
    requires CanHandle(cfg, s, c, p, newId, lru)
    ensures c in s.clients && p.Datagram?
    ensures var t := AfterHandle(cfg, s, c, p, newId, lru, target, opens, now);
            f in t.flows ==> (f == newId && opens && t.flows[f].lastUse == now) || (f in s.flows && t.flows[f].lastUse == s.flows[f].lastUse)
  {
    hide RoomKeys, FlowsAt, CanEvict, IsRebind;
  }

  lemma AcceptKeepsFlows(cfg: Config, s: Server, loop: LoopId, c: ClientId, now: Time, evict: ClientId)
    ensures AfterAccept(cfg, s, loop, c, now, evict).flows == s.flows
  {
  }

  /** The times by which flows are evicted and reaped are true: over every run a flow's last use is the time of
      the last action that used it, or of the packet that opened it when none did. */
  lemma {:induction false} LastUseIsTrue(cfg: Config, s: Server, run: seq<Action>, f: FlowId)
    requires cfg.Valid() && Inv(cfg, s) && Runs(cfg, s, run) && f in After(cfg, s, run).flows
    ensures var t := After(cfg, s, run).flows[f].lastUse;
            || (exists i | 0 <= i < |run| :: Stamps(run[i], f, t) && forall j | i < j < |run| :: !Touches(run[j], f))
            || (f in s.flows && t == s.flows[f].lastUse && forall j | 0 <= j < |run| :: !Touches(run[j], f))
    decreases |run|
  {
    if run != [] {
      var a, more := run[0], run[1..];
      InvIsSafe(cfg, s);
      StepKeepsInv(cfg, s, a);
      InvShape(cfg, s);
      hide Inv, Enabled, Step, Stamps, Touches;
      var u := Step(cfg, s, a);
      LastUseIsTrue(cfg, u, more, f);
      var t := After(cfg, s, run).flows[f].lastUse;
      if i :| 0 <= i < |more| && Stamps(more[i], f, t) && forall j | i < j < |more| :: !Touches(more[j], f) {
        assert Stamps(run[i + 1], f, t);
        forall j | i + 1 < j < |run| ensures !Touches(run[j], f) {
          assert !Touches(more[j - 1], f);
        }
      } else {
        StepStamps(cfg, s, a, f);
        forall j | 0 < j < |run| ensures !Touches(run[j], f) {
          assert !Touches(more[j - 1], f);
        }
        if !Stamps(a, f, t) {
          assert forall j | 0 <= j < |run| :: !Touches(run[j], f);
        }
      }
    }
  }

  lemma LaterTransitive(s: Server, t: Server, u: Server)
    requires Later(s, t) && Later(t, u)
    ensures Later(s, u)
  {
    forall f | f in s.flows ensures f in u.flows && LaterFlow(s.flows[f], u.flows[f]) {
      assert f in t.flows && LaterFlow(s.flows[f], t.flows[f]) && LaterFlow(t.flows[f], u.flows[f]);
    }
  }

  // What one packet may do to a table.

  /** The other ids whose entry changed between two tables. */
  function Gone(before: map<nat, FlowId>, after: map<nat, FlowId>, conid: nat): set<nat>
  {
    set k | k in before && k != conid && (k !in after || after[k] != before[k])
  }

  predicate FewGone(maxFlows: nat, s: Server, before: map<nat, FlowId>, after: map<nat, FlowId>, conid: nat)
  {
    var gone := Gone(before, after, conid);
    && (conid in before ==> gone == {})
    && (gone != {} ==> |before| >= maxFlows)
    && |gone| <= 1
    && (forall k | k in gone :: LeastRecent(s, Others(before, conid), before[k]))
    && (forall k | k in after && k != conid :: k in before && after[k] == before[k])
  }

  /** Only conid's own entry and the one under k may differ. */
  predicate DiffersAt(before: map<nat, FlowId>, after: map<nat, FlowId>, conid: nat, k: nat)
  {
    && (forall j | j in before && j != conid && j != k :: j in after && after[j] == before[j])
    && (forall j | j in after && j != conid :: j in before && after[j] == before[j])
  }

  lemma GoneFromRoom(cfg: Config, s: Server, before: map<nat, FlowId>, conid: nat, lru: FlowId, after: map<nat, FlowId>)
    requires |before| <= cfg.maxFlows && CanEvict(cfg, s, before, conid, lru)
    requires var k := if Full(cfg, s, before, conid, lru) then s.flows[lru].conid else conid;
             DiffersAt(before, after, conid, k)
    ensures FewGone(cfg.maxFlows, s, before, after, conid)
  {
    var gone := Gone(before, after, conid);
    if |Others(before, conid)| >= cfg.maxFlows {
      var k := s.flows[lru].conid;
      assert before[k] == lru;
      if conid in before {
        OneLess(before, conid);
      } else if gone != {} {
        assert gone == {k};
        assert Others(before, conid) == before;
      }
    } else {
      assert gone == {};
    }
  }

  lemma RoomDiffers(cfg: Config, s: Server, before: map<nat, FlowId>, conid: nat, lru: FlowId, room: map<nat, FlowId>, id: FlowId)
    requires room == before - RoomKeys(cfg, s, before, conid, lru)
    ensures var k := if Full(cfg, s, before, conid, lru) then s.flows[lru].conid else conid;
            DiffersAt(before, room, conid, k) && DiffersAt(before, room[conid := id], conid, k)
  {
    hide Full;
    var keys := RoomKeys(cfg, s, before, conid, lru);
    forall j ensures j in room <==> j in before && j !in keys {
    }
  }

  lemma HandleTable(cfg: Config, s: Server, c: ClientId, p: Packet, newId: FlowId, lru: FlowId, target: AddrPort, opens: bool, now: Time)
    requires c in s.clients && p.Datagram? && !s.clients[c].closed && !Keeps(s, s.clients[c].table, p)
    ensures var t := AfterHandle(cfg, s, c, p, newId, lru, target, opens, now);
            var room := s.clients[c].table - RoomKeys(cfg, s, s.clients[c].table, p.conid, lru);
            && c in t.clients
            && t.clients[c].table == (if opens then room[p.conid := newId] else room)
            && (opens ==> newId in t.flows && t.flows[newId].orig == p.addr)
  {
    hide IsRebind, FlowsAt, RoomKeys;
  }

  /** handle keeps every other flow of the client unless the table is full without the packet's own
      entry; then it evicts exactly one, and that one is least recently used. A packet for an id the
      client already uses, rebinding or changing address included, evicts nobody else. */
  lemma HandleEvicts(cfg: Config, s: Server, c: ClientId, p: Packet, newId: FlowId, lru: FlowId, target: AddrPort, opens: bool, now: Time)
    requires cfg.Valid() && Inv(cfg, s) && p.Datagram? && CanHandle(cfg, s, c, p, newId, lru)
    ensures var before := s.clients[c].table;
            var t := AfterHandle(cfg, s, c, p, newId, lru, target, opens, now);
            c in t.clients && var after := t.clients[c].table;
            && FewGone(cfg.maxFlows, s, before, after, p.conid)
            && |after| <= cfg.maxFlows
            && (Gone(before, after, p.conid) != {} ==> |before| == cfg.maxFlows)
            && (opens && !s.clients[c].closed ==> p.conid in after && after[p.conid] in t.flows && t.flows[after[p.conid]].orig == p.addr)
  {
    var before := s.clients[c].table;
    var t := AfterHandle(cfg, s, c, p, newId, lru, target, opens, now);
    HandleKeepsInv(cfg, s, c, p, newId, lru, target, opens, now);
    TableBounded(cfg, s, c);
    hide Inv;
    if !s.clients[c].closed && !Keeps(s, before, p) {
      HandleTable(cfg, s, c, p, newId, lru, target, opens, now);
      TableBounded(cfg, t, c);
      hide AfterHandle, FewGone, RoomKeys, CanEvict;
      RenewEvicts(cfg, s, before, p.conid, lru, newId);
    } else {
      SameTable(cfg, s, before, p.conid);
    }
  }

  /** Reaping takes exactly the idle flows: those last used before the cutoff leave the table, each with one
      closeFlow call to come, and all others stay. */
  lemma ReapMeans(cfg: Config, s: Server, c: ClientId, cutoff: Time)
    requires Inv(cfg, s) && c in s.clients
    ensures var before, t := s.clients[c].table, AfterReap(s, c, cutoff);
            c in t.clients && var after := t.clients[c].table;
            && (forall k | k in before :: before[k] in s.flows && (k in after <==> s.flows[before[k]].lastUse >= cutoff))
            && (forall k | k in after :: k in before && after[k] == before[k])
            && (forall f :: t.closing[f] == s.closing[f] + if IdleSince(s, before, f, cutoff) then 1 else 0)
  {
    var before, t := s.clients[c].table, AfterReap(s, c, cutoff);
    assert TableOK(cfg, s, c, s.clients[c]);
    forall k | k in before ensures before[k] in s.flows && s.flows[before[k]].conid == k {
      assert EntryOK(s, c, k, before[k]);
    }
    hide Inv;
    forall f ensures f in FlowsAt(before, Stale(s, before, cutoff)) <==> IdleSince(s, before, f, cutoff) {
      if IdleSince(s, before, f, cutoff) {
        assert s.flows[f].conid in Stale(s, before, cutoff);
      }
    }
  }

  predicate IdleSince(s: Server, table: map<nat, FlowId>, f: FlowId, cutoff: Time)
  {
    f in s.flows && s.flows[f].conid in table && table[s.flows[f].conid] == f && s.flows[f].lastUse < cutoff
  }

  lemma RenewEvicts(cfg: Config, s: Server, before: map<nat, FlowId>, conid: nat, lru: FlowId, id: FlowId)
    requires |before| <= cfg.maxFlows && CanEvict(cfg, s, before, conid, lru)
    ensures var room := before - RoomKeys(cfg, s, before, conid, lru);
            FewGone(cfg.maxFlows, s, before, room, conid) && FewGone(cfg.maxFlows, s, before, room[conid := id], conid)
  {
    hide FewGone, DiffersAt, CanEvict, RoomKeys, Full;
    var room := before - RoomKeys(cfg, s, before, conid, lru);
    RoomDiffers(cfg, s, before, conid, lru, room, id);
    GoneFromRoom(cfg, s, before, conid, lru, room);
    GoneFromRoom(cfg, s, before, conid, lru, room[conid := id]);
  }

  lemma SameTable(cfg: Config, s: Server, table: map<nat, FlowId>, conid: nat)
    ensures FewGone(cfg.maxFlows, s, table, table, conid)
  {
    assert Gone(table, table, conid) == {};
  }

  lemma TableBounded(cfg: Config, s: Server, c: ClientId)
    requires Inv(cfg, s) && c in s.clients
    ensures |s.clients[c].table| <= cfg.maxFlows
  {
    assert TableOK(cfg, s, c, s.clients[c]);
  }

  // Draining.

  /** Nothing left to do for the goroutines that close. */
  predicate Quiet(s: Server)
  {
    && s.closing == multiset{}
    && (forall f | f in s.flows :: !s.flows[f].life.Claimed?)
    && (forall c | c in s.clients && (c in s.doomed || s.clients[c].done) :: s.clients[c].closed)
  }

  /** Once Server.Close has run and the closing goroutines have finished, the counter is back at zero. */
  lemma QuietMeansZero(cfg: Config, s: Server)
    requires Inv(cfg, s) && s.closed && Quiet(s)
    ensures s.counter == 0
    ensures forall f | f in s.flows :: s.flows[f].life.Closed?
  {
    forall c | c in s.clients ensures s.clients[c].table == map[] {
      assert ClientOK(s, c) && TableOK(cfg, s, c, s.clients[c]);
    }
    forall f | f in s.flows ensures s.flows[f].life.Closed? {
      hide TableOK, ClientOK, Shape;
      assert FlowOK(s, f);
      assert !InTable(s, f);
    }
    assert Live(s) == {};
  }

  function NotDone(s: Server): set<ClientId> { set c | c in s.clients && !s.clients[c].done }
  function NotClosed(s: Server): set<ClientId> { set c | c in s.clients && !s.clients[c].closed }
  function OpenFlows(s: Server): set<FlowId> { set f | f in s.flows && s.flows[f].life.Open? }

  /** While the closing goroutines are not finished, one of them can take a step. */
  lemma ClosingProgress(cfg: Config, s: Server) returns (a: Action)
    requires s.registry <= s.clients.Keys && !Quiet(s)
    requires forall f | f in s.closing :: f in s.flows
    requires forall c | c in s.clients && s.clients[c].closed :: s.clients[c].done
    ensures Enabled(cfg, s, a) && IsClosing(a)
  {
    if c :| c in s.clients && (c in s.doomed || s.clients[c].done) && !s.clients[c].closed {
      a := if s.clients[c].done then CloseTable(c) else CloseBegin(c);
    } else if f :| f in s.flows && s.flows[f].life.Claimed? {
      a := CloseFinish(f);
    } else {
      var f :| f in s.closing;
      a := CloseClaim(f);
    }
  }

  predicate IsClosing(a: Action) { a.CloseBegin? || a.CloseTable? || a.CloseFinish? || a.CloseClaim? }

  /** Less is left to do: fewer clients to begin or finish closing, fewer flows to close or claim, or fewer calls to run. */
  predicate LessLeft(s: Server, t: Server)
  {
    || NotDone(t) < NotDone(s)
    || (NotDone(t) == NotDone(s) && NotClosed(t) < NotClosed(s))
    || (NotDone(t) == NotDone(s) && NotClosed(t) == NotClosed(s) && Live(t) < Live(s))
    || (NotDone(t) == NotDone(s) && NotClosed(t) == NotClosed(s) && Live(t) == Live(s) && OpenFlows(t) < OpenFlows(s))
    || (NotDone(t) == NotDone(s) && NotClosed(t) == NotClosed(s) && Live(t) == Live(s) && OpenFlows(t) == OpenFlows(s) && |t.closing| < |s.closing|)
  }

  /** A closing step leaves less to do. */
  lemma ClosingShrinks(cfg: Config, s: Server, a: Action)
    requires s.registry <= s.clients.Keys && Enabled(cfg, s, a) && IsClosing(a)
    ensures var t := Step(cfg, s, a); t.closed == s.closed && t.flows.Keys == s.flows.Keys && LessLeft(s, t)
  {
    hide AfterHandle, CanHandle, AfterAccept, CanAccept, AfterReap, AfterCloseTable, AfterReaderFails, AfterCloseClaim, AfterCloseFinish;
    hide NotDone, NotClosed, Live, OpenFlows;
    match a
    case CloseBegin(c) => Begun(s, c);
    case CloseTable(c) => TableClosed(s, c);
    case CloseFinish(f) => FlowFinished(s, f);
    case CloseClaim(f) => FlowClaimed(s, f);
  }

  lemma Begun(s: Server, c: ClientId)
    requires c in s.clients && !s.clients[c].done
    ensures NotDone(s.(clients := s.clients[c := s.clients[c].(done := true)], doomed := s.doomed - {c})) < NotDone(s)
  {
    var t := s.(clients := s.clients[c := s.clients[c].(done := true)], doomed := s.doomed - {c});
    assert c in NotDone(s) && c !in NotDone(t) && NotDone(t) <= NotDone(s);
  }

  lemma FlowFinished(s: Server, f: FlowId)
    requires f in s.flows && s.flows[f].life.Claimed?
    ensures var t := AfterCloseFinish(s, f);
            NotDone(t) == NotDone(s) && NotClosed(t) == NotClosed(s) && t.closed == s.closed && t.flows.Keys == s.flows.Keys && Live(t) < Live(s)
  {
    var t := AfterCloseFinish(s, f);
    assert f in Live(s) && f !in Live(t) && Live(t) <= Live(s);
  }

  lemma TableClosed(s: Server, c: ClientId)
    requires c in s.clients && s.clients[c].done && !s.clients[c].closed
    ensures var t := AfterCloseTable(s, c);
            NotDone(t) == NotDone(s) && NotClosed(t) < NotClosed(s) && t.closed == s.closed && t.flows == s.flows
  {
    var t := AfterCloseTable(s, c);
    assert c in NotClosed(s) && c !in NotClosed(t) && NotClosed(t) <= NotClosed(s);
  }

  lemma FlowClaimed(s: Server, f: FlowId)
    requires f in s.flows && f in s.closing
    ensures var t := AfterCloseClaim(s, f);
            && NotDone(t) == NotDone(s) && NotClosed(t) == NotClosed(s)
            && Live(t) == Live(s) && t.closed == s.closed && t.flows.Keys == s.flows.Keys
            && (OpenFlows(t) < OpenFlows(s) || (OpenFlows(t) == OpenFlows(s) && |t.closing| < |s.closing|))
  {
    var t := AfterCloseClaim(s, f);
    if s.flows[f].life.Open? {
      assert f in OpenFlows(s) && f !in OpenFlows(t) && OpenFlows(t) <= OpenFlows(s);
    } else {
      assert OpenFlows(t) == OpenFlows(s);
    }
  }

  /** From any state the server can be in after Close, letting the closing goroutines run brings the
      counter to zero, in finitely many of their steps. */
  lemma {:induction false} Drains(cfg: Config, s: Server) returns (run: seq<Action>)
    requires cfg.Valid() && Inv(cfg, s) && s.closed
    ensures Runs(cfg, s, run) && forall i | 0 <= i < |run| :: IsClosing(run[i])
    ensures var t := After(cfg, s, run); Quiet(t) && t.counter == 0 && t.flows.Keys == s.flows.Keys
    decreases NotDone(s), NotClosed(s), Live(s), OpenFlows(s), |s.closing|
  {
    hide Inv, Quiet, Step, Enabled, NotDone, NotClosed, Live, OpenFlows, IsClosing;
    if Quiet(s) {
      QuietMeansZero(cfg, s);
      run := [];
    } else {
      ClosedAreDone(cfg, s);
      var a := ClosingProgress(cfg, s);
      var t := Step(cfg, s, a);
      StepKeepsInv(cfg, s, a);
      ClosingShrinks(cfg, s, a);
      var rest := Drains(cfg, t);
      run := [a] + rest;
      assert run[1..] == rest;
    }
  }

  /** After Server.Close no step of any goroutine, packets and reaping included, adds a client that is still
      to be closed, and each step of closing one takes a client off. */
  lemma ClosedOnlyShrinks(cfg: Config, s: Server, a: Action)
    requires s.registry <= s.clients.Keys && Enabled(cfg, s, a) && s.closed
    ensures var t := Step(cfg, s, a);
            && t.closed && NotDone(t) <= NotDone(s) && NotClosed(t) <= NotClosed(s)
            && (a.CloseBegin? ==> NotDone(t) < NotDone(s)) && (a.CloseTable? ==> NotClosed(t) < NotClosed(s))
  {
    var t := Step(cfg, s, a);
    hide NotDone, NotClosed, Step, Enabled;
    StepClientLater(cfg, s, a, 0);
    forall c | c in s.clients ensures c in t.clients && LaterClient(s.clients[c], t.clients[c]) {
      StepClientLater(cfg, s, a, c);
    }
    FewerLeft(s, t);
    if a.CloseBegin? || a.CloseTable? {
      ClosingOne(cfg, s, a);
    }
  }

  lemma FewerLeft(s: Server, t: Server)
    requires t.clients.Keys == s.clients.Keys && forall c | c in s.clients :: LaterClient(s.clients[c], t.clients[c])
    ensures NotDone(t) <= NotDone(s) && NotClosed(t) <= NotClosed(s)
  {
  }

  lemma ClosingOne(cfg: Config, s: Server, a: Action)
    requires s.registry <= s.clients.Keys && Enabled(cfg, s, a) && (a.CloseBegin? || a.CloseTable?)
    ensures var t := Step(cfg, s, a);
            (a.CloseBegin? ==> NotDone(t) < NotDone(s)) && (a.CloseTable? ==> NotClosed(t) < NotClosed(s))
  {
    hide AfterHandle, CanHandle, AfterAccept, CanAccept, AfterReap, AfterCloseTable, AfterReaderFails, AfterCloseClaim, AfterCloseFinish;
    hide NotDone, NotClosed;
    if a.CloseBegin? {
      Begun(s, a.c);
    } else {
      TableClosed(s, a.c);
    }
  }

  /** The steps of a run that begin or finish closing a client. */
  function Closings(run: seq<Action>): nat
  {
    if run == [] then 0 else (if run[0].CloseBegin? || run[0].CloseTable? then 1 else 0) + Closings(run[1..])
  }

  lemma Smaller(a: set<ClientId>, b: set<ClientId>)
    requires a <= b
    ensures |a| <= |b| && (a < b ==> |a| < |b|)
    decreases b
  {
    SmallerSet(a, b);
    if a < b {
      var x :| x in b && x !in a;
      SmallerSet(a, b - {x});
      assert |b - {x}| == |b| - 1;
    }
  }

  /** Along any interleaving after Server.Close the work of closing clients only shrinks, by one with every
      step of it, so there are only so many of those steps. */
  lemma {:induction false} ClosingIsBounded(cfg: Config, s: Server, run: seq<Action>)
    requires cfg.Valid() && Inv(cfg, s) && s.closed && Runs(cfg, s, run)
    ensures var t := After(cfg, s, run);
            && t.closed && Inv(cfg, t)
            && |NotDone(t)| + |NotClosed(t)| + Closings(run) <= |NotDone(s)| + |NotClosed(s)|
    decreases |run|
  {
    if run != [] {
      var a := run[0];
      var u := Step(cfg, s, a);
      StepKeepsInv(cfg, s, a);
      hide Inv, Step, Enabled, NotDone, NotClosed;
      assert s.registry <= s.clients.Keys by { ClosedAreDone(cfg, s); }
      ClosedOnlyShrinks(cfg, s, a);
      Smaller(NotDone(u), NotDone(s));
      Smaller(NotClosed(u), NotClosed(s));
      ClosingIsBounded(cfg, u, run[1..]);
    }
  }

  /** Whatever interleaving follows Server.Close, with clients that still send packets included, the closing
      goroutines can still bring the counter to zero from where it led. */
  lemma DrainsFromAnywhere(cfg: Config, s: Server, run: seq<Action>) returns (rest: seq<Action>)
    requires cfg.Valid() && Inv(cfg, s) && s.closed && Runs(cfg, s, run)
    ensures var t := After(cfg, s, run);
            && |NotDone(t)| + |NotClosed(t)| + Closings(run) <= |NotDone(s)| + |NotClosed(s)|
            && Runs(cfg, t, rest) && (forall i | 0 <= i < |rest| :: IsClosing(rest[i]))
            && Quiet(After(cfg, t, rest)) && After(cfg, t, rest).counter == 0
  {
    hide Inv, Quiet, After, Runs, NotDone, NotClosed;
    ClosingIsBounded(cfg, s, run);
    rest := Drains(cfg, After(cfg, s, run));
  }

  lemma ClosedAreDone(cfg: Config, s: Server)
    requires Inv(cfg, s)
    ensures forall c | c in s.clients && s.clients[c].closed :: s.clients[c].done
    ensures s.registry <= s.clients.Keys && forall f | f in s.closing :: f in s.flows
  {
    forall c | c in s.clients && s.clients[c].closed ensures s.clients[c].done {
      assert TableOK(cfg, s, c, s.clients[c]);
    }
  }

  /** Once the server and all its clients are closed nothing opens again: the counter never rises. */
  lemma ClosedForGood(cfg: Config, s: Server, a: Action)
    requires s.registry <= s.clients.Keys && Enabled(cfg, s, a)
    requires s.closed && forall c | c in s.clients :: s.clients[c].closed
    ensures var t := Step(cfg, s, a);
            t.closed && (forall c | c in t.clients :: t.clients[c].closed) && t.counter <= s.counter
  {
    hide RoomKeys, FlowsAt, CanEvict, IsRebind, InTable, OwnKeys, Stale, Oldest;
  }

  // The cap on clients.

  predicate Idle(s: Server) { forall l | l in s.loops :: s.loops[l].None? }

  /** The cap with one accept loop: at most one client too many, and only the one being evicted. */
  predicate Capped(cfg: Config, s: Server, l: LoopId)
  {
    && s.loops.Keys == {l}
    && match s.loops[l]
       case None => |s.registry| <= cfg.maxClients
       case Some(v) => |s.registry - {v}| <= cfg.maxClients
  }

  lemma CappedAccept(cfg: Config, s: Server, loop: LoopId, c: ClientId, now: Time, evict: ClientId, l: LoopId)
    requires s.registry <= s.clients.Keys && CanAccept(cfg, s, loop, c, evict) && Capped(cfg, s, l)
    ensures Capped(cfg, AfterAccept(cfg, s, loop, c, now, evict), l)
  {
    var t := AfterAccept(cfg, s, loop, c, now, evict);
    assert loop in s.loops.Keys && loop == l;
    if !s.closed {
      assert t.loops.Keys == {l};
      if |s.registry| >= cfg.maxClients {
        assert evict in s.registry && c !in s.registry;
        assert t.registry - {evict} == s.registry - {evict} + {c};
      }
    }
  }

  lemma CappedFewer(cfg: Config, s: Server, t: Server, l: LoopId)
    requires Capped(cfg, s, l) && t.registry <= s.registry && t.loops == s.loops
    ensures Capped(cfg, t, l)
  {
    SmallerSet(t.registry, s.registry);
    if s.loops[l].Some? {
      SmallerSet(t.registry - {s.loops[l].value}, s.registry - {s.loops[l].value});
    }
  }

  lemma CappedStep(cfg: Config, s: Server, a: Action, l: LoopId)
    requires s.registry <= s.clients.Keys && Enabled(cfg, s, a) && Capped(cfg, s, l)
    ensures Capped(cfg, Step(cfg, s, a), l)
  {
    match a
    case Accept(loop, c, now, evict) =>
      hide Capped, AfterAccept, CanAccept;
      CappedAccept(cfg, s, loop, c, now, evict, l);
    case AcceptDone(loop) =>
      var t := Step(cfg, s, a);
      assert loop in s.loops.Keys && loop == l;
      assert t.loops.Keys == {l};
      assert s.registry - {s.loops[l].value} == s.registry;
    case _ =>
      RegistryOnlyShrinks(cfg, s, a);
      hide Capped, Step, Enabled;
      CappedFewer(cfg, s, Step(cfg, s, a), l);
  }

  lemma RegistryOnlyShrinks(cfg: Config, s: Server, a: Action)
    requires s.registry <= s.clients.Keys && Enabled(cfg, s, a) && !a.Accept? && !a.AcceptDone?
    ensures Step(cfg, s, a).registry <= s.registry && Step(cfg, s, a).loops == s.loops
  {
    if a.Handle? {
      HandleRegistry(cfg, s, a.c, a.p, a.newId, a.lru, a.target, a.opens, a.now);
    }
    hide AfterHandle, OwnKeys, Stale, FlowsAt;
  }

  lemma HandleRegistry(cfg: Config, s: Server, c: ClientId, p: Packet, newId: FlowId, lru: FlowId, target: AddrPort, opens: bool, now: Time)
    requires c in s.clients && p.Datagram?
    ensures var t := AfterHandle(cfg, s, c, p, newId, lru, target, opens, now); t.registry == s.registry && t.loops == s.loops
  {
    hide RoomKeys, FlowsAt, Keeps;
  }

  lemma SmallerSet(a: set<ClientId>, b: set<ClientId>)
    requires a <= b
    ensures |a| <= |b|
  {
    assert b == a + (b - a);
  }

  lemma {:induction false} CappedRun(cfg: Config, s: Server, run: seq<Action>, l: LoopId)
    requires Runs(cfg, s, run) && Capped(cfg, s, l)
    ensures Capped(cfg, After(cfg, s, run), l)
    decreases |run|
  {
    if run != [] {
      hide Capped, Enabled, Step;
      CappedStep(cfg, s, run[0], l);
      CappedRun(cfg, Step(cfg, s, run[0]), run[1..], l);
    }
  }

  /** Two loops that reach the limit before the oldest client has been removed both choose it. */
  lemma BothEvict(cfg: Config, s: Server, a: LoopId, b: LoopId, v: ClientId, c1: ClientId, c2: ClientId, now: Time)
    requires s.registry <= s.clients.Keys && !s.closed && |s.registry| == cfg.maxClients
    requires a != b && a in s.loops && b in s.loops && Idle(s)
    requires Oldest(s, v) && s.clients[v].since <= now
    requires c1 != c2 && c1 !in s.clients && c2 !in s.clients
    ensures CanAccept(cfg, s, a, c1, v)
    ensures var s1 := AfterAccept(cfg, s, a, c1, now, v);
            && s1.registry <= s1.clients.Keys && CanAccept(cfg, s1, b, c2, v)
            && var s2 := AfterAccept(cfg, s1, b, c2, now, v);
            && s2.registry == s.registry + {c1, c2} && s2.registry <= s2.clients.Keys
            && s2.loops == s.loops[a := Some(v)][b := Some(v)]
            && v in s2.clients && s2.clients[v] == s.clients[v] && v in s.registry
  {
    var s1 := AfterAccept(cfg, s, a, c1, now, v);
    assert |s1.registry| == |s.registry| + 1;
    assert Oldest(s1, v);
  }

  /** With a second accept loop the cap breaks: only one place is freed for two new clients. */
  lemma TwoLoopsOverflow(cfg: Config, s: Server, a: LoopId, b: LoopId, v: ClientId, c1: ClientId, c2: ClientId, now: Time)
    returns (run: seq<Action>)
    requires s.registry <= s.clients.Keys && !s.closed && |s.registry| == cfg.maxClients
    requires a != b && a in s.loops && b in s.loops && Idle(s)
    requires Oldest(s, v) && !s.clients[v].done && !s.clients[v].closed && s.clients[v].since <= now
    requires c1 != c2 && c1 !in s.clients && c2 !in s.clients
    ensures Runs(cfg, s, run)
    ensures var t := After(cfg, s, run); Idle(t) && |t.registry| == cfg.maxClients + 1
  {
    hide AfterAccept, CanAccept, Oldest, Step, Enabled, Runs, After;
    BothEvict(cfg, s, a, b, v, c1, c2, now);
    var s1 := AfterAccept(cfg, s, a, c1, now, v);
    var s2 := AfterAccept(cfg, s1, b, c2, now, v);
    var rest := EvictOnce(cfg, s2, a, b, v);
    var r1 := [Accept(b, c2, now, v)] + rest;
    run := [Accept(a, c1, now, v)] + r1;
    assert r1[1..] == rest && run[1..] == r1;
    AcceptIs(cfg, s1, b, c2, now, v);
    OneStep(cfg, s1, r1, s2);
    AcceptIs(cfg, s, a, c1, now, v);
    OneStep(cfg, s, run, s1);
    TwoForOne(s.registry, c1, c2, v);
  }

  lemma AcceptIs(cfg: Config, s: Server, loop: LoopId, c: ClientId, now: Time, evict: ClientId)
    requires s.registry <= s.clients.Keys && CanAccept(cfg, s, loop, c, evict)
    ensures Enabled(cfg, s, Accept(loop, c, now, evict))
    ensures Step(cfg, s, Accept(loop, c, now, evict)) == AfterAccept(cfg, s, loop, c, now, evict)
  {
    hide AfterAccept, CanAccept;
  }

  lemma TwoForOne(registry: set<ClientId>, c1: ClientId, c2: ClientId, v: ClientId)
    requires v in registry && c1 !in registry && c2 !in registry && c1 != c2
    ensures |registry + {c1, c2} - {v}| == |registry| + 1
  {
    assert registry + {c1, c2} - {v} == registry - {v} + {c1} + {c2};
  }

  lemma EvictOnce(cfg: Config, s: Server, a: LoopId, b: LoopId, v: ClientId) returns (run: seq<Action>)
    requires s.registry <= s.clients.Keys && a != b && a in s.loops && b in s.loops
    requires s.loops[a] == Some(v) && s.loops[b] == Some(v)
    requires v in s.clients && !s.clients[v].done && !s.clients[v].closed
    ensures Runs(cfg, s, run)
    ensures var t := After(cfg, s, run); t.registry == s.registry - {v} && t.loops == s.loops[a := None][b := None]
  {
    var s3 := s.(clients := s.clients[v := s.clients[v].(done := true)], doomed := s.doomed - {v});
    var s4 := AfterCloseTable(s3, v);
    var s5 := s4.(registry := s4.registry - {v});
    var s6 := s5.(loops := s5.loops[a := None]);
    var s7 := s6.(loops := s6.loops[b := None]);
    var r7: seq<Action> := [];
    var r6 := [AcceptDone(b)] + r7;
    var r5 := [AcceptDone(a)] + r6;
    var r4 := [Unregister(v)] + r5;
    var r3 := [CloseTable(v)] + r4;
    run := [CloseBegin(v)] + r3;
    assert r6[1..] == r7 && r5[1..] == r6 && r4[1..] == r5 && r3[1..] == r4 && run[1..] == r3;
    OneStep(cfg, s6, r6, s7);
    OneStep(cfg, s5, r5, s6);
    OneStep(cfg, s4, r4, s5);
    OneStep(cfg, s3, r3, s4);
    OneStep(cfg, s, run, s3);
  }

  lemma OneStep(cfg: Config, s: Server, run: seq<Action>, t: Server)
    requires run != [] && s.registry <= s.clients.Keys && Enabled(cfg, s, run[0]) && Step(cfg, s, run[0]) == t && Runs(cfg, t, run[1..])
    ensures Runs(cfg, s, run) && After(cfg, s, run) == After(cfg, t, run[1..])
  {
  }

  // Filling the server up to its limit, to reach such a state from the start.

  function Filled(loops: set<LoopId>, n: nat): Server {
    Init(loops).(clients := map c | c in FirstIds(n) :: Client(0, map[], false, false),
                 registry := FirstIds(n))
  }

  function FirstIds(n: nat): (ids: set<ClientId>)
    ensures forall c | c in ids :: c < n
    ensures |ids| == n && (n > 0 ==> 0 in ids)
  {
    if n == 0 then {} else FirstIds(n - 1) + {n - 1}
  }

  function Filling(a: LoopId, from: nat, n: nat): seq<Action>
    requires from <= n
    decreases n - from
  {
    if from == n then [] else [Accept(a, from, 0, 0)] + Filling(a, from + 1, n)
  }

  lemma {:induction false} FillRun(cfg: Config, loops: set<LoopId>, a: LoopId, from: nat, tail: seq<Action>)
    requires a in loops && from <= cfg.maxClients && Runs(cfg, Filled(loops, cfg.maxClients), tail)
    ensures var run := Filling(a, from, cfg.maxClients) + tail;
            && Runs(cfg, Filled(loops, from), run)
            && After(cfg, Filled(loops, from), run) == After(cfg, Filled(loops, cfg.maxClients), tail)
    decreases cfg.maxClients - from
  {
    hide Filled, Step, Enabled;
    var run := Filling(a, from, cfg.maxClients) + tail;
    if from == cfg.maxClients {
      assert run == tail;
    } else {
      FillRun(cfg, loops, a, from + 1, tail);
      assert run[1..] == Filling(a, from + 1, cfg.maxClients) + tail;
      FillStep(cfg, loops, a, from);
      OneStep(cfg, Filled(loops, from), run, Filled(loops, from + 1));
    }
  }

  lemma FillStep(cfg: Config, loops: set<LoopId>, a: LoopId, n: nat)
    requires a in loops && n < cfg.maxClients
    ensures var s := Filled(loops, n);
            s.registry <= s.clients.Keys && Enabled(cfg, s, Accept(a, n, 0, 0)) && Step(cfg, s, Accept(a, n, 0, 0)) == Filled(loops, n + 1)
  {
    var s := Filled(loops, n);
    assert n !in FirstIds(n) && |FirstIds(n)| == n;
    AcceptIs(cfg, s, a, n, 0, 0);
    FilledNext(loops, n);
    hide Step, Enabled, Filled, Oldest;
    assert s.loops[a := None] == s.loops;
  }

  lemma FilledNext(loops: set<LoopId>, n: nat)
    ensures var s := Filled(loops, n);
            && Filled(loops, n + 1) == s.(clients := s.clients[n := Client(0, map[], false, false)], registry := s.registry + {n})
            && (forall l | l in s.loops :: s.loops[l] == None) && s.loops.Keys == loops && |s.registry| == n && !s.closed
  {
    var s := Filled(loops, n);
    assert Filled(loops, n + 1).clients == s.clients[n := Client(0, map[], false, false)];
  }

  /** The cap: whenever no accept loop is waiting for an eviction, at most maxClients are listed. */
  ghost predicate CapHolds(cfg: Config, loops: set<LoopId>)
  {
    forall run | Runs(cfg, Init(loops), run) :: Idle(After(cfg, Init(loops), run)) ==> |After(cfg, Init(loops), run).registry| <= cfg.maxClients
  }

  /** It holds exactly when the server listens on at most one address. */
  lemma CapHoldsIffOneLoop(cfg: Config, loops: set<LoopId>)
    requires cfg.Valid()
    ensures CapHolds(cfg, loops) <==> |loops| <= 1
  {
    if |loops| <= 1 {
      forall run | Runs(cfg, Init(loops), run) && Idle(After(cfg, Init(loops), run))
        ensures |After(cfg, Init(loops), run).registry| <= cfg.maxClients
      {
        OneLoopCap(cfg, loops, run);
      }
    } else {
      var run := Overflow(cfg, loops);
      assert Runs(cfg, Init(loops), run);
    }
  }

  lemma OneLoopCap(cfg: Config, loops: set<LoopId>, run: seq<Action>)
    requires |loops| <= 1 && Runs(cfg, Init(loops), run) && Idle(After(cfg, Init(loops), run))
    ensures |After(cfg, Init(loops), run).registry| <= cfg.maxClients
  {
    if l :| l in loops {
      assert |loops - {l}| == 0;
      assert loops == {l};
      CappedRun(cfg, Init(loops), run, l);
      assert l in After(cfg, Init(loops), run).loops.Keys;
    } else {
      NoLoops(cfg, Init(loops), run);
    }
  }

  lemma {:induction false} NoLoops(cfg: Config, s: Server, run: seq<Action>)
    requires Runs(cfg, s, run) && s.loops.Keys == {} && s.registry == {}
    ensures After(cfg, s, run).registry == {}
    decreases |run|
  {
    if run != [] {
      var a := run[0];
      assert s.loops == map[];
      RegistryOnlyShrinks(cfg, s, a);
      hide Step, Enabled;
      NoLoops(cfg, Step(cfg, s, a), run[1..]);
    }
  }

  lemma Overflow(cfg: Config, loops: set<LoopId>) returns (run: seq<Action>)
    requires cfg.Valid() && |loops| > 1
    ensures Runs(cfg, Init(loops), run)
    ensures var t := After(cfg, Init(loops), run); Idle(t) && |t.registry| > cfg.maxClients
  {
    var a :| a in loops;
    assert |loops - {a}| == |loops| - 1;
    var b :| b in loops - {a};
    var m := cfg.maxClients;
    var s := Filled(loops, m);
    assert 0 in s.clients;
    var tail := TwoLoopsOverflow(cfg, s, a, b, 0, m, m + 1, 0);
    FillRun(cfg, loops, a, 0, tail);
    run := Filling(a, 0, m) + tail;
    assert Filled(loops, 0) == Init(loops) by {
      assert Filled(loops, 0).clients == map[];
      assert Filled(loops, 0).registry == {};
    }
  }
}
