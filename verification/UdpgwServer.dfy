/** The server object of the UDP gateway: its locked sections as methods that update its fields,
    each proved to be the step of the same name in UdpgwFlows. */
module UdpgwServer {
  import opened Bytes
  import opened UdpgwProto
  import opened Wrappers
  import opened UdpgwFlows

  /** An IPv4-mapped IPv6 address stands for its IPv4 address when a socket is opened. */
  function Unmap(a: AddrPort): AddrPort
    requires a.Valid()
  {
    if a.V6? && a.ip[..10] == [0, 0, 0, 0, 0, 0, 0, 0, 0, 0] && a.ip[10] == 255 && a.ip[11] == 255
    then V4(a.ip[12..], a.port)
    else a
  }

  /** Where the datagrams of a flow really go. */
  function TargetOf(p: Packet, dns: Option<AddrPort>): AddrPort
    requires p.Datagram? && p.addr.Valid() && (dns.Some? ==> dns.value.Valid())
  {
    Unmap(if IsDNS(p.flags) && dns.Some? then dns.value else p.addr)
  }

  /** No socket is ever opened for an IPv4-mapped IPv6 address: such an address becomes the IPv4 address of its
      last four bytes, with the same port, and any other address stays as it is. */
  lemma UnmapMeans(a: AddrPort)
    requires a.Valid()
    ensures var mapped := a.V6? && (forall i | 0 <= i < 10 :: a.ip[i] == 0) && a.ip[10] == 255 && a.ip[11] == 255;
            Unmap(a) == if mapped then V4([a.ip[12], a.ip[13], a.ip[14], a.ip[15]], a.port) else a
    ensures var t := Unmap(a);
            t.Valid() && !(t.V6? && (forall i | 0 <= i < 10 :: t.ip[i] == 0) && t.ip[10] == 255 && t.ip[11] == 255)
  {
    if a.V6? {
      var zeros: seq<byte> := [0, 0, 0, 0, 0, 0, 0, 0, 0, 0];
      assert (forall i | 0 <= i < 10 :: a.ip[i] == 0) ==> a.ip[..10] == zeros;
      assert a.ip[..10] == zeros ==> forall i | 0 <= i < 10 :: a.ip[i] == a.ip[..10][i] == 0;
      assert a.ip[12..] == [a.ip[12], a.ip[13], a.ip[14], a.ip[15]];
    }
  }

  /** A flow goes to the resolver exactly if the packet that opens it has the DNS bit, the third lowest, and
      there is a resolver; otherwise it goes to the packet's own address. */
  lemma TargetMeans(p: Packet, dns: Option<AddrPort>)
    requires p.Datagram? && p.addr.Valid() && (dns.Some? ==> dns.value.Valid())
    ensures TargetOf(p, dns) == Unmap(if p.flags / 4 % 2 == 1 && dns.Some? then dns.value else p.addr)
  {
    hide Unmap;
    FlagBits(p.flags);
  }

  class GatewayServer {
    const cfg: Config
    var clients: map<ClientId, Client>
    var registry: set<ClientId>
    var flows: map<FlowId, Flow>
    var counter: int
    var closing: multiset<FlowId>
    var readers: set<FlowId>
    var doomed: set<ClientId>
    var closed: bool
    var loops: map<LoopId, Option<ClientId>>
    ghost var released: multiset<FlowId>

    ghost function View(): Server
      reads this
    {
      Server(clients, registry, flows, counter, closing, readers, doomed, closed, loops, released)
    }

    ghost predicate Valid()
      reads this
    {
      cfg.Valid() && Inv(cfg, View())
    }

    constructor (cfg: Config, addrs: set<LoopId>)
      requires cfg.Valid()
      ensures Valid() && this.cfg == cfg && View() == Init(addrs)
    {
      this.cfg := cfg;
      clients, registry, flows, counter := map[], {}, map[], 0;
      closing, readers, doomed, closed := multiset{}, {}, {}, false;
      loops := map l | l in addrs :: None;
      released := multiset{};
      new;
      InitInv(cfg, addrs);
    }

    /** The scan for the oldest client, in whatever order the map yields them. */
    method FindOldest() returns (evict: ClientId)
      requires registry <= clients.Keys && registry != {}
      ensures Oldest(View(), evict)
    {
      evict :| evict in registry;
      var todo := registry - {evict};
      while todo != {}
        invariant todo <= registry && evict in registry
        invariant forall o | o in registry - todo :: clients[evict].since <= clients[o].since
      {
        var o :| o in todo;
        todo := todo - {o};
        if clients[o].since < clients[evict].since {
          evict := o;
        }
      }
    }

    /** startClient: lists the new client and, at the limit, picks the oldest one to close. */
    method StartClient(loop: LoopId, c: ClientId, now: Time) returns (evict: ClientId)
      requires Valid() && loop in loops && loops[loop].None? && c !in clients
      modifies this
      ensures Valid()
      ensures CanAccept(cfg, old(View()), loop, c, evict)
      ensures View() == AfterAccept(cfg, old(View()), loop, c, now, evict)
      ensures !old(closed) ==> registry == old(registry) + {c} && clients[c].since == now && clients[c].table == map[]
      ensures loops[loop] == if !old(closed) && |old(registry)| >= cfg.maxClients then Some(evict) else None
    {
      hide Inv;
      ghost var s := View();
      evict := 0;
      if closed {
        return;
      }
      var full := |registry| >= cfg.maxClients;
      if full {
        CapIsPositive(cfg, s);
        evict := FindOldest();
      }
      AcceptKeepsInv(cfg, s, loop, c, now, evict);
      clients := clients[c := Client(now, map[], false, false)];
      registry := registry + {c};
      loops := loops[loop := if full then Some(evict) else None];
      assert View() == AfterAccept(cfg, s, loop, c, now, evict);
    }

    static lemma CapIsPositive(cfg: Config, s: Server)
      requires cfg.Valid() && Inv(cfg, s) && |s.registry| >= cfg.maxClients
      ensures s.registry <= s.clients.Keys && s.registry != {}
    {
    }

    /** The scan for the least recently used flow of a full table, in whatever order the map yields them. */
    method FindLRU(table: map<nat, FlowId>) returns (lru: FlowId)
      requires table != map[]
      requires forall k | k in table :: table[k] in flows && flows[table[k]].conid == k
      ensures LeastRecent(View(), table, lru)
    {
      var k :| k in table;
      lru := table[k];
      var todo := table.Keys - {k};
      while todo != {}
        invariant todo <= table.Keys
        invariant lru in flows && flows[lru].conid in table && table[flows[lru].conid] == lru
        invariant forall j | j in table.Keys - todo :: flows[lru].lastUse <= flows[table[j]].lastUse
      {
        var j :| j in todo;
        todo := todo - {j};
        var o := table[j];
        if flows[o].lastUse < flows[lru].lastUse {
          lru := o;
        }
      }
    }

    /** handle's way to a free place: drop the packet's own flow, then, if need be, the least recently used one. */
    method MakeRoom(c: ClientId, conid: nat) returns (lru: FlowId)
      requires Valid() && c in clients && !clients[c].closed
      modifies this
      ensures CanEvict(cfg, old(View()), old(clients)[c].table, conid, lru)
      ensures var before := old(clients)[c].table;
              var keys := RoomKeys(cfg, old(View()), before, conid, lru);
              View() == Retired(old(View()), c, keys, multiset(FlowsAt(before, keys)), old(readers), false)
    {
      hide Inv, RoomKeys, FlowsAt;
      ghost var s := View();
      TableFacts(cfg, s, c);
      lru := 0;
      var before := clients[c].table;
      var table := before;
      var calls := multiset{};
      if conid in table {
        calls := multiset{table[conid]};
        table := table - {conid};
      }
      TableIsOthers(before, conid, table);
      if |table| >= cfg.maxFlows {
        lru := FindLRU(table);
        table := table - {flows[lru].conid};
        calls := calls + multiset{lru};
      }
      RoomParts(cfg, s, c, conid, lru, table, calls);
      clients := clients[c := clients[c].(table := table)];
      closing := closing + calls;
    }

    /** The locked section of handle: keep the flow, or replace it after making room. sent is the flow whose
        socket the datagram goes out of, to the flow's target. */
    method Handle(c: ClientId, p: Packet, newId: FlowId, dns: Option<AddrPort>, opens: bool, now: Time)
      returns (lru: FlowId, sent: Option<FlowId>)
      requires Valid() && c in clients && p.Datagram? && p.addr.Valid() && newId !in flows
      requires dns.Some? ==> dns.value.Valid()
      modifies this
      ensures Valid()
      ensures CanHandle(cfg, old(View()), c, p, newId, lru)
      ensures View() == AfterHandle(cfg, old(View()), c, p, newId, lru, TargetOf(p, dns), opens, now)
      ensures sent == old(SocketFor(c, p, newId, opens))
      ensures sent.Some? ==> sent.value in flows && SendsFor(flows[sent.value], c, p)
      ensures newId in flows ==>
                flows[newId].target == Unmap(if p.flags / 4 % 2 == 1 && dns.Some? then dns.value else p.addr)
    {
      hide Inv, RoomKeys, FlowsAt, CanEvict, IsRebind, IsDNS, TargetOf, Unmap, AfterHandle, Keeps, CanHandle;
      ghost var s := View();
      ghost var target := TargetOf(p, dns);
      var cl := clients[c];
      TableFacts(cfg, s, c);
      KeepsMeans(cfg, s, c, p, newId);
      TargetMeans(p, dns);
      FlagBits(p.flags);
      lru, sent := 0, None;
      if cl.closed || (p.conid in cl.table && !IsRebind(p.flags) && flows[cl.table[p.conid]].orig == p.addr) {
        NothingToDo(cfg, s, c, p, newId, lru, target, opens, now);
        if !cl.closed {
          sent := Some(cl.table[p.conid]);
        }
        return;
      }
      lru := MakeRoom(c, p.conid);
      HandleKeepsInv(cfg, s, c, p, newId, lru, target, opens, now);
      Renewed(cfg, s, c, p, newId, lru, target, opens, now);
      if opens {
        OpenFlow(c, p.conid, newId, Flow(c, p.conid, p.addr, TargetOf(p, dns), now, Open));
        sent := Some(newId);
      }
    }

    /** The flow that carries a packet: the one its id has in the table, unless the packet asks to rebind (the
        second lowest bit) or names another address, and else a new one if its socket opens. */
    function SocketFor(c: ClientId, p: Packet, newId: FlowId, opens: bool): Option<FlowId>
      requires c in clients && p.Datagram?
      reads this
    {
      var cl := clients[c];
      if cl.closed then None
      else if p.conid in cl.table && cl.table[p.conid] in flows && p.flags / 2 % 2 == 0 && flows[cl.table[p.conid]].orig == p.addr
      then Some(cl.table[p.conid])
      else if opens then Some(newId) else None
    }

    /** The flow is the client's own, under the packet's id and address, and open. */
    static predicate SendsFor(f: Flow, c: ClientId, p: Packet)
      requires p.Datagram?
    {
      f.client == c && f.conid == p.conid && f.orig == p.addr && f.life.Open?
    }

    static lemma Renewed(cfg: Config, s: Server, c: ClientId, p: Packet, newId: FlowId, lru: FlowId, target: AddrPort, opens: bool, now: Time)
      requires c in s.clients && p.Datagram? && !s.clients[c].closed && !Keeps(s, s.clients[c].table, p)
      ensures var keys := RoomKeys(cfg, s, s.clients[c].table, p.conid, lru);
              var r := Retired(s, c, keys, multiset(FlowsAt(s.clients[c].table, keys)), s.readers, false);
              AfterHandle(cfg, s, c, p, newId, lru, target, opens, now)
              == if opens then Opened(r, c, p.conid, newId, Flow(c, p.conid, p.addr, target, now, Open)) else r
    {
      hide RoomKeys, FlowsAt, Keeps;
    }

    /** The new flow is entered, counted and given a reader. */
    method OpenFlow(c: ClientId, conid: nat, newId: FlowId, f: Flow)
      requires c in clients && newId !in flows
      modifies this
      ensures View() == Opened(old(View()), c, conid, newId, f)
    {
      flows := flows[newId := f];
      clients := clients[c := clients[c].(table := clients[c].table[conid := newId])];
      counter := counter + 1;
      readers := readers + {newId};
    }

    static lemma KeepsMeans(cfg: Config, s: Server, c: ClientId, p: Packet, newId: FlowId)
      requires c in s.clients && p.Datagram? && newId !in s.flows
      requires forall k | k in s.clients[c].table :: s.clients[c].table[k] in s.flows
      ensures var table := s.clients[c].table;
              Keeps(s, table, p) <==> p.conid in table && !IsRebind(p.flags) && s.flows[table[p.conid]].orig == p.addr
      ensures forall lru | CanEvict(cfg, s, s.clients[c].table, p.conid, lru) :: CanHandle(cfg, s, c, p, newId, lru)
    {
      hide CanEvict, IsRebind;
    }

    static lemma NothingToDo(cfg: Config, s: Server, c: ClientId, p: Packet, newId: FlowId, lru: FlowId, target: AddrPort, opens: bool, now: Time)
      requires c in s.clients && p.Datagram? && (s.clients[c].closed || Keeps(s, s.clients[c].table, p))
      ensures CanHandle(cfg, s, c, p, newId, lru) && AfterHandle(cfg, s, c, p, newId, lru, target, opens, now) == s
    {
    }

    static lemma TableIsOthers(before: map<nat, FlowId>, conid: nat, table: map<nat, FlowId>)
      requires table == (if conid in before then before - {conid} else before)
      ensures table == Others(before, conid)
    {
    }

    static lemma TableFacts(cfg: Config, s: Server, c: ClientId)
      requires Inv(cfg, s) && c in s.clients
      ensures |s.clients[c].table| <= cfg.maxFlows
      ensures forall k | k in s.clients[c].table ::
                s.clients[c].table[k] in s.flows && s.flows[s.clients[c].table[k]].conid == k
      ensures forall k | k in s.clients[c].table ::
                s.flows[s.clients[c].table[k]].client == c && s.flows[s.clients[c].table[k]].life.Open?
    {
      assert TableOK(cfg, s, c, s.clients[c]);
      forall k | k in s.clients[c].table
        ensures s.clients[c].table[k] in s.flows && s.flows[s.clients[c].table[k]].conid == k
        ensures s.flows[s.clients[c].table[k]].client == c && s.flows[s.clients[c].table[k]].life.Open?
      {
        assert EntryOK(s, c, k, s.clients[c].table[k]);
      }
    }

    /** What MakeRoom removed step by step is what RoomKeys names, each flow once. */
    static lemma RoomParts(cfg: Config, s: Server, c: ClientId, conid: nat, lru: FlowId, table: map<nat, FlowId>, calls: multiset<FlowId>)
      requires c in s.clients && CanEvict(cfg, s, s.clients[c].table, conid, lru) && |s.clients[c].table| <= cfg.maxFlows
      requires var before := s.clients[c].table;
               var others := Others(before, conid);
               var own := if conid in before then multiset{before[conid]} else multiset{};
               if |others| >= cfg.maxFlows
               then lru in s.flows && table == others - {s.flows[lru].conid} && calls == own + multiset{lru}
               else table == others && calls == own
      ensures var keys := RoomKeys(cfg, s, s.clients[c].table, conid, lru);
              table == s.clients[c].table - keys && calls == multiset(FlowsAt(s.clients[c].table, keys))
    {
      var before := s.clients[c].table;
      RoomMap(cfg, s, before, conid, lru);
      RoomCalls(cfg, s, before, conid, lru);
      hide RoomKeys, FlowsAt, CanEvict;
    }

    static lemma RoomCalls(cfg: Config, s: Server, before: map<nat, FlowId>, conid: nat, lru: FlowId)
      requires CanEvict(cfg, s, before, conid, lru) && |before| <= cfg.maxFlows
      ensures var own := if conid in before then multiset{before[conid]} else multiset{};
              multiset(FlowsAt(before, RoomKeys(cfg, s, before, conid, lru)))
              == own + if Full(cfg, s, before, conid, lru) then multiset{lru} else multiset{}
    {
      if Full(cfg, s, before, conid, lru) {
        FullWithoutOwn(cfg, s, before, conid, lru);
        hide Full, FlowsAt;
        assert {} + {s.flows[lru].conid} == {s.flows[lru].conid};
        OneFlowAt(before, s.flows[lru].conid);
      } else if conid in before {
        hide Full;
        OneFlowAt(before, conid);
      } else {
        assert FlowsAt(before, {}) == {};
      }
    }

    static lemma FullWithoutOwn(cfg: Config, s: Server, table: map<nat, FlowId>, conid: nat, lru: FlowId)
      requires |table| <= cfg.maxFlows && Full(cfg, s, table, conid, lru) && CanEvict(cfg, s, table, conid, lru)
      ensures conid !in table && s.flows[lru].conid in table && table[s.flows[lru].conid] == lru
    {
      if conid in table {
        OneLess(table, conid);
      }
    }

    static lemma OneFlowAt(table: map<nat, FlowId>, k: nat)
      requires k in table
      ensures FlowsAt(table, {k}) == {table[k]}
    {
    }

    /** The scan for idle flows. */
    method FindStale(table: map<nat, FlowId>, cutoff: Time) returns (ids: set<nat>, stale: set<FlowId>)
      requires forall k | k in table :: table[k] in flows
      ensures ids == Stale(View(), table, cutoff) && stale == FlowsAt(table, ids)
      ensures forall k | k in table :: k in ids <==> flows[table[k]].lastUse < cutoff
    {
      var todo := table.Keys;
      ids, stale := {}, {};
      while todo != {}
        invariant todo <= table.Keys
        invariant forall k | k in table :: k in ids <==> k !in todo && flows[table[k]].lastUse < cutoff
        invariant ids <= table.Keys && stale == FlowsAt(table, ids)
      {
        var k :| k in todo;
        todo := todo - {k};
        if flows[table[k]].lastUse < cutoff {
          ids := ids + {k};
          stale := stale + {table[k]};
        }
      }
    }

    /** reapFlows: takes the flows that have been idle since before the cutoff out of the table. */
    method Reap(c: ClientId, cutoff: Time)
      requires Valid() && c in clients
      modifies this
      ensures Valid()
      ensures View() == AfterReap(old(View()), c, cutoff)
    {
      hide Inv;
      ghost var s := View();
      var before := clients[c].table;
      TableFacts(cfg, s, c);
      ReapKeepsInv(cfg, s, c, cutoff);
      var gone, stale := FindStale(before, cutoff);
      clients := clients[c := clients[c].(table := before - gone)];
      closing := closing + multiset(stale);
    }

    /** The start of close(): only the first call gets past the once. */
    method BeginClose(c: ClientId) returns (first: bool)
      requires Valid() && c in clients
      modifies this
      ensures Valid()
      ensures first == !old(clients)[c].done
      ensures first ==> View() == Step(cfg, old(View()), CloseBegin(c))
      ensures !first ==> View() == old(View())
    {
      hide Inv;
      first := !clients[c].done;
      if first {
        SmallStepKeepsInv(cfg, View(), CloseBegin(c));
        hide Inv;
        clients := clients[c := clients[c].(done := true)];
        doomed := doomed - {c};
      }
    }

    /** The locked section of close(): marks the client closed and swaps in an empty table. */
    method SwapTable(c: ClientId)
      requires Valid() && c in clients && clients[c].done
      modifies this
      ensures Valid()
      ensures View() == AfterCloseTable(old(View()), c)
    {
      hide Inv;
      ghost var s := View();
      CloseTableKeepsInv(cfg, s, c);
      var fl := clients[c].table;
      clients := clients[c := clients[c].(table := map[], closed := true)];
      assert fl - fl.Keys == map[];
      assert FlowsAt(fl, fl.Keys) == fl.Values;
      closing := closing + multiset(fl.Values);
    }

    /** The error path of a flow reader: forget the flow if it is still the one entered. */
    method ReaderFailed(f: FlowId)
      requires Valid() && f in readers && f in flows && flows[f].client in clients
      modifies this
      ensures Valid()
      ensures View() == AfterReaderFails(old(View()), f)
    {
      hide Inv;
      ghost var s := View();
      ReaderFailsKeepsInv(cfg, s, f);
      var c := flows[f].client;
      var table := clients[c].table;
      if flows[f].conid in table && table[flows[f].conid] == f {
        clients := clients[c := clients[c].(table := table - {flows[f].conid})];
      } else {
        assert table - {} == table;
      }
      readers := readers - {f};
      closing := closing + multiset{f};
      assert View() == AfterReaderFails(s, f);
    }

    /** The compare-and-swap of closeFlow. */
    method Claim(f: FlowId) returns (won: bool)
      requires Valid() && f in closing && f in flows
      modifies this
      ensures Valid()
      ensures won == old(flows)[f].life.Open?
      ensures View() == AfterCloseClaim(old(View()), f)
    {
      hide Inv;
      ghost var s := View();
      CloseClaimKeepsInv(cfg, s, f);
      closing := closing - multiset{f};
      won := flows[f].life.Open?;
      if won {
        flows := flows[f := flows[f].(life := Claimed)];
      }
      assert View().flows == AfterCloseClaim(s, f).flows;
    }

    /** The rest of closeFlow, for the call that won: close the socket, count the flow down. */
    method Finish(f: FlowId)
      requires Valid() && f in flows && flows[f].life.Claimed?
      modifies this
      ensures Valid()
      ensures View() == AfterCloseFinish(old(View()), f)
      ensures counter == old(counter) - 1 && released[f] == 1
    {
      hide Inv;
      CloseFinishKeepsInv(cfg, View(), f);
      FinishOnce(cfg, View(), f);
      flows := flows[f := flows[f].(life := Closed)];
      counter := counter - 1;
      released := released + multiset{f};
    }

    static lemma FinishOnce(cfg: Config, s: Server, f: FlowId)
      requires Inv(cfg, s) && f in s.flows && s.flows[f].life.Claimed?
      ensures s.released[f] == 0
    {
      assert FlowOK(s, f);
    }

    /** Server.Close up to the point where it starts closing the clients it listed. */
    method Shutdown()
      requires Valid()
      modifies this
      ensures Valid() && closed
      ensures View() == Step(cfg, old(View()), CloseServer)
    {
      hide Inv;
      if closed {
        return;
      }
      SmallStepKeepsInv(cfg, View(), CloseServer);
      closed := true;
      doomed := registry;
    }
  }
}
