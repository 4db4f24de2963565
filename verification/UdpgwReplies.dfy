/** The way back through the tunnel: flow readers frame the datagrams they receive into pooled
    buffers, a bounded queue carries the buffers to each client's writer, and the writer batches
    them into the connection. Buffers are shared memory: the state keeps their contents apart from
    the references that the pool, the readers, the queues and the writers hold. */
module UdpgwReplies {
  import opened Bytes
  import opened UdpgwProto
  import opened Wrappers

  import Lifecycle = UdpgwFlows

  type ClientId = Lifecycle.ClientId
  type FlowId = Lifecycle.FlowId
  type BufId = nat

  const POOLED := 2048

  /** A slice's backing array: its capacity and the bytes appended so far. */
  datatype Buf = Buf(cap: nat, bytes: seq<byte>)

  /** What of a flow its replies need: the client, and the id and address they are labelled with. */
  datatype Label = Label(client: ClientId, conid: nat, orig: AddrPort) {
    predicate Valid() { conid < 65536 && orig.Valid() }
  }

  /** Where a flow reader is in its loop. */
  datatype Reader =
    | Waiting
    | Received(data: seq<byte>)
    | Filling(data: seq<byte>, buf: BufId)
    | Ready(data: seq<byte>, buf: BufId)
    | Ended

  /** Where a client's writer is in its loop. */
  datatype Writer =
    | Outer
    | Writing(buf: BufId)
    | Releasing(buf: BufId)
    | Draining
    | Flushing
    | Stopped

  /** One datagram of one flow. */
  datatype Item = Item(flow: FlowId, data: seq<byte>)

  /** A client's reply side. log and taken are history: every datagram ever queued, and how many of
      them the writer has taken. */
  datatype Conn = Conn(
    queue: seq<BufId>,
    writer: Writer,
    pending: seq<byte>,   // in the writer's batch buffer
    sent: seq<byte>,      // in the tunnel
    done: bool,
    log: seq<Item>,
    taken: nat
  )

  datatype State = State(
    flows: map<FlowId, Label>,
    readers: map<FlowId, Reader>,
    heard: map<FlowId, seq<seq<byte>>>,  // history: every datagram each flow received
    conns: map<ClientId, Conn>,
    bufs: map<BufId, Buf>,
    pool: set<BufId>
  )

  const Start := State(map[], map[], map[], map[], map[], {})

  function CapFor(need: nat): nat { if need <= POOLED then POOLED else need }

  function Frame(fl: Label, data: seq<byte>): seq<byte>
    requires fl.Valid() && Fits(fl.orig, |data|)
  {
    Framed(Payload(0, fl.conid, fl.orig, data))
  }

  datatype Action =
    | Connect(c: ClientId)
    | Open(f: FlowId, flow: Label)
    | Receive(f: FlowId, data: seq<byte>)
    | Reuse(f: FlowId, b: BufId)
    | Allocate(f: FlowId, b: BufId)
    | Fill(f: FlowId, b: BufId, cap: nat)
    | Enqueue(f: FlowId)
    | Drop(f: FlowId)
    | Quit(f: FlowId)
    | Fail(f: FlowId)
    | Take(c: ClientId)
    | Write(c: ClientId, through: nat)
    | WriteFails(c: ClientId, through: nat)
    | Release(c: ClientId)
    | Drained(c: ClientId)
    | Flush(c: ClientId)
    | FlushFails(c: ClientId, through: nat)
    | Stop(c: ClientId)
    | Close(c: ClientId)
    | Collect(b: BufId)

  /** releaseFrame: only a buffer of the pooled size goes back. */
  function Released(s: State, b: BufId): set<BufId>
  {
    if b in s.bufs && s.bufs[b].cap == POOLED then s.pool + {b} else s.pool
  }

  predicate HasFlow(s: State, f: FlowId) {
    f in s.flows && f in s.readers && f in s.heard && s.flows[f].client in s.conns && s.flows[f].Valid()
  }

  function ConnOf(s: State, f: FlowId): Conn
    requires HasFlow(s, f)
  {
    s.conns[s.flows[f].client]
  }

  predicate Enabled(queueLen: nat, s: State, a: Action)
  {
    match a
    case Connect(c) => c !in s.conns
    case Open(f, flow) => f !in s.flows && f !in s.readers && f !in s.heard && flow.client in s.conns && flow.Valid()
    case Receive(f, data) => HasFlow(s, f) && s.readers[f].Waiting? && |data| <= MAX_PAYLOAD
    case Reuse(f, b) => HasFlow(s, f) && s.readers[f].Received? && b in s.pool && b in s.bufs
                        && FrameLen(s.flows[f].orig, |s.readers[f].data|) <= POOLED
    case Allocate(f, b) => HasFlow(s, f) && s.readers[f].Received? && b !in s.bufs
    case Fill(f, b, cap) => HasFlow(s, f) && s.readers[f].Filling? && s.readers[f].buf in s.bufs && b !in s.bufs
    case Enqueue(f) => HasFlow(s, f) && s.readers[f].Ready? && |ConnOf(s, f).queue| < queueLen
    case Drop(f) => HasFlow(s, f) && s.readers[f].Ready? && |ConnOf(s, f).queue| >= queueLen && !ConnOf(s, f).done
    case Quit(f) => HasFlow(s, f) && s.readers[f].Ready? && ConnOf(s, f).done
    case Fail(f) => HasFlow(s, f) && s.readers[f].Waiting?
    case Take(c) => c in s.conns && (s.conns[c].writer.Outer? || s.conns[c].writer.Draining?) && s.conns[c].queue != []
    case Write(c, k) => c in s.conns && s.conns[c].writer.Writing? && s.conns[c].writer.buf in s.bufs
                        && k <= |s.conns[c].pending| + |s.bufs[s.conns[c].writer.buf].bytes|
    case WriteFails(c, k) => c in s.conns && s.conns[c].writer.Writing? && s.conns[c].writer.buf in s.bufs
                             && k <= |s.conns[c].pending| + |s.bufs[s.conns[c].writer.buf].bytes|
    case Release(c) => c in s.conns && s.conns[c].writer.Releasing?
    case Drained(c) => c in s.conns && s.conns[c].writer.Draining? && s.conns[c].queue == []
    case Flush(c) => c in s.conns && s.conns[c].writer.Flushing?
    case FlushFails(c, k) => c in s.conns && s.conns[c].writer.Flushing? && k <= |s.conns[c].pending|
    case Stop(c) => c in s.conns && s.conns[c].writer.Outer? && s.conns[c].done
    case Close(c) => c in s.conns
    case Collect(b) => b in s.pool
  }

  function SetReader(s: State, f: FlowId, r: Reader): State { s.(readers := s.readers[f := r]) }
  function SetConn(s: State, c: ClientId, cn: Conn): State { s.(conns := s.conns[c := cn]) }

  /** AppendFrame into the reader's buffer: in place while the capacity lasts, else into a new array,
      and not at all when the payload is too large for a frame. */
  function AfterFill(s: State, f: FlowId, b: BufId, cap: nat): State
    requires HasFlow(s, f) && s.readers[f].Filling? && s.readers[f].buf in s.bufs
  {
    var r, fl := s.readers[f], s.flows[f];
    if !Fits(fl.orig, |r.data|) then SetReader(s, f, Waiting)
    else
      var buf := s.bufs[r.buf];
      var bytes := buf.bytes + Frame(fl, r.data);
      if |bytes| <= buf.cap then SetReader(s, f, Ready(r.data, r.buf)).(bufs := s.bufs[r.buf := buf.(bytes := bytes)])
      else SetReader(s, f, Ready(r.data, b)).(bufs := s.bufs[b := Buf(|bytes| + cap, bytes)])
  }

  /** The batch buffer passes a prefix of what it holds on to the connection whenever it likes. */
  function AfterWrite(s: State, c: ClientId, k: nat, w: Writer): State
    requires c in s.conns && s.conns[c].writer.Writing? && s.conns[c].writer.buf in s.bufs
    requires k <= |s.conns[c].pending| + |s.bufs[s.conns[c].writer.buf].bytes|
  {
    var cn := s.conns[c];
    var all := cn.pending + s.bufs[cn.writer.buf].bytes;
    SetConn(s, c, cn.(sent := cn.sent + all[..k], pending := all[k..], writer := w))
  }

  function Step(queueLen: nat, s: State, a: Action): State
    requires Enabled(queueLen, s, a)
  {
    match a
    case Connect(c) => SetConn(s, c, Conn([], Outer, [], [], false, [], 0))
    case Open(f, flow) => s.(flows := s.flows[f := flow], readers := s.readers[f := Waiting], heard := s.heard[f := []])
    case Receive(f, data) => SetReader(s, f, Received(data)).(heard := s.heard[f := s.heard[f] + [data]])
    case Reuse(f, b) => SetReader(s, f, Filling(s.readers[f].data, b)).(pool := s.pool - {b}, bufs := s.bufs[b := s.bufs[b].(bytes := [])])
    case Allocate(f, b) =>
      SetReader(s, f, Filling(s.readers[f].data, b)).(bufs := s.bufs[b := Buf(CapFor(FrameLen(s.flows[f].orig, |s.readers[f].data|)), [])])
    case Fill(f, b, cap) => AfterFill(s, f, b, cap)
    case Enqueue(f) =>
      var cn, r := ConnOf(s, f), s.readers[f];
      SetConn(SetReader(s, f, Waiting), s.flows[f].client, cn.(queue := cn.queue + [r.buf], log := cn.log + [Item(f, r.data)]))
    case Drop(f) => SetReader(s, f, Waiting).(pool := Released(s, s.readers[f].buf))
    case Quit(f) => SetReader(s, f, Ended)
    case Fail(f) => SetReader(s, f, Ended)
    case Take(c) =>
      var cn := s.conns[c];
      SetConn(s, c, cn.(queue := cn.queue[1..], writer := Writing(cn.queue[0]), taken := cn.taken + 1))
    case Write(c, k) => AfterWrite(s, c, k, Releasing(s.conns[c].writer.buf))
    case WriteFails(c, k) => AfterWrite(s, c, k, Stopped)
    case Release(c) => SetConn(s, c, s.conns[c].(writer := Draining)).(pool := Released(s, s.conns[c].writer.buf))
    case Drained(c) => SetConn(s, c, s.conns[c].(writer := Flushing))
    case Flush(c) => SetConn(s, c, s.conns[c].(sent := s.conns[c].sent + s.conns[c].pending, pending := [], writer := Outer))
    case FlushFails(c, k) => SetConn(s, c, s.conns[c].(sent := s.conns[c].sent + s.conns[c].pending[..k], pending := s.conns[c].pending[k..], writer := Stopped))
    case Stop(c) => SetConn(s, c, s.conns[c].(writer := Stopped))
    case Close(c) => SetConn(s, c, s.conns[c].(done := true))
    case Collect(b) => s.(pool := s.pool - {b})
  }

  // Who holds a buffer.

  datatype Place = Pool | AtReader(f: FlowId) | InQueue(c: ClientId, i: nat) | AtWriter(c: ClientId)

  predicate Holds(s: State, p: Place, b: BufId)
  {
    match p
    case Pool => b in s.pool
    case AtReader(f) => f in s.readers && (s.readers[f].Filling? || s.readers[f].Ready?) && s.readers[f].buf == b
    case InQueue(c, i) => c in s.conns && i < |s.conns[c].queue| && s.conns[c].queue[i] == b
    case AtWriter(c) => c in s.conns && (s.conns[c].writer.Writing? || s.conns[c].writer.Releasing?) && s.conns[c].writer.buf == b
  }

  /** Nobody shares a buffer. */
  ghost predicate SingleOwner(s: State)
  {
    forall p, q, b | Holds(s, p, b) && Holds(s, q, b) :: p == q
  }

  ghost predicate Allocated(s: State)
  {
    forall p, b | Holds(s, p, b) :: b in s.bufs
  }

  predicate PoolOK(s: State) { forall b | b in s.pool :: b in s.bufs && s.bufs[b].cap == POOLED }

  // What the bytes are.

  predicate Loggable(flows: map<FlowId, Label>, c: ClientId, it: Item)
  {
    it.flow in flows && flows[it.flow].client == c && flows[it.flow].Valid() && Fits(flows[it.flow].orig, |it.data|)
  }

  predicate AllLoggable(flows: map<FlowId, Label>, c: ClientId, items: seq<Item>)
  {
    forall i | 0 <= i < |items| :: Loggable(flows, c, items[i])
  }

  function FrameOf(flows: map<FlowId, Label>, c: ClientId, it: Item): seq<byte>
    requires Loggable(flows, c, it)
  {
    Frame(flows[it.flow], it.data)
  }

  /** The frames of a list of datagrams, one after the other. */
  function Flat(flows: map<FlowId, Label>, c: ClientId, items: seq<Item>): seq<byte>
    requires AllLoggable(flows, c, items)
  {
    if items == [] then [] else Flat(flows, c, items[..|items| - 1]) + FrameOf(flows, c, items[|items| - 1])
  }

  predicate LogOK(flows: map<FlowId, Label>, c: ClientId, cn: Conn)
  {
    AllLoggable(flows, c, cn.log) && cn.taken + |cn.queue| == |cn.log|
  }

  /** Every queued buffer still holds the frame of the datagram it was filled for. */
  predicate QueueOK(flows: map<FlowId, Label>, bufs: map<BufId, Buf>, c: ClientId, cn: Conn)
    requires LogOK(flows, c, cn)
  {
    forall i | 0 <= i < |cn.queue| ::
      cn.queue[i] in bufs && bufs[cn.queue[i]].bytes == FrameOf(flows, c, cn.log[cn.taken + i])
  }

  predicate IsPrefix(a: seq<byte>, b: seq<byte>) { |a| <= |b| && a == b[..|a|] }

  /** What has gone into the batch buffer or the tunnel is what the writer has taken. */
  predicate WriterOK(flows: map<FlowId, Label>, bufs: map<BufId, Buf>, c: ClientId, cn: Conn)
    requires LogOK(flows, c, cn)
  {
    var all := cn.sent + cn.pending;
    match cn.writer
    case Writing(b) =>
      && cn.taken > 0 && b in bufs && bufs[b].bytes == FrameOf(flows, c, cn.log[cn.taken - 1])
      && all == Flat(flows, c, cn.log[..cn.taken - 1])
    case Stopped => IsPrefix(cn.sent, Flat(flows, c, cn.log[..cn.taken]))
    case Outer => cn.pending == [] && all == Flat(flows, c, cn.log[..cn.taken])
    case _ => all == Flat(flows, c, cn.log[..cn.taken])
  }

  predicate ConnIs(flows: map<FlowId, Label>, bufs: map<BufId, Buf>, c: ClientId, cn: Conn)
  {
    LogOK(flows, c, cn) && QueueOK(flows, bufs, c, cn) && WriterOK(flows, bufs, c, cn)
  }

  predicate ConnOK(s: State, c: ClientId)
    requires c in s.conns
  {
    ConnIs(s.flows, s.bufs, c, s.conns[c])
  }

  // Per flow: in order, each datagram at most once.

  /** The data of one flow in a log. */
  function DataOf(items: seq<Item>, f: FlowId): seq<seq<byte>>
  {
    if items == [] then []
    else
      var rest, last := DataOf(items[..|items| - 1], f), items[|items| - 1];
      if last.flow == f then rest + [last.data] else rest
  }

  /** a arises from b by leaving elements out. */
  predicate Subsequence<T(==)>(a: seq<T>, b: seq<T>)
  {
    a == [] ||
    (b != [] && (Subsequence(a, b[..|b| - 1]) || (a[|a| - 1] == b[|b| - 1] && Subsequence(a[..|a| - 1], b[..|b| - 1]))))
  }

  predicate ReaderOK(s: State, f: FlowId)
    requires f in s.readers
  {
    && HasFlow(s, f)
    && var heard, kept := s.heard[f], DataOf(ConnOf(s, f).log, f);
    match s.readers[f]
    case Waiting => Subsequence(kept, heard)
    case Ended => Subsequence(kept, heard)
    case Received(data) => heard != [] && heard[|heard| - 1] == data && Subsequence(kept, heard[..|heard| - 1])
    case Filling(data, b) =>
      && heard != [] && heard[|heard| - 1] == data && Subsequence(kept, heard[..|heard| - 1])
      && b in s.bufs && s.bufs[b] == Buf(CapFor(FrameLen(s.flows[f].orig, |data|)), [])
    case Ready(data, b) =>
      && heard != [] && heard[|heard| - 1] == data && Subsequence(kept, heard[..|heard| - 1])
      && Fits(s.flows[f].orig, |data|)
      && b in s.bufs && s.bufs[b] == Buf(CapFor(FrameLen(s.flows[f].orig, |data|)), Frame(s.flows[f], data))
  }

  /** Logs only name flows of their own client that exist. */
  ghost predicate Inv(s: State)
  {
    && SingleOwner(s) && Allocated(s) && PoolOK(s)
    && s.flows.Keys == s.readers.Keys
    && (forall f | f in s.readers :: ReaderOK(s, f))
    && (forall c | c in s.conns :: ConnOK(s, c))
  }

  // The invariant, part by part.

  lemma InvParts(s: State)
    requires Inv(s)
    ensures SingleOwner(s) && Allocated(s) && PoolOK(s) && s.flows.Keys == s.readers.Keys
  {
    hide SingleOwner, Allocated, PoolOK, ReaderOK, ConnOK;
  }

  lemma InvReader(s: State, f: FlowId)
    requires Inv(s) && f in s.readers
    ensures ReaderOK(s, f) && HasFlow(s, f)
  {
    hide SingleOwner, Allocated, PoolOK, ConnOK;
    assert ReaderOK(s, f);
  }

  lemma InvConn(s: State, c: ClientId)
    requires Inv(s) && c in s.conns
    ensures ConnOK(s, c)
  {
    hide SingleOwner, Allocated, PoolOK, ReaderOK, ConnOK;
  }

  lemma MakeInv(s: State)
    requires SingleOwner(s) && Allocated(s) && PoolOK(s) && s.flows.Keys == s.readers.Keys
    requires forall f | f in s.readers :: ReaderOK(s, f)
    requires forall c | c in s.conns :: ConnOK(s, c)
    ensures Inv(s)
  {
    hide SingleOwner, Allocated, PoolOK, ReaderOK, ConnOK;
  }

  // One buffer changes hands at a time.

  /** Between s and t the buffer named by moved went to place (or out of everybody's sight), and all
      other holdings stayed. */
  ghost predicate Moved(s: State, t: State, moved: Option<BufId>, place: Option<Place>)
  {
    && (forall p: Place, b: BufId | moved != Some(b) :: Holds(t, p, b) <==> Holds(s, p, b))
    && (moved.Some? ==> forall p: Place :: Holds(t, p, moved.value) <==> place == Some(p))
  }

  lemma MovedOwners(s: State, t: State, moved: Option<BufId>, place: Option<Place>)
    requires SingleOwner(s) && Allocated(s) && Moved(s, t, moved, place)
    requires s.bufs.Keys <= t.bufs.Keys && (moved.Some? && place.Some? ==> moved.value in t.bufs)
    ensures SingleOwner(t) && Allocated(t)
  {
    hide Holds;
    forall p, q, b | Holds(t, p, b) && Holds(t, q, b) ensures p == q {
    }
    forall p, b | Holds(t, p, b) ensures b in t.bufs {
    }
  }

  /** Buffers other than the one in hand keep their contents. */
  predicate SameBufs(s: State, t: State, moved: Option<BufId>)
  {
    forall b | b in s.bufs && moved != Some(b) :: b in t.bufs && t.bufs[b] == s.bufs[b]
  }

  predicate SameFlows(s: State, t: State)
  {
    forall f | f in s.flows :: f in t.flows && t.flows[f] == s.flows[f]
  }

  /** A connection nobody touched is still good when the buffers it holds are untouched. */
  lemma ConnFrame(s: State, t: State, c: ClientId, moved: Option<BufId>)
    requires c in s.conns && ConnOK(s, c) && c in t.conns && t.conns[c] == s.conns[c]
    requires t.flows == s.flows && SameBufs(s, t, moved)
    requires moved.Some? ==> !Holds(s, AtWriter(c), moved.value) && forall i: nat :: !Holds(s, InQueue(c, i), moved.value)
    ensures ConnOK(t, c)
  {
    var cn := s.conns[c];
    hide Frame, Flat, AllLoggable;
    forall i | 0 <= i < |cn.queue| ensures cn.queue[i] in t.bufs && t.bufs[cn.queue[i]] == s.bufs[cn.queue[i]] {
      assert Holds(s, InQueue(c, i), cn.queue[i]);
    }
    if cn.writer.Writing? {
      assert Holds(s, AtWriter(c), cn.writer.buf);
    }
  }

  /** A reader nobody touched is still good when its buffer and its share of the log are. */
  lemma ReaderFrame(s: State, t: State, g: FlowId, moved: Option<BufId>)
    requires g in s.readers && ReaderOK(s, g) && g in t.readers && t.readers[g] == s.readers[g]
    requires g in t.heard && t.heard[g] == s.heard[g]
    requires SameFlows(s, t) && SameBufs(s, t, moved)
    requires s.flows[g].client in t.conns && DataOf(t.conns[s.flows[g].client].log, g) == DataOf(ConnOf(s, g).log, g)
    requires moved.Some? ==> !Holds(s, AtReader(g), moved.value)
    ensures ReaderOK(t, g)
  {
    hide DataOf, Subsequence, Frame;
    assert s.readers[g].Filling? || s.readers[g].Ready? ==> Holds(s, AtReader(g), s.readers[g].buf);
  }

  /** A step of one reader: only its own place, its buffer, the pool and its history change. */
  lemma ReaderStepInv(s: State, t: State, f: FlowId, moved: Option<BufId>, place: Option<Place>)
    requires Inv(s) && f in s.readers && f in t.readers
    requires t.flows == s.flows && t.conns == s.conns && t.readers == s.readers[f := t.readers[f]]
    requires forall g | g in s.heard && g != f :: g in t.heard && t.heard[g] == s.heard[g]
    requires SameBufs(s, t, moved) && Moved(s, t, moved, place)
    requires moved.Some? ==> forall p | Holds(s, p, moved.value) :: p == AtReader(f) || p == Pool
    requires s.bufs.Keys <= t.bufs.Keys && (moved.Some? && place.Some? ==> moved.value in t.bufs)
    requires PoolOK(t) && ReaderOK(t, f)
    ensures Inv(t)
  {
    hide Holds, ReaderOK, ConnOK, SingleOwner, Allocated, PoolOK, Moved, SameBufs;
    MovedOwners(s, t, moved, place);
    forall g | g in t.readers ensures ReaderOK(t, g) {
      if g != f {
        assert ReaderOK(s, g);
        ReaderHasFlow(s, g);
        ReaderFrame(s, t, g, moved);
      }
    }
    forall c | c in t.conns ensures ConnOK(t, c) {
      assert ConnOK(s, c);
      ConnFrame(s, t, c, moved);
    }
  }

  lemma ReaderHasFlow(s: State, g: FlowId)
    requires g in s.readers && ReaderOK(s, g)
    ensures HasFlow(s, g)
  {
  }

  /** A step of one writer: only its own connection and the pool change, and no history. */
  lemma ConnStepInv(s: State, t: State, c: ClientId, moved: Option<BufId>, place: Option<Place>)
    requires Inv(s) && c in s.conns && c in t.conns
    requires t.flows == s.flows && t.readers == s.readers && t.heard == s.heard && t.bufs == s.bufs
    requires t.conns == s.conns[c := t.conns[c]] && t.conns[c].log == s.conns[c].log
    requires Moved(s, t, moved, place) && (moved.Some? && place.Some? ==> moved.value in t.bufs)
    requires PoolOK(t) && ConnOK(t, c)
    ensures Inv(t)
  {
    MovedOwners(s, t, moved, place);
    OtherConns(s, t, c);
  }

  lemma OtherConns(s: State, t: State, c: ClientId)
    requires Inv(s) && c in s.conns && c in t.conns
    requires t.flows == s.flows && t.readers == s.readers && t.heard == s.heard && t.bufs == s.bufs
    requires t.conns == s.conns[c := t.conns[c]] && t.conns[c].log == s.conns[c].log
    requires SingleOwner(t) && Allocated(t) && PoolOK(t) && ConnOK(t, c)
    ensures Inv(t)
  {
    hide Holds, ReaderOK, ConnOK, SingleOwner, Allocated, PoolOK;
    forall g | g in t.readers ensures ReaderOK(t, g) {
      assert ReaderOK(s, g);
      ReaderHasFlow(s, g);
      ReaderFrame(s, t, g, None);
    }
    forall d | d in t.conns ensures ConnOK(t, d) {
      if d != c {
        assert ConnOK(s, d);
        ConnFrame(s, t, d, None);
      }
    }
  }

  // Readers.

  lemma {:induction false} SubsequenceGrows<T>(a: seq<T>, b: seq<T>)
    requires b != [] && Subsequence(a, b[..|b| - 1])
    ensures Subsequence(a, b)
    ensures Subsequence(a + [b[|b| - 1]], b)
  {
    var last := b[|b| - 1];
    assert (a + [last])[..|a|] == a;
  }

  lemma OnlyHolder(s: State, p: Place, b: BufId)
    requires SingleOwner(s) && Holds(s, p, b)
    ensures forall q | Holds(s, q, b) :: q == p
  {
    hide Holds;
  }

  /** When only reader f and the pool change hands with buffer b, b moves and nothing else does. */
  lemma ReaderMoves(s: State, t: State, f: FlowId, b: BufId, place: Option<Place>)
    requires t.conns == s.conns && f in s.readers && f in t.readers && t.readers == s.readers[f := t.readers[f]]
    requires forall x | x != b :: x in t.pool <==> x in s.pool
    requires forall p | Holds(s, p, b) :: p == AtReader(f) || p == Pool
    requires forall x | Holds(s, AtReader(f), x) :: x == b
    requires forall x | Holds(t, AtReader(f), x) :: x == b
    requires Holds(t, AtReader(f), b) <==> place == Some(AtReader(f))
    requires b in t.pool <==> place == Some(Pool)
    requires place.Some? ==> place.value.Pool? || place.value == AtReader(f)
    ensures Moved(s, t, Some(b), place)
  {
    forall p, x: BufId | x != b ensures Holds(t, p, x) <==> Holds(s, p, x) {
      if p.AtReader? && p.f == f {
        assert p == AtReader(f);
      }
    }
    forall p ensures Holds(t, p, b) <==> place == Some(p) {
      if p.AtReader? && p.f != f {
        assert Holds(t, p, b) == Holds(s, p, b);
      } else if p.InQueue? || p.AtWriter? {
        assert Holds(t, p, b) == Holds(s, p, b);
      }
    }
  }

  lemma ReceiveReader(s: State, f: FlowId, data: seq<byte>)
    requires Enabled(0, s, Receive(f, data)) && ReaderOK(s, f)
    ensures ReaderOK(Step(0, s, Receive(f, data)), f) && Moved(s, Step(0, s, Receive(f, data)), None, None)
  {
    hide Subsequence, DataOf;
    assert (s.heard[f] + [data])[..|s.heard[f]|] == s.heard[f];
  }

  lemma ReceiveInv(s: State, f: FlowId, data: seq<byte>)
    requires Inv(s) && Enabled(0, s, Receive(f, data))
    ensures Inv(Step(0, s, Receive(f, data)))
  {
    hide Holds, Moved, SingleOwner, Allocated, ConnOK, ReaderOK;
    assert ReaderOK(s, f);
    ReceiveReader(s, f, data);
    ReaderStepInv(s, Step(0, s, Receive(f, data)), f, None, None);
  }

  lemma FailReader(s: State, f: FlowId)
    requires Enabled(0, s, Fail(f)) && ReaderOK(s, f)
    ensures ReaderOK(Step(0, s, Fail(f)), f) && Moved(s, Step(0, s, Fail(f)), None, None)
  {
    hide Subsequence, DataOf;
  }

  lemma FailInv(s: State, f: FlowId)
    requires Inv(s) && Enabled(0, s, Fail(f))
    ensures Inv(Step(0, s, Fail(f)))
  {
    hide Holds, Moved, SingleOwner, Allocated, ConnOK, ReaderOK;
    assert ReaderOK(s, f);
    FailReader(s, f);
    ReaderStepInv(s, Step(0, s, Fail(f)), f, None, None);
  }

  lemma ReuseReader(s: State, f: FlowId, b: BufId)
    requires Enabled(0, s, Reuse(f, b)) && ReaderOK(s, f) && PoolOK(s) && SingleOwner(s)
    ensures var t := Step(0, s, Reuse(f, b));
            && ReaderOK(t, f) && Moved(s, t, Some(b), Some(AtReader(f))) && PoolOK(t) && SameBufs(s, t, Some(b))
            && (forall p | Holds(s, p, b) :: p == Pool)
  {
    OnlyHolder(s, Pool, b);
    hide Subsequence, DataOf, SingleOwner;
    ReaderMoves(s, Step(0, s, Reuse(f, b)), f, b, Some(AtReader(f)));
    hide Moved;
  }

  lemma ReuseInv(s: State, f: FlowId, b: BufId)
    requires Inv(s) && Enabled(0, s, Reuse(f, b))
    ensures Inv(Step(0, s, Reuse(f, b)))
  {
    hide Holds, Moved, SingleOwner, Allocated, ConnOK, ReaderOK, PoolOK, SameBufs;
    assert ReaderOK(s, f);
    ReuseReader(s, f, b);
    ReaderStepInv(s, Step(0, s, Reuse(f, b)), f, Some(b), Some(AtReader(f)));
  }

  lemma AllocateReader(s: State, f: FlowId, b: BufId)
    requires Enabled(0, s, Allocate(f, b)) && ReaderOK(s, f) && PoolOK(s) && Allocated(s)
    ensures var t := Step(0, s, Allocate(f, b));
            && ReaderOK(t, f) && Moved(s, t, Some(b), Some(AtReader(f))) && PoolOK(t) && SameBufs(s, t, Some(b))
            && (forall p :: !Holds(s, p, b))
  {
    assert forall p :: !Holds(s, p, b);
    hide Subsequence, DataOf, Allocated;
    ReaderMoves(s, Step(0, s, Allocate(f, b)), f, b, Some(AtReader(f)));
    hide Moved;
  }

  lemma AllocateInv(s: State, f: FlowId, b: BufId)
    requires Inv(s) && Enabled(0, s, Allocate(f, b))
    ensures Inv(Step(0, s, Allocate(f, b)))
  {
    hide Holds, Moved, SingleOwner, Allocated, ConnOK, ReaderOK, PoolOK, SameBufs;
    assert ReaderOK(s, f);
    AllocateReader(s, f, b);
    ReaderStepInv(s, Step(0, s, Allocate(f, b)), f, Some(b), Some(AtReader(f)));
  }

  /** A frame always fits the buffer its reader chose for it: pooled buffers are never reallocated. */
  lemma FillsInPlace(s: State, f: FlowId, b: BufId, cap: nat)
    requires f in s.readers && ReaderOK(s, f) && s.readers[f].Filling?
    ensures var r, t := s.readers[f], AfterFill(s, f, b, cap);
            && t.bufs.Keys == s.bufs.Keys
            && (t.readers[f] == Waiting || t.readers[f] == Ready(r.data, r.buf))
            && t.bufs[r.buf].cap == s.bufs[r.buf].cap
            && (t.readers[f].Ready? <==> Fits(s.flows[f].orig, |r.data|))
            && (t.readers[f].Ready? ==> t.bufs[r.buf].bytes == Frame(s.flows[f], r.data))
  {
    var r, fl := s.readers[f], s.flows[f];
    if Fits(fl.orig, |r.data|) {
      FrameLenExact(0, fl.conid, fl.orig, r.data);
      assert s.bufs[r.buf].bytes + Frame(fl, r.data) == Frame(fl, r.data);
    }
  }

  lemma FillReader(s: State, f: FlowId, b: BufId, cap: nat)
    requires f in s.readers && ReaderOK(s, f) && s.readers[f].Filling? && SingleOwner(s) && PoolOK(s) && b !in s.bufs
    ensures var t, buf := AfterFill(s, f, b, cap), s.readers[f].buf;
            && Moved(s, t, Some(buf), if t.readers[f].Ready? then Some(AtReader(f)) else None)
            && PoolOK(t) && SameBufs(s, t, Some(buf)) && t.bufs.Keys == s.bufs.Keys
            && t.conns == s.conns && t.flows == s.flows && t.heard == s.heard && t.readers == s.readers[f := t.readers[f]]
            && (forall p | Holds(s, p, buf) :: p == AtReader(f))
  {
    FillsInPlace(s, f, b, cap);
    var t, buf := AfterFill(s, f, b, cap), s.readers[f].buf;
    OnlyHolder(s, AtReader(f), buf);
    assert !Holds(s, Pool, buf);
    hide Frame, Subsequence, DataOf, ReaderOK, SingleOwner, Fits;
    ReaderMoves(s, t, f, buf, if t.readers[f].Ready? then Some(AtReader(f)) else None);
    hide Moved;
  }

  lemma FilledReader(s: State, f: FlowId, b: BufId, cap: nat)
    requires f in s.readers && ReaderOK(s, f) && s.readers[f].Filling?
    ensures ReaderOK(AfterFill(s, f, b, cap), f)
  {
    FillsInPlace(s, f, b, cap);
    SubsequenceGrows(DataOf(ConnOf(s, f).log, f), s.heard[f]);
    hide Frame, Subsequence, DataOf;
  }

  lemma FillInv(s: State, f: FlowId, b: BufId, cap: nat)
    requires Inv(s) && Enabled(0, s, Fill(f, b, cap))
    ensures Inv(AfterFill(s, f, b, cap))
  {
    hide Holds, Moved, SingleOwner, Allocated, ConnOK, ReaderOK, PoolOK, SameBufs, AfterFill;
    var t := AfterFill(s, f, b, cap);
    assert ReaderOK(s, f);
    FillReader(s, f, b, cap);
    FilledReader(s, f, b, cap);
    ReaderStepInv(s, t, f, Some(s.readers[f].buf), if t.readers[f].Ready? then Some(AtReader(f)) else None);
  }

  /** A reader lets go of a filled buffer: dropped for a full queue, or abandoned at the end. */
  lemma LetGoReader(queueLen: nat, s: State, a: Action)
    requires Enabled(queueLen, s, a) && (a.Drop? || a.Quit?)
    requires SingleOwner(s) && PoolOK(s) && ReaderOK(s, a.f)
    ensures var t, buf := Step(queueLen, s, a), s.readers[a.f].buf;
            && Moved(s, t, Some(buf), if buf in t.pool then Some(Pool) else None) && PoolOK(t)
            && (forall p | Holds(s, p, buf) :: p == AtReader(a.f))
            && ReaderOK(t, a.f)
            && t.conns == s.conns && t.flows == s.flows && t.heard == s.heard && t.bufs == s.bufs
            && t.readers == s.readers[a.f := t.readers[a.f]]
  {
    var buf := s.readers[a.f].buf;
    assert Holds(s, AtReader(a.f), buf);
    OnlyHolder(s, AtReader(a.f), buf);
    assert !Holds(s, Pool, buf);
    SubsequenceGrows(DataOf(ConnOf(s, a.f).log, a.f), s.heard[a.f]);
    hide Frame, Subsequence, DataOf, SingleOwner;
    var t := Step(queueLen, s, a);
    ReaderMoves(s, t, a.f, buf, if buf in t.pool then Some(Pool) else None);
    hide Moved;
  }

  lemma LetGoInv(queueLen: nat, s: State, a: Action)
    requires Inv(s) && Enabled(queueLen, s, a) && (a.Drop? || a.Quit?)
    ensures Inv(Step(queueLen, s, a))
  {
    hide Holds, Moved, SingleOwner, Allocated, ConnOK, ReaderOK, PoolOK, Step;
    var t, buf := Step(queueLen, s, a), s.readers[a.f].buf;
    assert ReaderOK(s, a.f);
    LetGoReader(queueLen, s, a);
    ReaderHasBuf(s, a.f);
    ReaderStepInv(s, t, a.f, Some(buf), if buf in t.pool then Some(Pool) else None);
  }

  lemma ReaderHasBuf(s: State, f: FlowId)
    requires f in s.readers && ReaderOK(s, f) && s.readers[f].Ready?
    ensures s.readers[f].buf in s.bufs
  {
  }

  // Writers.

  lemma FlatLast(flows: map<FlowId, Label>, c: ClientId, items: seq<Item>, n: nat)
    requires 0 < n <= |items| && AllLoggable(flows, c, items)
    ensures Flat(flows, c, items[..n]) == Flat(flows, c, items[..n - 1]) + FrameOf(flows, c, items[n - 1])
  {
    assert items[..n][..n - 1] == items[..n - 1];
  }

  /** The step of a writer that is not about to take a buffer. */
  predicate WriterStep(a: Action) {
    a.Write? || a.WriteFails? || a.Release? || a.Drained? || a.Flush? || a.FlushFails? || a.Stop? || a.Close?
  }

  lemma WrittenConn(flows: map<FlowId, Label>, bufs: map<BufId, Buf>, c: ClientId, cn: Conn, k: nat, ok: bool)
    requires ConnIs(flows, bufs, c, cn) && cn.writer.Writing?
    requires k <= |cn.pending| + |bufs[cn.writer.buf].bytes|
    ensures var all := cn.pending + bufs[cn.writer.buf].bytes;
            ConnIs(flows, bufs, c, cn.(sent := cn.sent + all[..k], pending := all[k..], writer := if ok then Releasing(cn.writer.buf) else Stopped))
  {
    hide Frame, Flat, AllLoggable;
    var frame := bufs[cn.writer.buf].bytes;
    var all := cn.pending + frame;
    FlatLast(flows, c, cn.log, cn.taken);
    assert cn.sent + all[..k] + all[k..] == cn.sent + cn.pending + frame;
    assert (cn.sent + all[..k]) == (cn.sent + all[..k] + all[k..])[..|cn.sent + all[..k]|];
  }

  /** The writer moves on in its loop. */
  lemma QuietConn(flows: map<FlowId, Label>, bufs: map<BufId, Buf>, c: ClientId, cn: Conn, w: Writer)
    requires ConnIs(flows, bufs, c, cn) && !cn.writer.Writing? && !cn.writer.Stopped?
    requires w == Draining || w == Flushing || w == Stopped
    ensures ConnIs(flows, bufs, c, cn.(writer := w))
  {
    hide Frame, Flat, AllLoggable;
  }

  /** The batch buffer goes out, whole or in part. */
  lemma FlushedConn(flows: map<FlowId, Label>, bufs: map<BufId, Buf>, c: ClientId, cn: Conn, k: nat)
    requires ConnIs(flows, bufs, c, cn) && !cn.writer.Writing? && !cn.writer.Stopped?
    requires k <= |cn.pending|
    ensures ConnIs(flows, bufs, c, cn.(sent := cn.sent + cn.pending, pending := [], writer := Outer))
    ensures ConnIs(flows, bufs, c, cn.(sent := cn.sent + cn.pending[..k], pending := cn.pending[k..], writer := Stopped))
  {
    hide Frame, Flat, AllLoggable;
    assert cn.sent + cn.pending + [] == cn.sent + cn.pending;
    assert cn.sent + cn.pending[..k] == (cn.sent + cn.pending)[..|cn.sent| + k];
  }

  lemma DoneConn(flows: map<FlowId, Label>, bufs: map<BufId, Buf>, c: ClientId, cn: Conn)
    requires ConnIs(flows, bufs, c, cn)
    ensures ConnIs(flows, bufs, c, cn.(done := true))
  {
    hide Frame, Flat, AllLoggable;
  }

  lemma TakenConn(flows: map<FlowId, Label>, bufs: map<BufId, Buf>, c: ClientId, cn: Conn)
    requires ConnIs(flows, bufs, c, cn) && (cn.writer.Outer? || cn.writer.Draining?) && cn.queue != []
    ensures ConnIs(flows, bufs, c, cn.(queue := cn.queue[1..], writer := Writing(cn.queue[0]), taken := cn.taken + 1))
  {
    hide Frame, Flat;
    var d := cn.(queue := cn.queue[1..], writer := Writing(cn.queue[0]), taken := cn.taken + 1);
    forall i | 0 <= i < |d.queue| ensures d.queue[i] == cn.queue[i + 1] {
    }
    assert bufs[cn.queue[0]].bytes == FrameOf(flows, c, cn.log[cn.taken]);
  }

  lemma EnqueuedConn(flows: map<FlowId, Label>, bufs: map<BufId, Buf>, c: ClientId, cn: Conn, b: BufId, it: Item)
    requires ConnIs(flows, bufs, c, cn) && Loggable(flows, c, it) && b in bufs && bufs[b].bytes == FrameOf(flows, c, it)
    ensures ConnIs(flows, bufs, c, cn.(queue := cn.queue + [b], log := cn.log + [it]))
  {
    hide Frame, Flat;
    var d := cn.(queue := cn.queue + [b], log := cn.log + [it]);
    assert d.log[..cn.taken] == cn.log[..cn.taken];
    if cn.writer.Writing? {
      assert d.log[..cn.taken - 1] == cn.log[..cn.taken - 1];
    }
  }

  lemma WriterStepConn(s: State, a: Action)
    requires WriterStep(a) && Enabled(0, s, a) && ConnOK(s, a.c)
    ensures ConnOK(Step(0, s, a), a.c)
  {
    hide ConnIs;
    var cn := s.conns[a.c];
    if a.Write? || a.WriteFails? {
      WrittenConn(s.flows, s.bufs, a.c, cn, a.through, a.Write?);
    } else if a.Close? {
      DoneConn(s.flows, s.bufs, a.c, cn);
    } else if a.Flush? || a.FlushFails? {
      FlushedConn(s.flows, s.bufs, a.c, cn, if a.FlushFails? then a.through else 0);
    } else {
      QuietConn(s.flows, s.bufs, a.c, cn, if a.Release? then Draining else if a.Drained? then Flushing else Stopped);
    }
  }

  /** What a writer step does to ownership: releasing hands the buffer back, a failed write drops it. */
  lemma WriterMoves(s: State, a: Action)
    requires WriterStep(a) && Enabled(0, s, a) && SingleOwner(s) && PoolOK(s)
    ensures var t := Step(0, s, a);
            var moved := if a.Release? || a.WriteFails? then Some(s.conns[a.c].writer.buf) else None;
            Moved(s, t, moved, if a.Release? && moved.value in t.pool then Some(Pool) else None) && PoolOK(t)
  {
    if a.Release? || a.WriteFails? {
      WriterReleases(s, a);
    } else {
      WriterKeeps(s, a);
    }
  }

  lemma WriterReleases(s: State, a: Action)
    requires (a.Release? || a.WriteFails?) && Enabled(0, s, a) && SingleOwner(s) && PoolOK(s)
    ensures var t, b := Step(0, s, a), s.conns[a.c].writer.buf;
            Moved(s, t, Some(b), if a.Release? && b in t.pool then Some(Pool) else None) && PoolOK(t)
  {
    var t, b := Step(0, s, a), s.conns[a.c].writer.buf;
    OnlyHolder(s, AtWriter(a.c), b);
    assert !Holds(s, Pool, b);
    hide SingleOwner;
    WriterLetsGo(s, t, a.c, b);
  }

  lemma WriterKeeps(s: State, a: Action)
    requires WriterStep(a) && !a.Release? && !a.WriteFails? && Enabled(0, s, a) && PoolOK(s)
    ensures Moved(s, Step(0, s, a), None, None) && PoolOK(Step(0, s, a))
  {
    hide Moved;
    SameHolders(s, Step(0, s, a), a.c);
  }

  lemma WriterLetsGo(s: State, t: State, c: ClientId, b: BufId)
    requires t.readers == s.readers && c in s.conns && c in t.conns && t.conns == s.conns[c := t.conns[c]]
    requires t.conns[c].queue == s.conns[c].queue
    requires forall x | x != b :: x in t.pool <==> x in s.pool
    requires forall p | Holds(s, p, b) :: p == AtWriter(c)
    requires Holds(s, AtWriter(c), b) && forall x :: !Holds(t, AtWriter(c), x)
    ensures Moved(s, t, Some(b), if b in t.pool then Some(Pool) else None)
  {
    forall p, x: BufId | x != b ensures Holds(t, p, x) <==> Holds(s, p, x) {
      if p.AtWriter? && p.c == c {
        assert p == AtWriter(c);
      }
    }
    forall p ensures Holds(t, p, b) <==> (b in t.pool && p == Pool) {
      if p.AtWriter? && p.c == c {
        assert p == AtWriter(c);
      } else if !p.Pool? {
        assert Holds(t, p, b) == Holds(s, p, b);
      }
    }
  }

  lemma SameHolders(s: State, t: State, c: ClientId)
    requires t.readers == s.readers && t.pool == s.pool && c in s.conns && c in t.conns && t.conns == s.conns[c := t.conns[c]]
    requires t.conns[c].queue == s.conns[c].queue
    requires forall x :: Holds(t, AtWriter(c), x) <==> Holds(s, AtWriter(c), x)
    ensures Moved(s, t, None, None)
  {
    forall p, x: BufId ensures Holds(t, p, x) <==> Holds(s, p, x) {
      if p.AtWriter? && p.c == c {
        assert p == AtWriter(c);
      }
    }
  }

  lemma WriterStepInv(s: State, a: Action)
    requires Inv(s) && WriterStep(a) && Enabled(0, s, a)
    ensures Inv(Step(0, s, a))
  {
    hide Inv, Holds, Moved, SingleOwner, Allocated, ConnOK, ReaderOK, PoolOK, Step, Enabled;
    var t := Step(0, s, a);
    InvParts(s);
    WriterFrame(s, a);
    InvConn(s, a.c);
    WriterStepConn(s, a);
    WriterMoves(s, a);
    var moved := if a.Release? || a.WriteFails? then Some(s.conns[a.c].writer.buf) else None;
    if a.Release? {
      WriterHasBuf(s, a.c);
    }
    ConnStepInv(s, t, a.c, moved, if a.Release? && moved.value in t.pool then Some(Pool) else None);
  }

  /** What a writer step leaves alone. */
  lemma WriterFrame(s: State, a: Action)
    requires WriterStep(a) && Enabled(0, s, a)
    ensures var t := Step(0, s, a);
            && a.c in s.conns && a.c in t.conns && t.conns == s.conns[a.c := t.conns[a.c]] && t.conns[a.c].log == s.conns[a.c].log
            && t.flows == s.flows && t.readers == s.readers && t.heard == s.heard && t.bufs == s.bufs
            && (a.Release? ==> s.conns[a.c].writer.Releasing?) && (a.WriteFails? ==> s.conns[a.c].writer.Writing?)
  {
  }

  lemma WriterHasBuf(s: State, c: ClientId)
    requires c in s.conns && s.conns[c].writer.Releasing? && Allocated(s)
    ensures s.conns[c].writer.buf in s.bufs
  {
    assert Holds(s, AtWriter(c), s.conns[c].writer.buf);
  }

  /** Taking the head of the queue shifts the others forward: every holding comes from exactly one before. */
  lemma TakeOwners(s: State, c: ClientId)
    requires SingleOwner(s) && Allocated(s) && Enabled(0, s, Take(c))
    ensures var t := Step(0, s, Take(c)); SingleOwner(t) && Allocated(t)
  {
    var t := Step(0, s, Take(c));
    forall p, b: BufId | Holds(t, p, b) ensures Holds(s, BeforeTake(c, p), b) {
      if p.InQueue? && p.c == c {
        assert t.conns[c].queue[p.i] == s.conns[c].queue[p.i + 1];
      }
    }
    hide Holds, Step;
    forall p, q, b: BufId | Holds(t, p, b) && Holds(t, q, b) ensures p == q {
      assert BeforeTake(c, p) == BeforeTake(c, q);
    }
    assert t.bufs == s.bufs by { TakeKeepsBufs(s, c); }
  }

  lemma TakeKeepsBufs(s: State, c: ClientId)
    requires Enabled(0, s, Take(c))
    ensures Step(0, s, Take(c)).bufs == s.bufs
  {
  }

  function BeforeTake(c: ClientId, p: Place): Place
  {
    match p
    case AtWriter(d) => if d == c then InQueue(c, 0) else p
    case InQueue(d, i) => if d == c then InQueue(c, i + 1) else p
    case _ => p
  }

  lemma TakeInv(s: State, c: ClientId)
    requires Inv(s) && Enabled(0, s, Take(c))
    ensures Inv(Step(0, s, Take(c)))
  {
    hide Holds, SingleOwner, Allocated, ReaderOK, ConnIs;
    assert ConnOK(s, c);
    TakeOwners(s, c);
    TakenConn(s.flows, s.bufs, c, s.conns[c]);
    OtherConns(s, Step(0, s, Take(c)), c);
  }

  // The queue, and the steps that bring in clients and flows.

  lemma EnqueueOwners(queueLen: nat, s: State, f: FlowId)
    requires Enabled(queueLen, s, Enqueue(f)) && SingleOwner(s) && Allocated(s)
    ensures var t := Step(queueLen, s, Enqueue(f)); SingleOwner(t) && Allocated(t)
  {
    var t := Step(queueLen, s, Enqueue(f));
    var c, b := s.flows[f].client, s.readers[f].buf;
    var n := |s.conns[c].queue|;
    OnlyHolder(s, AtReader(f), b);
    forall p, x: BufId | Holds(t, p, x) ensures Holds(s, BeforeEnqueue(f, c, n, p), x) && p != AtReader(f) {
      if p.InQueue? && p.c == c && p.i < n {
        assert t.conns[c].queue[p.i] == s.conns[c].queue[p.i];
      }
    }
    assert t.bufs == s.bufs;
    hide Holds, Step;
    forall p, q, x: BufId | Holds(t, p, x) && Holds(t, q, x) ensures p == q {
      assert BeforeEnqueue(f, c, n, p) == BeforeEnqueue(f, c, n, q);
    }
  }

  function BeforeEnqueue(f: FlowId, c: ClientId, n: nat, p: Place): Place
  {
    if p == InQueue(c, n) then AtReader(f) else p
  }

  lemma EnqueueReaders(queueLen: nat, s: State, f: FlowId, g: FlowId)
    requires Enabled(queueLen, s, Enqueue(f)) && g in s.readers && ReaderOK(s, g) && ReaderOK(s, f)
    ensures ReaderOK(Step(queueLen, s, Enqueue(f)), g)
  {
    var t := Step(queueLen, s, Enqueue(f));
    var c := s.flows[f].client;
    var log, it := s.conns[c].log, Item(f, s.readers[f].data);
    assert (log + [it])[..|log|] == log;
    assert DataOf(log + [it], g) == DataOf(log, g) + if g == f then [it.data] else [];
    if g == f {
      SubsequenceGrows(DataOf(log, f), s.heard[f]);
    } else {
      assert DataOf(log + [it], g) == DataOf(log, g);
    }
    hide DataOf, Subsequence, Frame;
  }

  lemma EnqueueConn(queueLen: nat, s: State, f: FlowId)
    requires Enabled(queueLen, s, Enqueue(f)) && ReaderOK(s, f) && ConnOK(s, s.flows[f].client)
    ensures ConnOK(Step(queueLen, s, Enqueue(f)), s.flows[f].client)
  {
    hide ConnIs, Frame;
    var c, r := s.flows[f].client, s.readers[f];
    EnqueuedConn(s.flows, s.bufs, c, s.conns[c], r.buf, Item(f, r.data));
  }

  lemma EnqueueInv(queueLen: nat, s: State, f: FlowId)
    requires Inv(s) && Enabled(queueLen, s, Enqueue(f))
    ensures Inv(Step(queueLen, s, Enqueue(f)))
  {
    hide Holds, SingleOwner, Allocated, ReaderOK, ConnOK;
    var t := Step(queueLen, s, Enqueue(f));
    EnqueueOwners(queueLen, s, f);
    forall g | g in t.readers ensures ReaderOK(t, g) {
      assert ReaderOK(s, g) && ReaderOK(s, f);
      EnqueueReaders(queueLen, s, f, g);
    }
    forall d | d in t.conns ensures ConnOK(t, d) {
      assert ConnOK(s, d);
      if d == s.flows[f].client {
        assert ReaderOK(s, f);
        EnqueueConn(queueLen, s, f);
      } else {
        ConnFrame(s, t, d, None);
      }
    }
  }

  lemma ConnectInv(s: State, c: ClientId)
    requires Inv(s) && Enabled(0, s, Connect(c))
    ensures Inv(Step(0, s, Connect(c)))
  {
    hide Inv, Holds, SingleOwner, Allocated, PoolOK, ReaderOK, ConnOK, Moved, SameFlows, SameBufs, Step, Enabled;
    var t := Step(0, s, Connect(c));
    InvParts(s);
    ConnectFrame(s, c);
    MovedOwners(s, t, None, None);
    forall g | g in t.readers ensures ReaderOK(t, g) {
      InvReader(s, g);
      ReaderFrame(s, t, g, None);
    }
    forall d | d in t.conns ensures ConnOK(t, d) {
      if d == c {
        NewConn(t, c);
      } else {
        InvConn(s, d);
        ConnFrame(s, t, d, None);
      }
    }
    MakeInv(t);
  }

  lemma ConnectFrame(s: State, c: ClientId)
    requires Enabled(0, s, Connect(c)) && PoolOK(s)
    ensures var t := Step(0, s, Connect(c));
            && Moved(s, t, None, None) && SameFlows(s, t) && SameBufs(s, t, None) && PoolOK(t)
            && t.flows == s.flows && t.readers == s.readers && t.heard == s.heard && t.bufs == s.bufs
            && c !in s.conns && t.conns == s.conns[c := Conn([], Outer, [], [], false, [], 0)]
  {
  }

  lemma NewConn(t: State, c: ClientId)
    requires c in t.conns && t.conns[c] == Conn([], Outer, [], [], false, [], 0)
    ensures ConnOK(t, c)
  {
  }

  lemma CollectInv(s: State, b: BufId)
    requires Inv(s) && Enabled(0, s, Collect(b))
    ensures Inv(Step(0, s, Collect(b)))
  {
    var t := Step(0, s, Collect(b));
    forall p, x: BufId | Holds(t, p, x) ensures Holds(s, p, x) {
    }
    hide Holds, ReaderOK, ConnOK;
    forall g | g in t.readers ensures ReaderOK(t, g) {
      assert ReaderOK(s, g);
      ReaderHasFlow(s, g);
      ReaderFrame(s, t, g, None);
    }
    forall d | d in t.conns ensures ConnOK(t, d) {
      assert ConnOK(s, d);
      ConnFrame(s, t, d, None);
    }
  }

  lemma {:induction false} FlatMoreFlows(flows: map<FlowId, Label>, f: FlowId, flow: Label, c: ClientId, items: seq<Item>)
    requires f !in flows && AllLoggable(flows, c, items)
    ensures AllLoggable(flows[f := flow], c, items) && Flat(flows[f := flow], c, items) == Flat(flows, c, items)
  {
    forall i | 0 <= i < |items| ensures Loggable(flows[f := flow], c, items[i]) {
      assert Loggable(flows, c, items[i]);
    }
    if items != [] {
      assert Loggable(flows, c, items[|items| - 1]);
      FlatMoreFlows(flows, f, flow, c, items[..|items| - 1]);
    }
  }

  lemma ConnMoreFlows(flows: map<FlowId, Label>, f: FlowId, flow: Label, bufs: map<BufId, Buf>, c: ClientId, cn: Conn)
    requires f !in flows && ConnIs(flows, bufs, c, cn)
    ensures ConnIs(flows[f := flow], bufs, c, cn)
  {
    hide Frame, Flat;
    FlatMoreFlows(flows, f, flow, c, cn.log);
    FlatMoreFlows(flows, f, flow, c, cn.log[..cn.taken]);
    if cn.writer.Writing? {
      FlatMoreFlows(flows, f, flow, c, cn.log[..cn.taken - 1]);
    }
    assert forall i | 0 <= i < |cn.log| :: Loggable(flows, c, cn.log[i]);
  }

  lemma {:induction false} NoDataYet(flows: map<FlowId, Label>, c: ClientId, items: seq<Item>, f: FlowId)
    requires AllLoggable(flows, c, items) && f !in flows
    ensures DataOf(items, f) == []
  {
    if items != [] {
      assert Loggable(flows, c, items[|items| - 1]);
      NoDataYet(flows, c, items[..|items| - 1], f);
    }
  }

  lemma OpenReader(s: State, f: FlowId, flow: Label)
    requires Enabled(0, s, Open(f, flow)) && ConnOK(s, flow.client)
    ensures ReaderOK(Step(0, s, Open(f, flow)), f)
  {
    NoDataYet(s.flows, flow.client, s.conns[flow.client].log, f);
    hide DataOf, Frame;
  }

  lemma OpenFrame(s: State, f: FlowId, flow: Label)
    requires Enabled(0, s, Open(f, flow))
    ensures var t := Step(0, s, Open(f, flow));
            && Moved(s, t, None, None) && SameFlows(s, t) && SameBufs(s, t, None)
            && t.conns == s.conns && t.bufs == s.bufs && t.pool == s.pool && t.flows == s.flows[f := flow]
            && t.readers.Keys == s.readers.Keys + {f} && f !in s.flows && f !in s.readers && flow.client in s.conns
            && (PoolOK(s) ==> PoolOK(t))
            && (forall g | g in s.readers && g in s.heard && g != f :: g in t.heard && t.readers[g] == s.readers[g] && t.heard[g] == s.heard[g])
  {
  }

  lemma OpenInv(s: State, f: FlowId, flow: Label)
    requires Inv(s) && Enabled(0, s, Open(f, flow))
    ensures Inv(Step(0, s, Open(f, flow)))
  {
    hide Inv, Holds, SingleOwner, Allocated, PoolOK, ReaderOK, ConnOK, ConnIs, Moved, SameFlows, SameBufs, Step, Enabled;
    var t := Step(0, s, Open(f, flow));
    InvParts(s);
    OpenFrame(s, f, flow);
    MovedOwners(s, t, None, None);
    forall g | g in t.readers ensures ReaderOK(t, g) {
      if g == f {
        InvConn(s, flow.client);
        OpenReader(s, f, flow);
      } else {
        InvReader(s, g);
        ReaderFrame(s, t, g, None);
      }
    }
    forall d | d in t.conns ensures ConnOK(t, d) {
      InvConn(s, d);
      OpenConn(s, t, f, flow, d);
    }
    MakeInv(t);
  }

  lemma OpenConn(s: State, t: State, f: FlowId, flow: Label, d: ClientId)
    requires f !in s.flows && t.flows == s.flows[f := flow] && t.bufs == s.bufs && t.conns == s.conns && d in s.conns && ConnOK(s, d)
    ensures ConnOK(t, d)
  {
    hide ConnIs;
    ConnMoreFlows(s.flows, f, flow, s.bufs, d, s.conns[d]);
  }

  // Every step, and every run.

  lemma StepInv(queueLen: nat, s: State, a: Action)
    requires Inv(s) && Enabled(queueLen, s, a)
    ensures Inv(Step(queueLen, s, a))
  {
    hide Inv;
    if WriterStep(a) {
      WriterStepInv(s, a);
    } else {
      match a
      case Connect(c) => ConnectInv(s, c);
      case Open(f, flow) => OpenInv(s, f, flow);
      case Receive(f, data) => ReceiveInv(s, f, data);
      case Reuse(f, b) => ReuseInv(s, f, b);
      case Allocate(f, b) => AllocateInv(s, f, b);
      case Fill(f, b, cap) => FillInv(s, f, b, cap);
      case Enqueue(f) => EnqueueInv(queueLen, s, f);
      case Fail(f) => FailInv(s, f);
      case Take(c) => TakeInv(s, c);
      case Collect(b) => CollectInv(s, b);
      case Drop(f) => LetGoInv(queueLen, s, a);
      case Quit(f) => LetGoInv(queueLen, s, a);
    }
  }

  predicate Runs(queueLen: nat, s: State, run: seq<Action>)
    decreases |run|
  {
    run == [] || (Enabled(queueLen, s, run[0]) && Runs(queueLen, Step(queueLen, s, run[0]), run[1..]))
  }

  function After(queueLen: nat, s: State, run: seq<Action>): State
    requires Runs(queueLen, s, run)
    decreases |run|
  {
    if run == [] then s else After(queueLen, Step(queueLen, s, run[0]), run[1..])
  }

  lemma {:induction false} RunInv(queueLen: nat, s: State, run: seq<Action>)
    requires Inv(s) && Runs(queueLen, s, run)
    ensures Inv(After(queueLen, s, run))
    decreases |run|
  {
    if run != [] {
      hide Inv, Step, Enabled;
      StepInv(queueLen, s, run[0]);
      RunInv(queueLen, Step(queueLen, s, run[0]), run[1..]);
    }
  }

  lemma StartInv()
    ensures Inv(Start)
  {
  }

  // What the client can read from the tunnel.

  function PayloadsOf(flows: map<FlowId, Label>, c: ClientId, items: seq<Item>): seq<payload>
    requires AllLoggable(flows, c, items)
  {
    if items == [] then []
    else
      var it := items[|items| - 1];
      assert Loggable(flows, c, it);
      PayloadsOf(flows, c, items[..|items| - 1]) + [Payload(0, flows[it.flow].conid, flows[it.flow].orig, it.data)]
  }

  lemma {:induction false} FlatIsFrames(flows: map<FlowId, Label>, c: ClientId, items: seq<Item>)
    requires AllLoggable(flows, c, items)
    ensures Flat(flows, c, items) == FrameAll(PayloadsOf(flows, c, items))
  {
    if items != [] {
      var it := items[|items| - 1];
      assert Loggable(flows, c, it);
      var p: payload := Payload(0, flows[it.flow].conid, flows[it.flow].orig, it.data);
      FlatIsFrames(flows, c, items[..|items| - 1]);
      FrameAllAppend(PayloadsOf(flows, c, items[..|items| - 1]), [p]);
      hide Payload, Framed;
      assert FrameAll([p]) == Framed(p) + FrameAll([]);
      assert Framed(p) + [] == Framed(p);
    }
  }

  /** A tunnel that ends anywhere still decodes to the first of the frames put into it. */
  lemma PrefixDeframe(ps: seq<payload>, a: seq<byte>)
    requires IsPrefix(a, FrameAll(ps))
    ensures |Deframe(a).0| <= |ps| && Deframe(a).0 == ps[..|Deframe(a).0|]
    ensures a == FrameAll(ps) ==> Deframe(a).0 == ps
  {
    hide Deframe, FrameAll;
    var rest := FrameAll(ps)[|a|..];
    assert a + rest == FrameAll(ps) && FrameAll(ps) + [] == FrameAll(ps);
    DeframeFrameAll(ps, []);
    NothingFramed();
    DeframeSplit(a, rest);
    assert ps + [] == ps;
    if a == FrameAll(ps) {
      assert a + [] == a;
    }
  }

  lemma NothingFramed()
    ensures Deframe([]) == ([], [])
  {
  }

  function PacketOf(flows: map<FlowId, Label>, c: ClientId, it: Item): Packet
    requires Loggable(flows, c, it)
  {
    Datagram(FlagsFor(0, flows[it.flow].orig), flows[it.flow].conid, flows[it.flow].orig, it.data)
  }

  /** The packets a client should see for a list of datagrams: each with its flow's id and original address. */
  function PacketsOf(flows: map<FlowId, Label>, c: ClientId, items: seq<Item>): seq<Packet>
    requires AllLoggable(flows, c, items)
  {
    if items == [] then []
    else PacketsOf(flows, c, items[..|items| - 1]) + [PacketOf(flows, c, items[|items| - 1])]
  }

  lemma {:induction false} PacketsFromPayloads(flows: map<FlowId, Label>, c: ClientId, items: seq<Item>)
    requires AllLoggable(flows, c, items)
    ensures HandledOf(PayloadsOf(flows, c, items)) == PacketsOf(flows, c, items) && |PayloadsOf(flows, c, items)| == |items|
  {
    if items != [] {
      var it := items[|items| - 1];
      assert Loggable(flows, c, it);
      var p: payload := Payload(0, flows[it.flow].conid, flows[it.flow].orig, it.data);
      PacketsFromPayloads(flows, c, items[..|items| - 1]);
      ParseOfPayload(0, flows[it.flow].conid, flows[it.flow].orig, it.data);
      HandledAppend(PayloadsOf(flows, c, items[..|items| - 1]), [p]);
      hide Payload, ParsePacket;
      assert HandledOf([p]) == [PacketOf(flows, c, it)] + HandledOf([]);
      assert [PacketOf(flows, c, it)] + [] == [PacketOf(flows, c, it)];
    }
  }

  lemma {:induction false} PayloadsPrefix(flows: map<FlowId, Label>, c: ClientId, items: seq<Item>, n: nat)
    requires AllLoggable(flows, c, items) && n <= |items|
    ensures |PayloadsOf(flows, c, items)| == |items| && PayloadsOf(flows, c, items)[..n] == PayloadsOf(flows, c, items[..n])
  {
    if n == |items| {
      assert items[..n] == items;
      PacketsFromPayloads(flows, c, items);
    } else {
      PayloadsPrefix(flows, c, items[..|items| - 1], n);
      assert items[..|items| - 1][..n] == items[..n];
    }
  }

  /** The tunnel holds whole frames of the datagrams taken so far, cut off at most at its end. */
  lemma SentIsPrefix(s: State, c: ClientId)
    requires c in s.conns && ConnOK(s, c)
    ensures var cn := s.conns[c];
            && IsPrefix(cn.sent, Flat(s.flows, c, cn.log[..cn.taken]))
            && (cn.writer.Outer? ==> cn.sent == Flat(s.flows, c, cn.log[..cn.taken]) && cn.pending == [])
  {
    hide Frame, Flat;
    var cn := s.conns[c];
    if cn.writer.Writing? {
      FlatLast(s.flows, c, cn.log, cn.taken);
    }
    if cn.writer.Outer? {
      assert cn.sent + [] == cn.sent;
    }
  }

  /** Decoding a prefix of the frames of some datagrams gives the packets of the first of them. */
  lemma DecodedOf(flows: map<FlowId, Label>, c: ClientId, items: seq<Item>, sent: seq<byte>) returns (n: nat)
    requires AllLoggable(flows, c, items) && IsPrefix(sent, Flat(flows, c, items))
    ensures n <= |items| && AllLoggable(flows, c, items[..n])
    ensures HandledOf(Deframe(sent).0) == PacketsOf(flows, c, items[..n])
    ensures sent == Flat(flows, c, items) ==> n == |items|
  {
    hide Flat, FrameAll, Deframe, HandledOf, PayloadsOf, PacketsOf, IsPrefix;
    FlatIsFrames(flows, c, items);
    PacketsFromPayloads(flows, c, items);
    var ps := PayloadsOf(flows, c, items);
    PrefixDeframe(ps, sent);
    n := |Deframe(sent).0|;
    PayloadsPrefix(flows, c, items, n);
    PacketsFromPayloads(flows, c, items[..n]);
  }

  /** Decoding what has arrived in the tunnel gives the packets of the first datagrams queued for this
      client, and of everything taken when the writer is back at its outer select. */
  lemma Decoded(s: State, c: ClientId) returns (n: nat)
    requires c in s.conns && ConnOK(s, c)
    ensures var cn := s.conns[c];
            && n <= cn.taken <= |cn.log|
            && HandledOf(Deframe(cn.sent).0) == PacketsOf(s.flows, c, cn.log[..n])
            && (cn.writer.Outer? ==> n == cn.taken)
  {
    var cn := s.conns[c];
    var items := cn.log[..cn.taken];
    SentIsPrefix(s, c);
    LogIsLoggable(s, c);
    hide ConnOK, Flat, Deframe, HandledOf, PacketsOf, IsPrefix, AllLoggable;
    n := DecodedOf(s.flows, c, items, cn.sent);
    assert items[..n] == cn.log[..n];
  }

  lemma LogIsLoggable(s: State, c: ClientId)
    requires c in s.conns && ConnOK(s, c)
    ensures AllLoggable(s.flows, c, s.conns[c].log) && s.conns[c].taken <= |s.conns[c].log|
    ensures forall n: nat | n <= |s.conns[c].log| :: AllLoggable(s.flows, c, s.conns[c].log[..n])
  {
  }

  lemma {:induction false} SubsequenceOfFewer<T>(a: seq<T>, x: T, b: seq<T>)
    requires Subsequence(a + [x], b)
    ensures Subsequence(a, b)
  {
    var c := a + [x];
    assert c[..|c| - 1] == a;
    if !Subsequence(c, b[..|b| - 1]) {
      SubsequenceLonger(a, b);
    } else {
      SubsequenceOfFewer(a, x, b[..|b| - 1]);
      SubsequenceLonger(a, b);
    }
  }

  lemma SubsequenceLonger<T>(a: seq<T>, b: seq<T>)
    requires b != [] && Subsequence(a, b[..|b| - 1])
    ensures Subsequence(a, b)
  {
  }

  lemma {:induction false} PrefixKept(items: seq<Item>, n: nat, f: FlowId, heard: seq<seq<byte>>)
    requires n <= |items| && Subsequence(DataOf(items, f), heard)
    ensures Subsequence(DataOf(items[..n], f), heard)
  {
    if n == |items| {
      assert items[..n] == items;
    } else {
      var front, last := items[..|items| - 1], items[|items| - 1];
      if last.flow == f {
        SubsequenceOfFewer(DataOf(front, f), last.data, heard);
      }
      PrefixKept(front, n, f, heard);
      assert front[..n] == items[..n];
    }
  }

  /** The log of a client keeps, per flow, an in-order selection of what the flow received. */
  lemma KeptInOrder(s: State, f: FlowId)
    requires f in s.readers && ReaderOK(s, f)
    ensures Subsequence(DataOf(ConnOf(s, f).log, f), s.heard[f])
  {
    if !s.readers[f].Waiting? && !s.readers[f].Ended? {
      SubsequenceLonger(DataOf(ConnOf(s, f).log, f), s.heard[f]);
    }
  }

  /** What every run guarantees each client: the packets it decodes from the tunnel are, per flow, an
      in-order selection without repetition of the datagrams that flow received, labelled with the
      flow's own id and original address; nothing is held back while the writer waits. */
  lemma RepliesAreFaithful(queueLen: nat, run: seq<Action>, c: ClientId) returns (shown: seq<Item>)
    requires Runs(queueLen, Start, run) && c in After(queueLen, Start, run).conns
    ensures var s := After(queueLen, Start, run);
            var cn := s.conns[c];
            && AllLoggable(s.flows, c, shown)
            && HandledOf(Deframe(cn.sent).0) == PacketsOf(s.flows, c, shown)
            && (cn.writer.Outer? ==> cn.taken <= |cn.log| && shown == cn.log[..cn.taken])
            && forall f | f in s.flows && s.flows[f].client == c :: f in s.heard && Subsequence(DataOf(shown, f), s.heard[f])
  {
    var s := After(queueLen, Start, run);
    StartInv();
    RunInv(queueLen, Start, run);
    hide After, Runs, ConnOK, ReaderOK, Subsequence, DataOf, PacketsOf, Deframe, HandledOf;
    assert ConnOK(s, c);
    var n := Decoded(s, c);
    LogIsLoggable(s, c);
    shown := s.conns[c].log[..n];
    forall f | f in s.flows && s.flows[f].client == c ensures f in s.heard && Subsequence(DataOf(shown, f), s.heard[f]) {
      assert f in s.readers && ReaderOK(s, f);
      ReaderHasFlow(s, f);
      KeptInOrder(s, f);
      PrefixKept(s.conns[c].log, n, f, s.heard[f]);
    }
  }

  /** A held buffer keeps its contents through every step but its own reader's filling of it. */
  lemma HeldUnchanged(queueLen: nat, s: State, a: Action, p: Place, b: BufId)
    requires SingleOwner(s) && Allocated(s) && Enabled(queueLen, s, a) && Holds(s, p, b) && !p.Pool?
    requires a.Fill? ==> p != AtReader(a.f)
    ensures var t := Step(queueLen, s, a); b in t.bufs && t.bufs[b] == s.bufs[b]
  {
    hide Frame, FrameLen, SingleOwner;
    Elsewhere(s, p, Pool, b);
    if a.Fill? {
      Elsewhere(s, p, AtReader(a.f), b);
    }
  }

  lemma Elsewhere(s: State, p: Place, q: Place, b: BufId)
    requires SingleOwner(s) && Holds(s, p, b) && p != q
    ensures !Holds(s, q, b)
  {
    hide Holds;
  }

  /** In every reachable state a buffer has at most one holder, filling never allocates, and a buffer in a
      reader's, a queue's or a writer's hands does not change underneath it: no step touches it but the
      filling by the reader that holds it. */
  lemma BuffersAreOwned(queueLen: nat, run: seq<Action>)
    requires Runs(queueLen, Start, run)
    ensures var s := After(queueLen, Start, run);
            && (forall p, q, b: BufId | Holds(s, p, b) && Holds(s, q, b) :: p == q)
            && (forall b | b in s.pool :: b in s.bufs && s.bufs[b].cap == 2048)
            && (forall f, b: BufId, cap: nat | Enabled(queueLen, s, Fill(f, b, cap)) :: Step(queueLen, s, Fill(f, b, cap)).bufs.Keys == s.bufs.Keys)
            && (forall a, p, b: BufId | Enabled(queueLen, s, a) && Holds(s, p, b) && !p.Pool? && (a.Fill? ==> p != AtReader(a.f)) ::
                  b in s.bufs && b in Step(queueLen, s, a).bufs && Step(queueLen, s, a).bufs[b] == s.bufs[b])
  {
    var s := After(queueLen, Start, run);
    StartInv();
    RunInv(queueLen, Start, run);
    hide After, Runs, Holds, Step, Enabled;
    forall f, b: BufId, cap: nat | Enabled(queueLen, s, Fill(f, b, cap)) ensures Step(queueLen, s, Fill(f, b, cap)).bufs.Keys == s.bufs.Keys {
      FillKeepsKeys(queueLen, s, f, b, cap);
    }
    forall a, p, b: BufId | Enabled(queueLen, s, a) && Holds(s, p, b) && !p.Pool? && (a.Fill? ==> p != AtReader(a.f))
      ensures b in s.bufs && b in Step(queueLen, s, a).bufs && Step(queueLen, s, a).bufs[b] == s.bufs[b]
    {
      HeldUnchanged(queueLen, s, a, p, b);
    }
  }

  lemma FillKeepsKeys(queueLen: nat, s: State, f: FlowId, b: BufId, cap: nat)
    requires Inv(s) && Enabled(queueLen, s, Fill(f, b, cap))
    ensures Step(queueLen, s, Fill(f, b, cap)).bufs.Keys == s.bufs.Keys
  {
    assert ReaderOK(s, f);
    FillsInPlace(s, f, b, cap);
  }

  /** Who gives buffers back: a reader that drops a frame and a writer that has written one put the buffer they
      held into the pool exactly if it has 2048 bytes; no other step puts anything there. */
  lemma HandedBack(queueLen: nat, s: State, a: Action, b: BufId)
    requires Inv(s) && Enabled(queueLen, s, a)
    requires a.Drop? ==> b == s.readers[a.f].buf
    requires a.Release? ==> b == s.conns[a.c].writer.buf
    ensures var t := Step(queueLen, s, a);
            if a.Drop? || a.Release? then b in s.bufs && t.pool == s.pool + (if s.bufs[b].cap == 2048 then {b} else {})
            else t.pool <= s.pool
  {
    hide Inv, SingleOwner, PoolOK, Allocated, Enabled, Step;
    InvParts(s);
    if a.Drop? || a.Release? {
      Returned(queueLen, s, a, b);
    } else if WriterStep(a) {
      WriterPool(queueLen, s, a);
    } else {
      ReaderPool(queueLen, s, a);
    }
  }

  lemma Returned(queueLen: nat, s: State, a: Action, b: BufId)
    requires Allocated(s) && Enabled(queueLen, s, a) && (a.Drop? || a.Release?)
    requires b == if a.Drop? then s.readers[a.f].buf else s.conns[a.c].writer.buf
    ensures b in s.bufs && Step(queueLen, s, a).pool == s.pool + if s.bufs[b].cap == 2048 then {b} else {}
  {
    assert Holds(s, if a.Drop? then AtReader(a.f) else AtWriter(a.c), b);
    hide Allocated;
    assert s.pool + {} == s.pool;
  }

  lemma WriterPool(queueLen: nat, s: State, a: Action)
    requires Enabled(queueLen, s, a) && WriterStep(a) && !a.Release?
    ensures Step(queueLen, s, a).pool == s.pool
  {
    if a.Write? || a.WriteFails? {
      hide Enabled;
      WritePool(s, a.c, a.through, if a.Write? then Releasing(s.conns[a.c].writer.buf) else Stopped);
      hide AfterWrite;
    }
  }

  lemma WritePool(s: State, c: ClientId, k: nat, w: Writer)
    requires c in s.conns && s.conns[c].writer.Writing? && s.conns[c].writer.buf in s.bufs
    requires k <= |s.conns[c].pending| + |s.bufs[s.conns[c].writer.buf].bytes|
    ensures AfterWrite(s, c, k, w).pool == s.pool
  {
  }

  lemma ReaderPool(queueLen: nat, s: State, a: Action)
    requires Enabled(queueLen, s, a) && !WriterStep(a) && !a.Drop?
    ensures Step(queueLen, s, a).pool <= s.pool
  {
    hide Frame, Fits;
  }

  // The labels are those of the flow lifecycle.

  function LabelOf(f: Lifecycle.Flow): Label { Label(f.client, f.conid, f.orig) }

  /** Over every run of the flow lifecycle a flow keeps its label, whatever becomes of the flow, so the
      replies can take labels as fixed. */
  lemma LabelsStay(cfg: Lifecycle.Config, s: Lifecycle.Server, run: seq<Lifecycle.Action>, f: FlowId)
    requires cfg.Valid() && Lifecycle.Inv(cfg, s) && Lifecycle.Runs(cfg, s, run) && f in s.flows
    ensures var t := Lifecycle.After(cfg, s, run); f in t.flows && LabelOf(t.flows[f]) == LabelOf(s.flows[f])
  {
    hide Lifecycle.Inv, Lifecycle.Runs, Lifecycle.After;
    Lifecycle.RunIsLater(cfg, s, run);
  }

  // What becomes of every datagram.

  /** A datagram that a reader received and is done with was queued; or dropped, when so many frames were in
      the queue; or was too large for a frame; or was still in hand when the client was gone. */
  datatype Fate = Queued(data: seq<byte>) | Congested(data: seq<byte>, held: nat) | TooLarge(data: seq<byte>) | Abandoned(data: seq<byte>)

  /** What one step settles for flow f. */
  function FateIn(queueLen: nat, s: State, a: Action, f: FlowId): seq<Fate>
    requires Enabled(queueLen, s, a)
  {
    match a
    case Enqueue(g) => if g == f then [Queued(s.readers[f].data)] else []
    case Drop(g) => if g == f then [Congested(s.readers[f].data, |ConnOf(s, f).queue|)] else []
    case Quit(g) => if g == f then [Abandoned(s.readers[f].data)] else []
    case Fill(g, b, cap) => if g == f && !Fits(s.flows[f].orig, |s.readers[f].data|) then [TooLarge(s.readers[f].data)] else []
    case _ => []
  }

  function Fates(queueLen: nat, s: State, run: seq<Action>, f: FlowId): seq<Fate>
    requires Runs(queueLen, s, run)
    decreases |run|
  {
    if run == [] then [] else FateIn(queueLen, s, run[0], f) + Fates(queueLen, Step(queueLen, s, run[0]), run[1..], f)
  }

  function Datas(fs: seq<Fate>): seq<seq<byte>>
  {
    if fs == [] then [] else [fs[0].data] + Datas(fs[1..])
  }

  function QueuedOf(fs: seq<Fate>): seq<seq<byte>>
  {
    if fs == [] then [] else (if fs[0].Queued? then [fs[0].data] else []) + QueuedOf(fs[1..])
  }

  lemma {:induction false} FatesInTwo(a: seq<Fate>, b: seq<Fate>)
    ensures Datas(a + b) == Datas(a) + Datas(b) && QueuedOf(a + b) == QueuedOf(a) + QueuedOf(b)
  {
    hide Datas, QueuedOf;
    if a == [] {
      assert a + b == b;
      NoFates();
      assert [] + Datas(b) == Datas(b) && [] + QueuedOf(b) == QueuedOf(b);
    } else {
      assert (a + b)[1..] == a[1..] + b && (a + b)[0] == a[0];
      FatesInTwo(a[1..], b);
      FirstFate(a);
      FirstFate(a + b);
      Regroup([a[0].data], Datas(a[1..]), Datas(b));
      Regroup(if a[0].Queued? then [a[0].data] else [], QueuedOf(a[1..]), QueuedOf(b));
    }
  }

  lemma NoFates()
    ensures Datas([]) == [] && QueuedOf([]) == []
  {
  }

  lemma FirstFate(a: seq<Fate>)
    requires a != []
    ensures Datas(a) == [a[0].data] + Datas(a[1..]) && QueuedOf(a) == (if a[0].Queued? then [a[0].data] else []) + QueuedOf(a[1..])
  {
  }

  lemma Regroup<T>(a: seq<T>, b: seq<T>, c: seq<T>)
    ensures (a + b) + c == a + (b + c)
  {
  }

  /** The datagram a reader has received and is not done with. */
  function InHand(r: Reader): seq<seq<byte>>
  {
    if r.Received? || r.Filling? || r.Ready? then [r.data] else []
  }

  /** What a flow has received but for what is in hand, and what of it was queued. */
  function SettledOf(s: State, f: FlowId): seq<seq<byte>>
  {
    if f !in s.heard || f !in s.readers then []
    else if InHand(s.readers[f]) != [] && s.heard[f] != [] then s.heard[f][..|s.heard[f]| - 1]
    else s.heard[f]
  }

  function LoggedOf(s: State, f: FlowId): seq<seq<byte>>
  {
    if HasFlow(s, f) then DataOf(ConnOf(s, f).log, f) else []
  }

  lemma FlowInInv(s: State, f: FlowId)
    requires Inv(s) && f in s.flows
    ensures f in s.readers && HasFlow(s, f) && ReaderOK(s, f)
  {
    InvParts(s);
    InvReader(s, f);
  }

  /** A step of another flow, of a writer or of the pool. */
  predicate Elsewise(a: Action, f: FlowId)
  {
    match a
    case Connect(c) => true
    case Open(g, flow) => g != f
    case Receive(g, data) => g != f
    case Reuse(g, b) => g != f
    case Allocate(g, b) => g != f
    case Fill(g, b, cap) => g != f
    case Enqueue(g) => g != f
    case Drop(g) => g != f
    case Quit(g) => g != f
    case Fail(g) => g != f
    case _ => true
  }

  /** Between s and t nothing happened to flow f itself. */
  predicate SameFlow(s: State, t: State, f: FlowId)
  {
    && (f in t.flows <==> f in s.flows) && (f in s.flows ==> t.flows[f] == s.flows[f])
    && (f in t.readers <==> f in s.readers) && (f in s.readers ==> t.readers[f] == s.readers[f])
    && (f in t.heard <==> f in s.heard) && (f in s.heard ==> t.heard[f] == s.heard[f])
  }

  lemma WriterLeavesFlow(s: State, a: Action, f: FlowId)
    requires (WriterStep(a) || a.Take? || a.Connect? || a.Collect?) && Enabled(0, s, a)
    ensures SameFlow(s, Step(0, s, a), f) && s.conns.Keys <= Step(0, s, a).conns.Keys
  {
    if WriterStep(a) {
      hide Enabled, Step;
      WriterFrame(s, a);
    }
  }

  lemma ReaderLeavesFlow(queueLen: nat, s: State, a: Action, f: FlowId)
    requires !WriterStep(a) && !a.Take? && !a.Connect? && !a.Collect? && Enabled(queueLen, s, a) && Elsewise(a, f)
    ensures SameFlow(s, Step(queueLen, s, a), f) && s.conns.Keys <= Step(queueLen, s, a).conns.Keys
  {
    hide Frame, Fits;
  }

  lemma ElsewiseReader(queueLen: nat, s: State, a: Action, f: FlowId)
    requires Enabled(queueLen, s, a) && Elsewise(a, f)
    ensures SameFlow(s, Step(queueLen, s, a), f) && s.conns.Keys <= Step(queueLen, s, a).conns.Keys
    ensures SettledOf(Step(queueLen, s, a), f) == SettledOf(s, f)
  {
    hide Enabled, Step, Elsewise, InHand;
    if WriterStep(a) || a.Take? || a.Connect? || a.Collect? {
      SameWhateverTheQueue(queueLen, s, a);
      WriterLeavesFlow(s, a, f);
    } else {
      ReaderLeavesFlow(queueLen, s, a, f);
    }
  }

  lemma SameWhateverTheQueue(queueLen: nat, s: State, a: Action)
    requires (WriterStep(a) || a.Take? || a.Connect? || a.Collect?) && Enabled(queueLen, s, a)
    ensures Enabled(0, s, a) && Step(0, s, a) == Step(queueLen, s, a)
  {
  }

  lemma NothingSettled(queueLen: nat, s: State, a: Action, f: FlowId)
    requires Enabled(queueLen, s, a) && Elsewise(a, f)
    ensures FateIn(queueLen, s, a, f) == []
  {
    hide Enabled, Fits;
  }

  lemma ElsewiseLog(queueLen: nat, s: State, a: Action, f: FlowId)
    requires Inv(s) && Enabled(queueLen, s, a) && Elsewise(a, f)
    ensures LoggedOf(Step(queueLen, s, a), f) == LoggedOf(s, f)
  {
    hide Inv, DataOf, Enabled, Step, ReaderOK;
    ElsewiseReader(queueLen, s, a, f);
    if f in s.flows {
      FlowInInv(s, f);
      LogOfOther(queueLen, s, a, f, s.flows[f].client);
    }
  }

  /** A step that leaves flow f alone leaves its share of every log alone. */
  lemma LogOfOther(queueLen: nat, s: State, a: Action, f: FlowId, c: ClientId)
    requires Enabled(queueLen, s, a) && Elsewise(a, f) && c in s.conns
    ensures var t := Step(queueLen, s, a); c in t.conns && DataOf(t.conns[c].log, f) == DataOf(s.conns[c].log, f)
  {
    if a.Enqueue? {
      var log, it := s.conns[c].log, Item(a.f, s.readers[a.f].data);
      assert (log + [it])[..|log|] == log;
      assert DataOf(log + [it], f) == DataOf(log, f);
      hide DataOf;
    } else {
      hide DataOf;
      SameLogs(queueLen, s, a, c);
    }
  }

  lemma SameLogs(queueLen: nat, s: State, a: Action, c: ClientId)
    requires Enabled(queueLen, s, a) && !a.Enqueue? && c in s.conns
    ensures var t := Step(queueLen, s, a); c in t.conns && t.conns[c].log == s.conns[c].log
  {
    if WriterStep(a) {
      hide Enabled, Step;
      SameWhateverTheQueue(queueLen, s, a);
      WriterFrame(s, a);
    } else if !a.Take? && !a.Connect? {
      hide Enabled, Step;
      ReaderKeepsConns(queueLen, s, a);
    }
  }

  lemma ReaderKeepsConns(queueLen: nat, s: State, a: Action)
    requires Enabled(queueLen, s, a) && !WriterStep(a) && !a.Take? && !a.Connect? && !a.Enqueue?
    ensures Step(queueLen, s, a).conns == s.conns
  {
    hide Frame, Fits;
  }

  /** One step of the flow's own reader. */
  lemma OwnStep(queueLen: nat, s: State, a: Action, f: FlowId)
    requires Inv(s) && Enabled(queueLen, s, a) && !Elsewise(a, f) && !a.Open? && !a.Enqueue?
    ensures LoggedOf(Step(queueLen, s, a), f) == LoggedOf(s, f) && QueuedOf(FateIn(queueLen, s, a, f)) == []
  {
    hide Inv, DataOf, Enabled, Step, Elsewise, FateIn, QueuedOf, ReaderOK;
    OwnFlow(queueLen, s, a, f);
    FlowInInv(s, f);
    StepInv(queueLen, s, a);
    FlowInInv(Step(queueLen, s, a), f);
    SameLogs(queueLen, s, a, s.flows[f].client);
    NoneQueued(queueLen, s, a, f);
  }

  lemma NoneQueued(queueLen: nat, s: State, a: Action, f: FlowId)
    requires Enabled(queueLen, s, a) && !a.Enqueue?
    ensures QueuedOf(FateIn(queueLen, s, a, f)) == []
  {
    var fate := FateIn(queueLen, s, a, f);
    hide Enabled, Fits;
    if fate != [] {
      assert |fate| == 1 && !fate[0].Queued?;
    }
  }

  /** What is in hand is the last datagram received. */
  lemma HandIsLast(s: State, f: FlowId)
    requires f in s.readers && ReaderOK(s, f)
    ensures f in s.heard && |InHand(s.readers[f])| <= 1
    ensures InHand(s.readers[f]) != [] ==> s.heard[f] != [] && InHand(s.readers[f]) == [s.heard[f][|s.heard[f]| - 1]]
  {
    hide DataOf, Subsequence, Frame, FrameLen, Fits, CapFor;
  }

  lemma SettledAndHand(s: State, f: FlowId)
    requires f in s.readers && f in s.heard
    requires InHand(s.readers[f]) != [] ==> s.heard[f] != [] && InHand(s.readers[f]) == [s.heard[f][|s.heard[f]| - 1]]
    ensures s.heard[f] == SettledOf(s, f) + InHand(s.readers[f])
  {
    hide InHand;
  }

  lemma OwnReader(queueLen: nat, s: State, a: Action, f: FlowId)
    requires Inv(s) && Enabled(queueLen, s, a) && !Elsewise(a, f) && !a.Open?
    ensures SettledOf(Step(queueLen, s, a), f) == SettledOf(s, f) + Datas(FateIn(queueLen, s, a, f))
  {
    hide Inv, Enabled, Step, FateIn, ReaderOK, SettledOf, InHand, HasFlow, Elsewise, Datas;
    var t := Step(queueLen, s, a);
    OwnFlow(queueLen, s, a, f);
    FlowInInv(s, f);
    HandIsLast(s, f);
    SettledAndHand(s, f);
    StepInv(queueLen, s, a);
    FlowInInv(t, f);
    HandIsLast(t, f);
    SettledAndHand(t, f);
    OwnHeard(queueLen, s, a, f);
    var more := if a.Receive? then [a.data] else [];
    Middle(SettledOf(s, f), InHand(s.readers[f]), more, Datas(FateIn(queueLen, s, a, f)), SettledOf(t, f), InHand(t.readers[f]));
  }

  lemma Middle(settled: seq<seq<byte>>, hand: seq<seq<byte>>, more: seq<seq<byte>>, fate: seq<seq<byte>>, after: seq<seq<byte>>, later: seq<seq<byte>>)
    requires settled + hand + more == after + later && hand + more == fate + later
    ensures after == settled + fate
  {
    assert settled + hand + more == settled + (hand + more) == settled + fate + later;
    assert |after| == |settled + fate|;
    assert (after + later)[..|after|] == after && (settled + fate + later)[..|after|] == settled + fate;
  }

  lemma OwnFlow(queueLen: nat, s: State, a: Action, f: FlowId)
    requires Inv(s) && Enabled(queueLen, s, a) && !Elsewise(a, f) && !a.Open?
    ensures f in s.flows && f in Step(queueLen, s, a).flows && Step(queueLen, s, a).flows[f] == s.flows[f]
  {
    hide Inv, Frame, Fits;
  }

  /** The reader's step moves what it holds, or takes in one datagram. */
  lemma OwnHeard(queueLen: nat, s: State, a: Action, f: FlowId)
    requires f in s.readers && f in s.heard && Enabled(queueLen, s, a) && !Elsewise(a, f) && !a.Open?
    ensures var t := Step(queueLen, s, a);
            var more := if a.Receive? then [a.data] else [];
            && f in t.readers && f in t.heard
            && s.heard[f] + more == t.heard[f]
            && InHand(s.readers[f]) + more == Datas(FateIn(queueLen, s, a, f)) + InHand(t.readers[f])
  {
    hide Frame, Fits;
    if a.Receive? || a.Fail? || a.Reuse? || a.Allocate? {
      assert FateIn(queueLen, s, a, f) == [];
    } else if a.Fill? {
      OwnFill(queueLen, s, a, f);
      hide AfterFill, FateIn;
    }
  }

  lemma OwnFill(queueLen: nat, s: State, a: Action, f: FlowId)
    requires a.Fill? && a.f == f && Enabled(queueLen, s, a)
    ensures var t := AfterFill(s, f, a.b, a.cap);
            f in t.readers && t.heard == s.heard && InHand(s.readers[f]) == Datas(FateIn(queueLen, s, a, f)) + InHand(t.readers[f])
  {
    hide Frame, Fits;
  }

  lemma OwnEnqueue(queueLen: nat, s: State, f: FlowId)
    requires Enabled(queueLen, s, Enqueue(f))
    ensures LoggedOf(Step(queueLen, s, Enqueue(f)), f) == LoggedOf(s, f) + QueuedOf(FateIn(queueLen, s, Enqueue(f), f))
  {
    var log, it := ConnOf(s, f).log, Item(f, s.readers[f].data);
    assert (log + [it])[..|log|] == log;
  }

  lemma OwnOpen(queueLen: nat, s: State, f: FlowId, flow: Label)
    requires Inv(s) && Enabled(queueLen, s, Open(f, flow))
    ensures var t := Step(queueLen, s, Open(f, flow)); SettledOf(t, f) == SettledOf(s, f) == [] && LoggedOf(t, f) == LoggedOf(s, f) == []
  {
    InvConn(s, flow.client);
    NoDataYet(s.flows, flow.client, s.conns[flow.client].log, f);
    hide Inv, DataOf;
  }

  /** Every step settles what its fate says, and queues what its fate says. */
  lemma StepSettles(queueLen: nat, s: State, a: Action, f: FlowId)
    requires Inv(s) && Enabled(queueLen, s, a)
    ensures var t, fate := Step(queueLen, s, a), FateIn(queueLen, s, a, f);
            SettledOf(t, f) == SettledOf(s, f) + Datas(fate) && LoggedOf(t, f) == LoggedOf(s, f) + QueuedOf(fate)
  {
    if Elsewise(a, f) {
      ElsewiseReader(queueLen, s, a, f);
      ElsewiseLog(queueLen, s, a, f);
      NothingSettled(queueLen, s, a, f);
      assert SettledOf(s, f) + [] == SettledOf(s, f) && LoggedOf(s, f) + [] == LoggedOf(s, f);
    } else if a.Open? {
      OwnOpen(queueLen, s, f, a.flow);
    } else if a.Enqueue? {
      OwnReader(queueLen, s, a, f);
      OwnEnqueue(queueLen, s, f);
    } else {
      OwnReader(queueLen, s, a, f);
      OwnStep(queueLen, s, a, f);
    }
    hide Inv, SettledOf, LoggedOf, Enabled, Step;
  }

  lemma {:induction false} RunSettles(queueLen: nat, s: State, run: seq<Action>, f: FlowId)
    requires Inv(s) && Runs(queueLen, s, run)
    ensures var t, fates := After(queueLen, s, run), Fates(queueLen, s, run, f);
            SettledOf(t, f) == SettledOf(s, f) + Datas(fates) && LoggedOf(t, f) == LoggedOf(s, f) + QueuedOf(fates)
    decreases |run|
  {
    hide Inv, Step, Enabled, SettledOf, LoggedOf, FateIn;
    if run != [] {
      var t := Step(queueLen, s, run[0]);
      StepInv(queueLen, s, run[0]);
      StepSettles(queueLen, s, run[0], f);
      RunSettles(queueLen, t, run[1..], f);
      FatesInTwo(FateIn(queueLen, s, run[0], f), Fates(queueLen, t, run[1..], f));
    }
  }

  /** No queue ever holds more than queueLen frames. */
  predicate QueuesBounded(queueLen: nat, s: State) { forall c | c in s.conns :: |s.conns[c].queue| <= queueLen }

  lemma StepBounded(queueLen: nat, s: State, a: Action)
    requires Enabled(queueLen, s, a) && QueuesBounded(queueLen, s)
    ensures QueuesBounded(queueLen, Step(queueLen, s, a))
  {
    if WriterStep(a) {
      SameWhateverTheQueue(queueLen, s, a);
      WriterKeepsQueues(s, a);
      hide Enabled, Step;
    } else if !a.Take? && !a.Connect? && !a.Enqueue? {
      hide Enabled, Step;
      ReaderKeepsConns(queueLen, s, a);
    }
  }

  lemma WriterKeepsQueues(s: State, a: Action)
    requires WriterStep(a) && Enabled(0, s, a)
    ensures var t := Step(0, s, a); t.conns.Keys == s.conns.Keys && forall c | c in s.conns :: t.conns[c].queue == s.conns[c].queue
  {
    hide Enabled, Step;
    WriterFrame(s, a);
    WriterKeepsQueue(s, a);
  }

  lemma WriterKeepsQueue(s: State, a: Action)
    requires WriterStep(a) && Enabled(0, s, a)
    ensures var t := Step(0, s, a); a.c in s.conns && a.c in t.conns && t.conns[a.c].queue == s.conns[a.c].queue
  {
  }

  /** What a fate says is so: a frame is dropped only when the queue is full, and only a datagram that does not
      fit a frame is too large. */
  predicate Justified(queueLen: nat, orig: AddrPort, fate: Fate)
  {
    && (fate.Congested? ==> fate.held == queueLen)
    && (fate.TooLarge? <==> !Fits(orig, |fate.data|))
  }

  lemma FateJustified(queueLen: nat, s: State, a: Action, f: FlowId)
    requires Inv(s) && QueuesBounded(queueLen, s) && Enabled(queueLen, s, a) && FateIn(queueLen, s, a, f) != []
    ensures f in s.flows && |FateIn(queueLen, s, a, f)| == 1 && Justified(queueLen, s.flows[f].orig, FateIn(queueLen, s, a, f)[0])
  {
    hide Inv, Fits;
    assert f in s.flows;
    FlowInInv(s, f);
    ReadyFits(s, f);
    hide ReaderOK;
  }

  lemma ReadyFits(s: State, f: FlowId)
    requires f in s.readers && ReaderOK(s, f)
    ensures s.readers[f].Ready? ==> Fits(s.flows[f].orig, |s.readers[f].data|)
  {
    hide DataOf, Subsequence, Frame, FrameLen, Fits;
  }

  lemma StepKeepsFlow(queueLen: nat, s: State, a: Action, f: FlowId)
    requires Enabled(queueLen, s, a) && f in s.flows
    ensures f in Step(queueLen, s, a).flows && Step(queueLen, s, a).flows[f] == s.flows[f]
  {
    if Elsewise(a, f) {
      hide Enabled, Step, Elsewise;
      ElsewiseReader(queueLen, s, a, f);
    } else {
      hide Frame, Fits;
    }
  }

  /** A reader that has ended has no more to do. */
  lemma EndedStays(queueLen: nat, s: State, a: Action, f: FlowId)
    requires Enabled(queueLen, s, a) && f in s.readers && f in s.flows && s.readers[f].Ended?
    ensures var t := Step(queueLen, s, a); Elsewise(a, f) && f in t.readers && t.readers[f].Ended?
  {
    assert Elsewise(a, f);
    hide Enabled, Step, Elsewise;
    ElsewiseReader(queueLen, s, a, f);
  }

  /** What is abandoned is the last a flow received. */
  predicate AbandonedLast(fates: seq<Fate>, r: Reader)
  {
    forall i | 0 <= i < |fates| && fates[i].Abandoned? :: r.Ended? && i == |fates| - 1
  }

  lemma {:induction false} NoFateAfterEnd(queueLen: nat, s: State, run: seq<Action>, f: FlowId)
    requires Runs(queueLen, s, run) && f in s.readers && f in s.flows && s.readers[f].Ended?
    ensures var t := After(queueLen, s, run); Fates(queueLen, s, run, f) == [] && f in t.readers && t.readers[f].Ended?
    decreases |run|
  {
    hide Enabled, Step, FateIn, Elsewise;
    if run != [] {
      EndedStays(queueLen, s, run[0], f);
      NothingSettled(queueLen, s, run[0], f);
      StepKeepsFlow(queueLen, s, run[0], f);
      NoFateAfterEnd(queueLen, Step(queueLen, s, run[0]), run[1..], f);
    }
  }

  lemma QuitEnds(queueLen: nat, s: State, a: Action, f: FlowId)
    requires Enabled(queueLen, s, a) && FateIn(queueLen, s, a, f) != [] && FateIn(queueLen, s, a, f)[0].Abandoned?
    ensures var t := Step(queueLen, s, a); f in t.readers && f in t.flows && t.readers[f].Ended?
  {
    hide Fits;
    assert a == Quit(f);
  }

  lemma {:induction false} FatesJustified(queueLen: nat, s: State, run: seq<Action>, f: FlowId)
    requires Inv(s) && QueuesBounded(queueLen, s) && Runs(queueLen, s, run) && f in After(queueLen, s, run).flows
    ensures var t, fates := After(queueLen, s, run), Fates(queueLen, s, run, f);
            && f in t.readers
            && (forall i | 0 <= i < |fates| :: Justified(queueLen, t.flows[f].orig, fates[i]))
            && AbandonedLast(fates, t.readers[f])
            && (f in s.flows ==> t.flows[f] == s.flows[f])
    decreases |run|
  {
    hide Inv, Enabled, Step, FateIn, Elsewise, QueuesBounded, Justified;
    if run == [] {
      FlowInInv(s, f);
      hide HasFlow, ReaderOK;
    } else {
      var a, more := run[0], run[1..];
      var t := Step(queueLen, s, a);
      StepInv(queueLen, s, a);
      StepBounded(queueLen, s, a);
      FatesJustified(queueLen, t, more, f);
      if f in s.flows {
        StepKeepsFlow(queueLen, s, a, f);
      }
      var now := FateIn(queueLen, s, a, f);
      if now != [] {
        FateJustified(queueLen, s, a, f);
        StepKeepsFlow(queueLen, s, a, f);
        if now[0].Abandoned? {
          QuitEnds(queueLen, s, a, f);
          NoFateAfterEnd(queueLen, t, more, f);
        }
      }
    }
  }

  /** Nothing a flow receives vanishes. Over every run, what it received is, in order, what each datagram was
      settled as, and then what its reader has in hand. What was queued is exactly its share of the
      client's log. A datagram was dropped for congestion only when the queue held queueLen frames, and
      as too large exactly if it fits no frame; one was abandoned at most as the last, and then the
      reader has ended. */
  lemma NothingVanishes(queueLen: nat, run: seq<Action>, f: FlowId)
    requires Runs(queueLen, Start, run) && f in After(queueLen, Start, run).flows
    ensures var s, fates := After(queueLen, Start, run), Fates(queueLen, Start, run, f);
            && f in s.readers && f in s.heard && HasFlow(s, f)
            && s.heard[f] == Datas(fates) + InHand(s.readers[f])
            && DataOf(ConnOf(s, f).log, f) == QueuedOf(fates)
            && (forall i | 0 <= i < |fates| :: Justified(queueLen, s.flows[f].orig, fates[i]))
            && AbandonedLast(fates, s.readers[f])
  {
    var s, fates := After(queueLen, Start, run), Fates(queueLen, Start, run, f);
    StartInv();
    assert QueuesBounded(queueLen, Start) && SettledOf(Start, f) == [] && LoggedOf(Start, f) == [];
    hide Inv, Runs, After, Fates, Datas, QueuedOf, InHand, SettledOf, ReaderOK, DataOf, Justified, AbandonedLast, QueuesBounded;
    RunInv(queueLen, Start, run);
    RunSettles(queueLen, Start, run, f);
    FatesJustified(queueLen, Start, run, f);
    FlowInInv(s, f);
    HandIsLast(s, f);
    SettledAndHand(s, f);
    assert [] + Datas(fates) == Datas(fates) && [] + QueuedOf(fates) == QueuedOf(fates);
  }

  // The end of a client.

  lemma StepKeepsDone(queueLen: nat, s: State, a: Action, c: ClientId)
    requires Enabled(queueLen, s, a) && c in s.conns && s.conns[c].done
    ensures var t := Step(queueLen, s, a); c in t.conns && t.conns[c].done
  {
    if WriterStep(a) {
      SameWhateverTheQueue(queueLen, s, a);
      WriterKeepsDone(s, a);
      WriterFrame(s, a);
      hide Enabled, Step;
    } else if !a.Take? && !a.Connect? && !a.Enqueue? {
      hide Enabled, Step;
      ReaderKeepsConns(queueLen, s, a);
    }
  }

  lemma WriterKeepsDone(s: State, a: Action)
    requires WriterStep(a) && Enabled(0, s, a)
    ensures var t := Step(0, s, a); a.c in s.conns && a.c in t.conns && (s.conns[a.c].done ==> t.conns[a.c].done)
  {
  }

  lemma {:induction false} DoneStays(queueLen: nat, s: State, run: seq<Action>, c: ClientId)
    requires Runs(queueLen, s, run) && c in s.conns && s.conns[c].done
    ensures var t := After(queueLen, s, run); c in t.conns && t.conns[c].done
    decreases |run|
  {
    hide Enabled, Step;
    if run != [] {
      StepKeepsDone(queueLen, s, run[0], c);
      DoneStays(queueLen, Step(queueLen, s, run[0]), run[1..], c);
    }
  }

  /** Once a client is closed, whatever follows, its readers never wait for room and never count a drop: one with
      a frame in hand can end, and so can a writer at its outer select. */
  lemma ClosedClientsEnd(queueLen: nat, s: State, c: ClientId, run: seq<Action>)
    requires Enabled(queueLen, s, Close(c)) && Runs(queueLen, Step(queueLen, s, Close(c)), run)
    ensures var t := After(queueLen, Step(queueLen, s, Close(c)), run);
            && c in t.conns && (t.conns[c].writer.Outer? ==> Enabled(queueLen, t, Stop(c)))
            && forall f | HasFlow(t, f) && t.flows[f].client == c ::
                 !Enabled(queueLen, t, Drop(f)) && (t.readers[f].Ready? ==> Enabled(queueLen, t, Quit(f)))
  {
    hide Runs, After, Step, Enabled, HasFlow;
    var u := Step(queueLen, s, Close(c));
    CloseDoes(queueLen, s, c);
    DoneStays(queueLen, u, run, c);
    DoneMeans(queueLen, After(queueLen, u, run), c);
  }

  lemma CloseDoes(queueLen: nat, s: State, c: ClientId)
    requires Enabled(queueLen, s, Close(c))
    ensures var t := Step(queueLen, s, Close(c)); c in t.conns && t.conns[c].done
  {
  }

  lemma DoneMeans(queueLen: nat, t: State, c: ClientId)
    requires c in t.conns && t.conns[c].done
    ensures t.conns[c].writer.Outer? ==> Enabled(queueLen, t, Stop(c))
    ensures forall f | HasFlow(t, f) && t.flows[f].client == c ::
              !Enabled(queueLen, t, Drop(f)) && (t.readers[f].Ready? ==> Enabled(queueLen, t, Quit(f)))
  {
  }

  // Delivery.

  /** A step of one client's writer on its way through its loop: no failure, no stopping. */
  predicate WritesFor(a: Action, c: ClientId)
  {
    match a
    case Take(d) => d == c
    case Write(d, k) => d == c
    case Release(d) => d == c
    case Drained(d) => d == c
    case Flush(d) => d == c
    case _ => false
  }

  /** What a writer does next when every write works. */
  function NextOf(c: ClientId, cn: Conn): Action
  {
    match cn.writer
    case Outer => Take(c)
    case Writing(b) => Write(c, 0)
    case Releasing(b) => Release(c)
    case Draining => if cn.queue == [] then Drained(c) else Take(c)
    case Flushing => Flush(c)
    case Stopped => Stop(c)
  }

  /** How far a writer is from its outer select with an empty queue. */
  function ToGo(cn: Conn): nat
  {
    5 * |cn.queue| + match cn.writer
                     case Writing(b) => 4
                     case Releasing(b) => 3
                     case Draining => 2
                     case Flushing => 1
                     case _ => 0
  }

  /** A step of the client's writer that changes no history and brings it closer. */
  predicate Closer(queueLen: nat, s: State, c: ClientId, a: Action)
    requires c in s.conns
  {
    && Enabled(queueLen, s, a)
    && var t := Step(queueLen, s, a);
    && c in t.conns && t.flows == s.flows && t.conns[c].log == s.conns[c].log
    && !t.conns[c].writer.Stopped? && ToGo(t.conns[c]) < ToGo(s.conns[c])
  }

  /** A writer that is not back at its outer select with an empty queue can always take a step towards it. */
  lemma WriterAdvances(queueLen: nat, s: State, c: ClientId)
    requires c in s.conns && ConnOK(s, c) && !s.conns[c].writer.Stopped? && (s.conns[c].writer.Outer? ==> s.conns[c].queue != [])
    ensures WritesFor(NextOf(c, s.conns[c]), c) && Closer(queueLen, s, c, NextOf(c, s.conns[c]))
  {
    hide Flat, Frame, AllLoggable, IsPrefix, Step, Enabled;
    match s.conns[c].writer
    case Outer => TakeAdvances(queueLen, s, c);
    case Draining =>
      if s.conns[c].queue == [] {
        DrainedAdvances(queueLen, s, c);
      } else {
        TakeAdvances(queueLen, s, c);
      }
    case Writing(b) => WriteAdvances(queueLen, s, c);
    case Releasing(b) => ReleaseAdvances(queueLen, s, c);
    case Flushing => FlushAdvances(queueLen, s, c);
  }

  lemma TakeAdvances(queueLen: nat, s: State, c: ClientId)
    requires c in s.conns && (s.conns[c].writer.Outer? || s.conns[c].writer.Draining?) && s.conns[c].queue != []
    ensures Closer(queueLen, s, c, Take(c))
  {
  }

  lemma WriteAdvances(queueLen: nat, s: State, c: ClientId)
    requires c in s.conns && s.conns[c].writer.Writing? && s.conns[c].writer.buf in s.bufs
    ensures Closer(queueLen, s, c, Write(c, 0))
  {
  }

  lemma ReleaseAdvances(queueLen: nat, s: State, c: ClientId)
    requires c in s.conns && s.conns[c].writer.Releasing?
    ensures Closer(queueLen, s, c, Release(c))
  {
  }

  lemma DrainedAdvances(queueLen: nat, s: State, c: ClientId)
    requires c in s.conns && s.conns[c].writer.Draining? && s.conns[c].queue == []
    ensures Closer(queueLen, s, c, Drained(c))
  {
  }

  lemma FlushAdvances(queueLen: nat, s: State, c: ClientId)
    requires c in s.conns && s.conns[c].writer.Flushing?
    ensures Closer(queueLen, s, c, Flush(c))
  {
  }

  /** The writer's own steps empty the queue into the tunnel. */
  lemma {:induction false} WriterDrains(queueLen: nat, s: State, c: ClientId) returns (run: seq<Action>)
    requires Inv(s) && c in s.conns && !s.conns[c].writer.Stopped?
    ensures Runs(queueLen, s, run) && forall i | 0 <= i < |run| :: WritesFor(run[i], c)
    ensures var t := After(queueLen, s, run);
            && Inv(t) && c in t.conns && t.conns[c].writer.Outer? && t.conns[c].queue == []
            && t.flows == s.flows && t.conns[c].log == s.conns[c].log
    decreases ToGo(s.conns[c])
  {
    hide Inv, Enabled, Step, NextOf, WritesFor, ToGo;
    var cn := s.conns[c];
    if cn.writer.Outer? && cn.queue == [] {
      run := [];
    } else {
      var a := NextOf(c, cn);
      InvConn(s, c);
      hide ConnOK;
      WriterAdvances(queueLen, s, c);
      StepInv(queueLen, s, a);
      var more := WriterDrains(queueLen, Step(queueLen, s, a), c);
      run := [a] + more;
      assert run[0] == a && run[1..] == more;
    }
  }

  /** Everything queued has been decoded by the client when the writer waits with an empty queue. */
  lemma DrainedShowsAll(s: State, c: ClientId)
    requires Inv(s) && c in s.conns && s.conns[c].writer.Outer? && s.conns[c].queue == []
    ensures AllLoggable(s.flows, c, s.conns[c].log) && HandledOf(Deframe(s.conns[c].sent).0) == PacketsOf(s.flows, c, s.conns[c].log)
  {
    InvConn(s, c);
    var n := Decoded(s, c);
    AllTaken(s, c);
    LogIsLoggable(s, c);
    assert s.conns[c].log[..n] == s.conns[c].log;
    hide Inv, ConnOK, AllLoggable, PacketsOf, HandledOf, Deframe;
  }

  lemma AllTaken(s: State, c: ClientId)
    requires c in s.conns && ConnOK(s, c) && s.conns[c].queue == []
    ensures s.conns[c].taken == |s.conns[c].log|
  {
    hide QueueOK, WriterOK;
  }

  lemma {:induction false} PacketsCounted(flows: map<FlowId, Label>, c: ClientId, items: seq<Item>)
    requires AllLoggable(flows, c, items)
    ensures |PacketsOf(flows, c, items)| == |items|
  {
    if items != [] {
      PacketsCounted(flows, c, items[..|items| - 1]);
    }
  }

  /** A datagram that is ready when the queue has room reaches its client: queueing it and then the writer's own
      steps, whatever was queued before, end with the client decoding one packet more than was queued,
      and that one is the datagram under its flow's id and original address. */
  lemma ReadyIsDelivered(queueLen: nat, before: seq<Action>, f: FlowId) returns (run: seq<Action>)
    requires Runs(queueLen, Start, before)
    requires var s := After(queueLen, Start, before);
             f in s.readers && s.readers[f].Ready? && HasFlow(s, f)
             && |ConnOf(s, f).queue| < queueLen && !ConnOf(s, f).writer.Stopped?
    ensures var s := After(queueLen, Start, before);
            var c, fl := s.flows[f].client, s.flows[f];
            && run != [] && run[0] == Enqueue(f) && (forall i | 1 <= i < |run| :: WritesFor(run[i], c))
            && Runs(queueLen, s, run)
            && var t := After(queueLen, s, run);
            && c in t.conns && t.conns[c].queue == [] && t.conns[c].writer.Outer?
            && var shown := HandledOf(Deframe(t.conns[c].sent).0);
            && |shown| == |s.conns[c].log| + 1
            && shown[|shown| - 1] == Datagram(FlagsFor(0, fl.orig), fl.conid, fl.orig, s.readers[f].data)
  {
    hide Inv, Runs, After, Step, Enabled, HandledOf, Deframe, WritesFor;
    var s := After(queueLen, Start, before);
    StartInv();
    RunInv(queueLen, Start, before);
    CanEnqueue(queueLen, s, f);
    run := QueuedIsDelivered(queueLen, s, f);
  }

  lemma CanEnqueue(queueLen: nat, s: State, f: FlowId)
    requires HasFlow(s, f) && s.readers[f].Ready? && |ConnOf(s, f).queue| < queueLen
    ensures Enabled(queueLen, s, Enqueue(f))
  {
  }

  lemma QueuedIsDelivered(queueLen: nat, s: State, f: FlowId) returns (run: seq<Action>)
    requires Inv(s) && Enabled(queueLen, s, Enqueue(f)) && !ConnOf(s, f).writer.Stopped?
    ensures var c, fl := s.flows[f].client, s.flows[f];
            && run != [] && run[0] == Enqueue(f) && (forall i | 1 <= i < |run| :: WritesFor(run[i], c))
            && Runs(queueLen, s, run)
            && var t := After(queueLen, s, run);
            && c in t.conns && t.conns[c].queue == [] && t.conns[c].writer.Outer?
            && var shown := HandledOf(Deframe(t.conns[c].sent).0);
            && |shown| == |s.conns[c].log| + 1
            && shown[|shown| - 1] == Datagram(FlagsFor(0, fl.orig), fl.conid, fl.orig, s.readers[f].data)
  {
    hide Inv, Step, PacketsOf, HandledOf, Deframe, WritesFor, AllLoggable;
    var c, it := s.flows[f].client, Item(f, s.readers[f].data);
    var u := Step(queueLen, s, Enqueue(f));
    StepInv(queueLen, s, Enqueue(f));
    QueuedLast(queueLen, s, f);
    hide Enabled;
    var more := WriterDrains(queueLen, u, c);
    run := [Enqueue(f)] + more;
    assert run[1..] == more;
    var t := After(queueLen, u, more);
    DrainedShowsAll(t, c);
    LastPacket(t.flows, c, s.conns[c].log, it);
  }

  lemma QueuedLast(queueLen: nat, s: State, f: FlowId)
    requires Enabled(queueLen, s, Enqueue(f))
    ensures var u, c := Step(queueLen, s, Enqueue(f)), s.flows[f].client;
            && c in u.conns && u.flows == s.flows && u.conns[c].writer == s.conns[c].writer
            && u.conns[c].log == s.conns[c].log + [Item(f, s.readers[f].data)]
  {
  }

  lemma LastPacket(flows: map<FlowId, Label>, c: ClientId, items: seq<Item>, it: Item)
    requires AllLoggable(flows, c, items + [it])
    ensures it.flow in flows && flows[it.flow].orig.Valid()
    ensures var ps := PacketsOf(flows, c, items + [it]);
            |ps| == |items| + 1 && ps[|ps| - 1] == Datagram(FlagsFor(0, flows[it.flow].orig), flows[it.flow].conid, flows[it.flow].orig, it.data)
  {
    var all := items + [it];
    assert Loggable(flows, c, all[|items|]);
    assert all[..|items|] == items;
    PacketsCounted(flows, c, items);
    assert PacketsOf(flows, c, all) == PacketsOf(flows, c, items) + [PacketOf(flows, c, it)];
  }

  /** Any datagram that fits a frame becomes ready: its reader receives it, gets a buffer and fills it. */
  lemma ReceivedIsReady(queueLen: nat, s: State, f: FlowId, data: seq<byte>, b: BufId, other: BufId) returns (run: seq<Action>)
    requires Inv(s) && f in s.flows && f in s.readers && s.readers[f].Waiting? && Fits(s.flows[f].orig, |data|)
    requires b !in s.bufs && other !in s.bufs && other != b
    ensures run == [Receive(f, data), Allocate(f, b), Fill(f, other, 0)] && Runs(queueLen, s, run)
    ensures var t := After(queueLen, s, run);
            f in t.readers && t.readers[f] == Ready(data, b) && t.conns == s.conns && t.flows == s.flows
  {
    hide Inv, Enabled, Step, ReaderOK, Fits, HasFlow;
    FlowInInv(s, f);
    CanReceive(queueLen, s, f, data);
    var a0, a1, a2 := Receive(f, data), Allocate(f, b), Fill(f, other, 0);
    var s1 := Step(queueLen, s, a0);
    StepInv(queueLen, s, a0);
    FlowInInv(s1, f);
    CanAllocate(queueLen, s1, f, b);
    var s2 := Step(queueLen, s1, a1);
    StepInv(queueLen, s1, a1);
    FlowInInv(s2, f);
    CanFill(queueLen, s2, f, other);
    run := [a0, a1, a2];
    assert run[1..] == [a1, a2] && [a1, a2][1..] == [a2] && [a2][1..] == [];
    assert Runs(queueLen, Step(queueLen, s2, a2), []);
    assert Runs(queueLen, s2, [a2]);
    assert Runs(queueLen, s1, [a1, a2]);
    assert After(queueLen, s2, [a2]) == Step(queueLen, s2, a2);
    assert After(queueLen, s1, [a1, a2]) == Step(queueLen, s2, a2);
  }

  lemma CanReceive(queueLen: nat, s: State, f: FlowId, data: seq<byte>)
    requires HasFlow(s, f) && s.readers[f].Waiting? && Fits(s.flows[f].orig, |data|)
    ensures Enabled(queueLen, s, Receive(f, data))
    ensures var t := Step(queueLen, s, Receive(f, data));
            f in t.readers && t.readers[f] == Received(data) && t.conns == s.conns && t.flows == s.flows && t.bufs == s.bufs
  {
  }

  lemma CanAllocate(queueLen: nat, s: State, f: FlowId, b: BufId)
    requires HasFlow(s, f) && s.readers[f].Received? && b !in s.bufs
    ensures Enabled(queueLen, s, Allocate(f, b))
    ensures var t := Step(queueLen, s, Allocate(f, b));
            f in t.readers && t.readers[f] == Filling(s.readers[f].data, b) && t.conns == s.conns && t.flows == s.flows && t.bufs.Keys == s.bufs.Keys + {b}
  {
  }

  lemma CanFill(queueLen: nat, s: State, f: FlowId, other: BufId)
    requires f in s.readers && ReaderOK(s, f) && s.readers[f].Filling? && other !in s.bufs && Fits(s.flows[f].orig, |s.readers[f].data|)
    ensures Enabled(queueLen, s, Fill(f, other, 0))
    ensures var t := Step(queueLen, s, Fill(f, other, 0));
            f in t.readers && t.readers[f] == Ready(s.readers[f].data, s.readers[f].buf) && t.conns == s.conns && t.flows == s.flows
  {
    FillsInPlace(s, f, other, 0);
    hide Frame, FrameLen, Fits, DataOf, Subsequence;
  }
}
