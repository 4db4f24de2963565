/** One connection at the gateway: which bytes are answered, and which bytes sshd receives. */
module GatewayConn {
  import opened Bytes
  import opened GatewaySniff
  import opened GatewayStreams
  import opened GatewayHeaders
  import opened WsFrames
  import opened GatewayWs

  /** Where a connection goes: nowhere, to sshd byte for byte, or to sshd through the frame decoder. */
  datatype Route = Dropped | Raw | Framed

  /** Why it goes there: the bytes decide, the client's stream ended, a header block is too long, the
      client fell silent, or a call failed (a read, a write, the TLS handshake, starting sshd). */
  datatype Why = Decisive | Over | TooLong | Silence | Failure

  /** What happened to a stream: the header blocks answered, what was left, where it went and why,
      the responses written, and the bytes sshd got (complete when reading came to its end). */
  datatype Report = Report(blocks: seq<seq<byte>>, rest: seq<byte>, route: Route, why: Why,
                           written: seq<byte>, received: seq<byte>, complete: bool)

  /** One header block is taken off the front of a stream, by peeking or through the TLS reader. */
  ghost predicate Takes(tls: bool, s: seq<byte>, e: nat)
  {
    if tls then ScanLines(s, 0) == Block(e) else MayConsume(s, e)
  }

  /** The stream is the answered blocks, each of them starting like an HTTP request, and then the rest. */
  ghost predicate Answered(tls: bool, s: seq<byte>, blocks: seq<seq<byte>>, rest: seq<byte>)
    decreases |blocks|
  {
    if blocks == [] then s == rest
    else
      var e := |blocks[0]|;
      && Decided(s) && Verdict(s) == HTTP
      && e <= |s| && blocks[0] == s[..e] && Takes(tls, s, e)
      && Answered(tls, s[e..], blocks[1..], rest)
  }

  lemma {:induction false} AnsweredMore(tls: bool, s: seq<byte>, blocks: seq<seq<byte>>, mid: seq<byte>, e: nat)
    requires Answered(tls, s, blocks, mid)
    requires Decided(mid) && Verdict(mid) == HTTP && e <= |mid| && Takes(tls, mid, e)
    ensures Answered(tls, s, blocks + [mid[..e]], mid[e..])
    decreases |blocks|
  {
    hide Takes, Decided, Verdict;
    var more := blocks + [mid[..e]];
    if blocks == [] {
      assert more[0] == mid[..e] && more[1..] == [];
      assert Answered(tls, mid[e..], more[1..], mid[e..]);
    } else {
      var k := |blocks[0]|;
      AnsweredMore(tls, s[k..], blocks[1..], mid, e);
      assert more[1..] == blocks[1..] + [mid[..e]];
      assert more[0] == blocks[0];
    }
  }

  /** No byte is lost, doubled or moved: the blocks and the rest are the stream. */
  lemma {:induction false} NothingLost(tls: bool, s: seq<byte>, blocks: seq<seq<byte>>, rest: seq<byte>)
    requires Answered(tls, s, blocks, rest)
    ensures s == Concat(blocks) + rest
    decreases |blocks|
  {
    hide Takes, Decided, Verdict;
    if blocks != [] {
      var e := |blocks[0]|;
      NothingLost(tls, s[e..], blocks[1..], rest);
      assert s == s[..e] + s[e..];
      Associative(blocks[0], Concat(blocks[1..]), rest);
    }
  }

  /** One response to each block. */
  function Responses(reply: seq<byte> -> seq<byte>, blocks: seq<seq<byte>>): seq<byte>
  {
    if blocks == [] then []
    else Responses(reply, blocks[..|blocks| - 1]) + reply(blocks[|blocks| - 1])
  }

  lemma ResponsesMore(reply: seq<byte> -> seq<byte>, blocks: seq<seq<byte>>, b: seq<byte>)
    ensures Responses(reply, blocks + [b]) == Responses(reply, blocks) + reply(b)
  {
    assert (blocks + [b])[..|blocks|] == blocks;
  }

  /** What sshd should get of the rest. */
  function Meant(route: Route, rest: seq<byte>): seq<byte>
  {
    if route == Dropped then [] else if route == Raw then rest else DecodeFrames(rest).data
  }

  /** After the fourth answer a TLS connection is not looked at any more. */
  predicate Spent(tls: bool, blocks: seq<seq<byte>>) { tls && |blocks| == 4 }

  predicate Requests(rest: seq<byte>) { Decided(rest) && Verdict(rest) == HTTP }

  /** Where decisive bytes lead. */
  function RouteFor(tls: bool, blocks: seq<seq<byte>>, rest: seq<byte>): Route
  {
    if Spent(tls, blocks) then Dropped
    else
      match Verdict(rest)
      case SSH => Raw
      case HTTP => Dropped
      case WSFrame => if tls || blocks != [] then Framed else Dropped
      case TLS => if tls || blocks == [] then Dropped else Raw
      case Unknown => if tls || blocks == [] then Dropped else Raw
  }

  /** The client's stream ends before anything decides, or inside a block that is read line by line. */
  predicate EndsEarly(tls: bool, rest: seq<byte>)
  {
    rest == [] || (tls && (!Decided(rest) || (Requests(rest) && ScanLines(rest, 0) == Unfinished)))
  }

  /** The block at the front has no end within the largest header. */
  predicate BlockTooLong(tls: bool, rest: seq<byte>)
  {
    if tls then ScanLines(rest, 0) == TooLarge else Endless(rest)
  }

  /** Route and reason fit what was left of the stream. */
  predicate RightRoute(tls: bool, r: Report)
  {
    match r.why
    case Decisive =>
      && r.route == RouteFor(tls, r.blocks, r.rest)
      && (Spent(tls, r.blocks) || (Decided(r.rest) && (Verdict(r.rest) == HTTP ==> |r.blocks| == 4)
                                   && (Verdict(r.rest) == TLS ==> tls || r.blocks != [])))
    case Over =>
      && !Spent(tls, r.blocks) && EndsEarly(tls, r.rest)
      && r.route == if r.rest != [] && !Decided(r.rest) then Raw else Dropped
    case TooLong => |r.blocks| < 4 && Requests(r.rest) && BlockTooLong(tls, r.rest) && r.route == Dropped
    case Silence => r.route == Raw || (r.route == Dropped && |r.blocks| < 4 && Requests(r.rest))
    case Failure => r.route == Dropped || (r.route == Raw && tls)
  }

  /** The contract of a whole connection. */
  ghost predicate Served(tls: bool, reply: seq<byte> -> seq<byte>, s: seq<byte>, r: Report)
  {
    && Answered(tls, s, r.blocks, r.rest) && |r.blocks| <= 4
    && (tls && r.route != Dropped ==> |r.blocks| <= 3)
    && RightRoute(tls, r)
    && r.received <= Meant(r.route, r.rest)
    && (r.complete ==> r.received == Meant(r.route, r.rest))
    && r.written <= Responses(reply, r.blocks)
    && (r.why != Failure || r.route != Dropped ==> r.written == Responses(reply, r.blocks))
  }

  /** What a report blames did happen: silence, or a failed call. */
  twostate predicate OnRecord(net: Network, r: Report)
    reads net
  {
    && old(net.faults) <= net.faults && old(net.silences) <= net.silences
    && (r.why == Silence ==> net.silences > old(net.silences))
    && (r.why == Failure || !r.complete ==> net.faults > old(net.faults))
  }

  class Gateway {
    var handshaking: int
    var unknown: nat

    constructor ()
      ensures handshaking == 0 && unknown == 0
    {
      handshaking, unknown := 0, 0;
    }
  }

  /** One accepted connection's share of the handshake counter, given back once. */
  class Handshake {
    const g: Gateway
    var done: bool

    constructor (g: Gateway)
      ensures this.g == g && !done
    {
      this.g, done := g, false;
    }

    method Finish()
      modifies this, g
      ensures done && g.unknown == old(g.unknown)
      ensures g.handshaking == old(g.handshaking) - if old(done) then 0 else 1
    {
      if !done {
        done := true;
        g.handshaking := g.handshaking - 1;
      }
    }
  }

  /** A response either goes out whole or fails after part of it. */
  method WriteResponse(net: Network, written: seq<byte>, response: seq<byte>) returns (ok: bool, now: seq<byte>)
    modifies net
    ensures Later(net) && (if ok then Untroubled(net) else net.faults > old(net.faults))
    ensures written <= now <= written + response
    ensures ok ==> now == written + response
  {
    var bad := net.Fails();
    ok := !bad;
    var k: nat :| k <= |response|;
    now := written + if ok then response else response[..k];
  }

  /** Copies the buffered stream to sshd unchanged. */
  method CopyRaw(br: BufReader) returns (received: seq<byte>, complete: bool)
    modifies br, br.net
    ensures Later(br.net) && (!complete ==> br.net.faults > old(br.net.faults))
    ensures received <= old(br.rest) && (complete ==> received == old(br.rest))
  {
    ghost var s := br.rest;
    received := [];
    while true
      invariant s == received + br.rest && Later(br.net)
      decreases |br.rest|
    {
      var st, b := br.Read();
      if st != Done {
        return received, st == Ended;
      }
      var refused := br.net.Fails();
      if refused {
        return received, false;
      }
      received := received + b;
    }
  }

  /** Copies the de-framed stream to sshd. */
  method CopyFrames(net: Network, rest: seq<byte>) returns (received: seq<byte>, complete: bool)
    modifies net
    ensures Later(net) && (!complete ==> net.faults > old(net.faults))
    ensures received <= DecodeFrames(rest).data && (complete ==> received == DecodeFrames(rest).data)
  {
    hide WsConn.Future, WsConn.Answers, DecodeFrames;
    var ws := new WsConn(net, rest);
    var buf := new byte[32768];
    var err;
    received, err := Deliver(ws, buf);
    complete := err.End?;
  }

  lemma AnsweredNone(tls: bool, s: seq<byte>)
    ensures Answered(tls, s, [], s)
  {
  }

  lemma ResponsesNone(reply: seq<byte> -> seq<byte>)
    ensures Responses(reply, []) == []
  {
  }

  lemma TakesExact(s: seq<byte>, block: seq<byte>)
    requires MayConsume(s, |block|)
    ensures |block| <= |s| && Takes(false, s, |block|)
  {
  }

  lemma TakesScanned(s: seq<byte>, block: seq<byte>)
    requires ScanLines(s, 0) == Block(|block|)
    ensures Takes(true, s, |block|)
  {
  }

  /** A connection that is closed; sshd gets nothing. */
  function Drop(blocks: seq<seq<byte>>, rest: seq<byte>, why: Why, written: seq<byte>): Report
  {
    Report(blocks, rest, Dropped, why, written, [], true)
  }

  lemma DropServes(tls: bool, reply: seq<byte> -> seq<byte>, s: seq<byte>, blocks: seq<seq<byte>>, rest: seq<byte>, why: Why, written: seq<byte>)
    requires Answered(tls, s, blocks, rest) && |blocks| <= 4 && written <= Responses(reply, blocks)
    requires RightRoute(tls, Drop(blocks, rest, why, written)) && (why != Failure ==> written == Responses(reply, blocks))
    ensures Served(tls, reply, s, Drop(blocks, rest, why, written))
  {
    hide Answered, Responses, RightRoute;
  }

  /** What the status of a read that brought nothing says about the reason. */
  function WhyNot(st: Status): Why
  {
    match st
    case TimedOut => Silence
    case Full => TooLong
    case Ended => Over
    case Broken => Failure
    case Done => Failure
  }

  lemma NoBlock(tls: bool, blocks: seq<seq<byte>>, rest: seq<byte>, st: Status, written: seq<byte>)
    requires |blocks| < 4 && Requests(rest) && st != Done
    requires st == Ended ==> tls && ScanLines(rest, 0) == Unfinished
    requires st == Full ==> BlockTooLong(tls, rest)
    ensures RightRoute(tls, Drop(blocks, rest, WhyNot(st), written))
  {
    hide ScanLines;
    NothingUndecided();
  }

  lemma NothingUndecided()
    ensures !Decided([])
  {
  }

  /** sshd takes over the socket, or cannot be started. */
  method Handoff(net: Network, ghost reply: seq<byte> -> seq<byte>, ghost s: seq<byte>, blocks: seq<seq<byte>>, rest: seq<byte>,
                 why: Why, written: seq<byte>) returns (r: Report)
    requires Answered(false, s, blocks, rest) && |blocks| <= 4 && written == Responses(reply, blocks)
    requires why == Silence || (why == Decisive && RightRoute(false, Report(blocks, rest, Raw, why, written, rest, true)))
    modifies net
    ensures Later(net) && Served(false, reply, s, r) && r.complete
    ensures (r.route == Raw && r.why == why) || (r.why == Failure && net.faults > old(net.faults))
  {
    hide Answered, Responses, Takes, Decided, Verdict;
    var bad := net.Fails();
    if bad {
      DropServes(false, reply, s, blocks, rest, Failure, written);
      r := Drop(blocks, rest, Failure, written);
    } else {
      r := Report(blocks, rest, Raw, why, written, rest, true);
    }
  }

  /** sshd is started behind the frame decoder, or cannot be. */
  method PumpFrames(net: Network, ghost tls: bool, ghost reply: seq<byte> -> seq<byte>, ghost s: seq<byte>, blocks: seq<seq<byte>>, rest: seq<byte>,
                    written: seq<byte>) returns (r: Report)
    requires Answered(tls, s, blocks, rest) && |blocks| <= 4 && (tls ==> |blocks| <= 3) && written == Responses(reply, blocks)
    requires Decided(rest) && Verdict(rest) == WSFrame && (tls || blocks != [])
    modifies net
    ensures Served(tls, reply, s, r) && OnRecord(net, r) && (r.route == Framed || r.why == Failure)
  {
    hide Answered, Responses, Takes, Decided, Verdict, DecodeFrames;
    var bad := net.Fails();
    if bad {
      DropServes(tls, reply, s, blocks, rest, Failure, written);
      r := Drop(blocks, rest, Failure, written);
    } else {
      var received, complete := CopyFrames(net, rest);
      r := Report(blocks, rest, Framed, Decisive, written, received, complete);
    }
  }

  /** sshd is started behind the decrypted stream, or cannot be. */
  method PumpRaw(br: BufReader, ghost reply: seq<byte> -> seq<byte>, ghost s: seq<byte>, blocks: seq<seq<byte>>, why: Why,
                 written: seq<byte>) returns (r: Report)
    requires Answered(true, s, blocks, br.rest) && |blocks| <= 3 && written == Responses(reply, blocks)
    requires why != TooLong && RightRoute(true, Report(blocks, br.rest, Raw, why, written, [], true))
    modifies br, br.net
    ensures Later(br.net) && Served(true, reply, s, r)
    ensures !r.complete ==> br.net.faults > old(br.net.faults)
    ensures (r.route == Raw && r.why == why) || (r.why == Failure && br.net.faults > old(br.net.faults))
  {
    hide Answered, Responses, Takes, Decided, Verdict, ScanLines;
    var rest := br.rest;
    var bad := br.net.Fails();
    if bad {
      DropServes(true, reply, s, blocks, rest, Failure, written);
      r := Drop(blocks, rest, Failure, written);
    } else {
      var received, complete := CopyRaw(br);
      r := Report(blocks, rest, Raw, why, written, received, complete);
    }
  }

  /** Reads and answers one block of the raw stream. */
  method AnswerExact(c: RawSocket, reply: seq<byte> -> seq<byte>, patience: nat, ghost s: seq<byte>, blocks: seq<seq<byte>>, written: seq<byte>)
    returns (ok: bool, r: Report, more: seq<seq<byte>>, now: seq<byte>)
    requires Answered(false, s, blocks, c.rest) && |blocks| < 4 && written == Responses(reply, blocks) && Requests(c.rest)
    modifies c, c.net
    ensures Later(c.net)
    ensures ok ==> Answered(false, s, more, c.rest) && |more| == |blocks| + 1 && now == Responses(reply, more) && Untroubled(c.net)
    ensures !ok ==> Served(false, reply, s, r) && OnRecord(c.net, r) && r.route == Dropped && r.why != Decisive
  {
    hide Answered, Takes, Decided, Verdict, MayConsume, Responses, RightRoute, Served;
    ok, more, now := false, blocks, written;
    var rest := c.rest;
    var st, block := ReadHeaderExact(c, patience);
    r := Drop(blocks, rest, WhyNot(st), written);
    if st != Done {
      NothingUndecided();
      NoBlock(false, blocks, rest, st, written);
      DropServes(false, reply, s, blocks, rest, WhyNot(st), written);
      return;
    }
    TakesExact(rest, block);
    AnsweredMore(false, s, blocks, rest, |block|);
    ResponsesMore(reply, blocks, block);
    more := blocks + [block];
    ok, now := WriteResponse(c.net, written, reply(block));
    if !ok {
      FailureDrops(false, reply, s, more, c.rest, now);
      r := Drop(more, c.rest, Failure, now);
    }
  }

  /** handlePlainHTTP. */
  method HandlePlainHTTP(h: Handshake, c: RawSocket, reply: seq<byte> -> seq<byte>, patience: nat) returns (r: Report)
    requires Decided(c.rest) && Verdict(c.rest) == HTTP
    modifies c, c.net, h, h.g
    ensures Served(false, reply, old(c.rest), r) && OnRecord(c.net, r)
    ensures (r.route == Dropped || h.done) && (r.route == Dropped && r.why == Decisive ==> |r.blocks| == 4)
    ensures h.g.unknown == old(h.g.unknown)
    ensures h.g.handshaking == old(h.g.handshaking) - (if h.done && !old(h.done) then 1 else 0) && (old(h.done) ==> h.done)
  {
    hide Answered, Takes, Decided, Verdict, MayConsume, DecodeFrames, Responses, RightRoute, Concat, Served;
    ghost var s := c.rest;
    var blocks: seq<seq<byte>>, written: seq<byte> := [], [];
    AnsweredNone(false, s);
    ResponsesNone(reply);
    for round := 0 to 4
      invariant |blocks| == round && Answered(false, s, blocks, c.rest) && written == Responses(reply, blocks)
      invariant Decided(c.rest) && Verdict(c.rest) == HTTP && Untroubled(c.net)
      invariant h.done == old(h.done) && h.g.handshaking == old(h.g.handshaking) && h.g.unknown == old(h.g.unknown)
    {
      var ok;
      ok, r, blocks, written := AnswerExact(c, reply, patience, s, blocks, written);
      if !ok {
        return;
      }
      var k, st := PeekClassify(c, patience);
      if st != Done && st != TimedOut {
        if st == Ended {
          EndDrops(false, reply, s, blocks, written);
          return Drop(blocks, c.rest, Over, written);
        }
        FailureDrops(false, reply, s, blocks, c.rest, written);
        return Drop(blocks, c.rest, Failure, written);
      } else if st == TimedOut || k == SSH {
        h.Finish();
        RawRoute(false, blocks, c.rest, written);
        r := Handoff(c.net, reply, s, blocks, c.rest, if st == TimedOut then Silence else Decisive, written);
        return;
      } else if k == HTTP {
        continue;
      } else if k == WSFrame {
        h.Finish();
        r := PumpFrames(c.net, false, reply, s, blocks, c.rest, written);
        return;
      } else {
        h.Finish();
        RawRoute(false, blocks, c.rest, written);
        r := Handoff(c.net, reply, s, blocks, c.rest, Decisive, written);
        return;
      }
    }
    DecisiveDrops(false, reply, s, blocks, c.rest, written);
    r := Drop(blocks, c.rest, Decisive, written);
  }

  lemma FailureDrops(tls: bool, reply: seq<byte> -> seq<byte>, s: seq<byte>, blocks: seq<seq<byte>>, rest: seq<byte>, written: seq<byte>)
    requires Answered(tls, s, blocks, rest) && |blocks| <= 4 && written <= Responses(reply, blocks)
    ensures Served(tls, reply, s, Drop(blocks, rest, Failure, written))
  {
    hide Answered, Responses;
    DropServes(tls, reply, s, blocks, rest, Failure, written);
  }

  lemma EndDrops(tls: bool, reply: seq<byte> -> seq<byte>, s: seq<byte>, blocks: seq<seq<byte>>, written: seq<byte>)
    requires Answered(tls, s, blocks, []) && |blocks| <= (if tls then 3 else 4) && written == Responses(reply, blocks)
    ensures Served(tls, reply, s, Drop(blocks, [], Over, written))
  {
    hide Answered, Responses;
    DropServes(tls, reply, s, blocks, [], Over, written);
  }

  lemma DecisiveDrops(tls: bool, reply: seq<byte> -> seq<byte>, s: seq<byte>, blocks: seq<seq<byte>>, rest: seq<byte>, written: seq<byte>)
    requires Answered(tls, s, blocks, rest) && |blocks| <= 4 && written == Responses(reply, blocks)
    requires || Spent(tls, blocks)
             || (Decided(rest) && RouteFor(tls, blocks, rest) == Dropped && (Verdict(rest) == HTTP ==> |blocks| == 4) && (Verdict(rest) == TLS ==> tls))
    ensures Served(tls, reply, s, Drop(blocks, rest, Decisive, written))
  {
    hide Answered, Responses, Decided, Verdict;
    DropServes(tls, reply, s, blocks, rest, Decisive, written);
  }

  lemma RawRoute(tls: bool, blocks: seq<seq<byte>>, rest: seq<byte>, written: seq<byte>)
    ensures Decided(rest) && (Verdict(rest) == SSH || (!tls && blocks != [] && Verdict(rest) in {TLS, Unknown})) && !Spent(tls, blocks)
            ==> forall received, complete :: RightRoute(tls, Report(blocks, rest, Raw, Decisive, written, received, complete))
    ensures forall received, complete :: RightRoute(tls, Report(blocks, rest, Raw, Silence, written, received, complete))
    ensures tls ==> forall received, complete :: RightRoute(tls, Report(blocks, rest, Raw, Failure, written, received, complete))
    ensures tls && |blocks| <= 3 && rest != [] && !Decided(rest)
            ==> forall received, complete :: RightRoute(tls, Report(blocks, rest, Raw, Over, written, received, complete))
  {
    hide Decided, Verdict;
  }

  /** Reads and answers one block of the decrypted stream. */
  method AnswerBuffered(br: BufReader, reply: seq<byte> -> seq<byte>, ghost s: seq<byte>, blocks: seq<seq<byte>>, written: seq<byte>)
    returns (ok: bool, r: Report, more: seq<seq<byte>>, now: seq<byte>)
    requires Answered(true, s, blocks, br.rest) && |blocks| < 4 && written == Responses(reply, blocks) && Requests(br.rest)
    modifies br, br.net
    ensures Later(br.net)
    ensures ok ==> Answered(true, s, more, br.rest) && |more| == |blocks| + 1 && now == Responses(reply, more)
    ensures !ok ==> Served(true, reply, s, r) && OnRecord(br.net, r) && r.route == Dropped && r.why != Decisive
  {
    hide Answered, Takes, Decided, Verdict, ScanLines, Responses, RightRoute, Served;
    ok, more, now := false, blocks, written;
    var rest := br.rest;
    var st, block := ReadHeaderBuffered(br);
    r := Drop(blocks, rest, WhyNot(st), written);
    if st != Done {
      NoBlock(true, blocks, rest, st, written);
      DropServes(true, reply, s, blocks, rest, WhyNot(st), written);
      return;
    }
    TakesScanned(rest, block);
    AnsweredMore(true, s, blocks, rest, |block|);
    ResponsesMore(reply, blocks, block);
    more := blocks + [block];
    ok, now := WriteResponse(br.net, written, reply(block));
    if !ok {
      FailureDrops(true, reply, s, more, br.rest, now);
      r := Drop(more, br.rest, Failure, now);
    }
  }

  /** handleTLS, from the end of the TLS handshake on; br carries the decrypted stream. */
  method HandleTLS(h: Handshake, br: BufReader, reply: seq<byte> -> seq<byte>) returns (r: Report)
    modifies br, br.net, h, h.g
    ensures Served(true, reply, old(br.rest), r) && OnRecord(br.net, r)
    ensures r.route == Dropped || h.done
    ensures h.g.unknown == old(h.g.unknown) + if r.route == Dropped && r.why == Decisive && |r.blocks| < 4 then 1 else 0
    ensures h.g.handshaking == old(h.g.handshaking) - (if h.done && !old(h.done) then 1 else 0) && (old(h.done) ==> h.done)
  {
    hide Answered, Takes, Decided, Verdict, ScanLines, DecodeFrames, Responses, RightRoute, Concat, Served;
    ghost var s := br.rest;
    var blocks: seq<seq<byte>>, written: seq<byte> := [], [];
    AnsweredNone(true, s);
    ResponsesNone(reply);
    for round := 0 to 4
      invariant |blocks| == round && Answered(true, s, blocks, br.rest) && written == Responses(reply, blocks)
      invariant Later(br.net)
      invariant h.done == old(h.done) && h.g.handshaking == old(h.g.handshaking) && h.g.unknown == old(h.g.unknown)
    {
      var k, st, behind := ClassifyReader(br);
      if st != Done && st != TimedOut {
        if st == Ended {
          EndDrops(true, reply, s, blocks, written);
          return Drop(blocks, br.rest, Over, written);
        }
        FailureDrops(true, reply, s, blocks, br.rest, written);
        return Drop(blocks, br.rest, Failure, written);
      }
      if st == TimedOut && round == 0 {
        k := SSH;
      }
      if st == TimedOut || k == SSH {
        h.Finish();
        RawRoute(true, blocks, br.rest, written);
        r := PumpRaw(br, reply, s, blocks, if st == Done then Decisive else WhyNot(behind), written);
        return;
      } else if k == HTTP {
        var ok;
        ok, r, blocks, written := AnswerBuffered(br, reply, s, blocks, written);
        if !ok {
          return;
        }
      } else if k == WSFrame {
        h.Finish();
        r := PumpFrames(br.net, true, reply, s, blocks, br.rest, written);
        return;
      } else {
        h.g.unknown := h.g.unknown + 1;
        DecisiveDrops(true, reply, s, blocks, br.rest, written);
        return Drop(blocks, br.rest, Decisive, written);
      }
    }
    DecisiveDrops(true, reply, s, blocks, br.rest, written);
    r := Drop(blocks, br.rest, Decisive, written);
  }

  /** What a connection that begins so comes to: no known protocol (and, in plain, a frame) is refused unread and
      counted as unknown, and so is TLS inside TLS; an SSH client reaches sshd with every byte. */
  predicate Untouched(tls: bool, s: seq<byte>, r: Report, counted: int)
  {
    && (Foreign(s) || (if tls then BeginsTLS(s) else BeginsFrame(s)) ==> r == Drop([], s, Decisive, []) && counted == 1)
    && (BeginsSSH(s) ==> r == Report([], s, Raw, Decisive, [], s, true) && counted == 0)
  }

  /** handle: one accepted connection from the first look to the end. The decrypted stream of a TLS
      connection is what the TLS library makes of the socket, so it is given. */
  method Handle(g: Gateway, c: RawSocket, inner: BufReader, reply: seq<byte> -> seq<byte>, patience: nat)
    returns (tls: bool, r: Report)
    requires inner.net == c.net
    modifies g, c, c.net, inner
    ensures Served(tls, reply, if tls then old(inner.rest) else old(c.rest), r) && OnRecord(c.net, r)
    ensures tls ==> Decided(old(c.rest)) && Verdict(old(c.rest)) == TLS
    ensures Untroubled(c.net) && Decided(old(c.rest)) && Verdict(old(c.rest)) == TLS ==> tls
    ensures Untroubled(c.net) ==> Calm(r)
    ensures g.handshaking == old(g.handshaking) - 1
    ensures g.unknown == old(g.unknown) + if r.route == Dropped && r.why == Decisive && |r.blocks| < 4 then 1 else 0
    ensures Untroubled(c.net) ==> (tls <==> BeginsTLS(old(c.rest)))
    ensures Untroubled(c.net) ==> Untouched(tls, if tls then old(inner.rest) else old(c.rest), r, g.unknown - old(g.unknown))
  {
    hide Served, Answered, Takes, Decided, Verdict, Responses, RightRoute, Calm, Untouched, BeginsTLS;
    var h := new Handshake(g);
    ghost var inside := inner.rest;
    ghost var s := c.rest;
    AnsweredNone(false, s);
    ResponsesNone(reply);
    tls := false;
    var k, st := PeekClassify(c, patience);
    var quiet := st == TimedOut;
    if quiet {
      k := SSH;
    }
    if st == Ended {
      NothingUndecided();
      EndDrops(false, reply, s, [], []);
      r := Drop([], c.rest, Over, []);
    } else if st != Done && !quiet {
      FailureDrops(false, reply, s, [], c.rest, []);
      r := Drop([], c.rest, Failure, []);
    } else if k == SSH {
      h.Finish();
      RawRoute(false, [], c.rest, []);
      r := Handoff(c.net, reply, s, [], c.rest, if quiet then Silence else Decisive, []);
    } else if k == HTTP {
      r := HandlePlainHTTP(h, c, reply, patience);
    } else if k == TLS {
      var refused := c.net.Fails();
      if refused {
        FailureDrops(false, reply, s, [], c.rest, []);
        r := Drop([], c.rest, Failure, []);
      } else {
        tls := true;
        r := HandleTLS(h, inner, reply);
      }
    } else {
      g.unknown := g.unknown + 1;
      DecisiveDrops(false, reply, s, [], c.rest, []);
      r := Drop([], c.rest, Decisive, []);
    }
    h.Finish();
    CalmUnless(r);
    VerdictTable(s);
    if Calm(r) {
      UntouchedIs(tls, reply, if tls then inside else s, r, g.unknown - old(g.unknown));
    }
  }

  lemma UntouchedIs(tls: bool, reply: seq<byte> -> seq<byte>, s: seq<byte>, r: Report, counted: int)
    requires Served(tls, reply, s, r) && Calm(r)
    requires counted == if r.route == Dropped && r.why == Decisive && |r.blocks| < 4 then 1 else 0
    ensures Untouched(tls, s, r, counted)
  {
    hide Served, Calm, Foreign, BeginsTLS, BeginsFrame, BeginsSSH;
    if tls {
      OverTLS(reply, s, r);
    } else {
      InPlain(reply, s, r);
    }
  }

  lemma CalmUnless(r: Report)
    ensures r.why != Silence && r.why != Failure && r.complete ==> Calm(r)
    ensures Calm(r) ==> r.why != Silence && r.why != Failure && r.complete
  {
  }

  // How much of this depends on the network.

  /** Where a block ends that can end in one place only. */
  function OnlyEnd(s: seq<byte>): int { if 0 < CrEnd(s) <= MAX_HEADER then CrEnd(s) else LfEnd(s) }

  /** None of the next n blocks can be cut in two ways. */
  predicate Unambiguous(tls: bool, s: seq<byte>, n: nat)
    decreases n
  {
    n == 0 || tls || !Requests(s) ||
    (!Ambiguous(s) && (0 < OnlyEnd(s) <= |s| ==> Unambiguous(tls, s[OnlyEnd(s)..], n - 1)))
  }

  lemma ConsumesOnlyEnd(s: seq<byte>, e: nat)
    requires MayConsume(s, e) && !Ambiguous(s)
    ensures 0 < e <= |s| && e == OnlyEnd(s)
  {
    var n: nat :| Consumes(s, n, e);
    HeaderEndInPrefix(s, n);
    CrEndBounds(s);
  }

  /** One block has one length. */
  lemma TakesOne(tls: bool, s: seq<byte>, d: nat, e: nat)
    requires Takes(tls, s, d) && Takes(tls, s, e) && (tls || !Ambiguous(s))
    ensures d == e
  {
    if !tls {
      IndependentIffUnambiguous(s);
      var n: nat :| Consumes(s, n, d);
      var m: nat :| Consumes(s, m, e);
    }
  }

  /** However long a run went on answering, it did what a longer run did first. */
  lemma {:induction false} AnsweredPrefix(tls: bool, s: seq<byte>, n: nat, a: seq<seq<byte>>, p: seq<byte>, b: seq<seq<byte>>, q: seq<byte>)
    requires Answered(tls, s, a, p) && Answered(tls, s, b, q) && |a| <= |b| <= n && Unambiguous(tls, s, n)
    ensures a == b[..|a|] && Answered(tls, p, b[|a|..], q)
    decreases n
  {
    hide Decided, Verdict, MayConsume, OnlyEnd, Ambiguous, ScanLines;
    if a == [] {
      assert b[0..] == b;
    } else {
      var e := |a[0]|;
      TakesOne(tls, s, e, |b[0]|);
      if !tls {
        ConsumesOnlyEnd(s, e);
      }
      AnsweredPrefix(tls, s[e..], n - 1, a[1..], p, b[1..], q);
      assert a == [a[0]] + a[1..] && b == [b[0]] + b[1..];
      assert b[1..][|a| - 1..] == b[|a|..];
    }
  }

  /** Nobody fell silent and no call failed. */
  predicate Calm(r: Report) { r.why != Silence && r.why != Failure && r.complete }

  /** Where a calm run stopped before the fourth answer, nothing more can be answered. */
  lemma NothingMore(tls: bool, r: Report, more: seq<seq<byte>>, q: seq<byte>)
    requires RightRoute(tls, r) && Calm(r) && |r.blocks| < 4 && Answered(tls, r.rest, more, q)
    ensures more == [] && r.rest == q
  {
    NothingUndecided();
    hide Decided, Verdict, ScanLines, Endless, MayConsume;
    if more != [] {
      assert Requests(r.rest);
      if !tls {
        EndlessNot(r.rest, |more[0]|);
      }
    }
  }

  lemma EndlessNot(s: seq<byte>, e: nat)
    ensures Endless(s) ==> !MayConsume(s, e)
  {
    if Endless(s) {
      EndlessStays(s, e);
    }
  }

  lemma SameBlocks(tls: bool, s: seq<byte>, q: Report, blocks: seq<seq<byte>>, rest: seq<byte>)
    requires Answered(tls, s, q.blocks, q.rest) && Answered(tls, s, blocks, rest) && |q.blocks| <= |blocks| <= 4
    requires Unambiguous(tls, s, 4) && RightRoute(tls, q) && Calm(q)
    ensures q.blocks == blocks && q.rest == rest
  {
    hide Unambiguous, Answered, RightRoute, Calm;
    AnsweredPrefix(tls, s, 4, q.blocks, q.rest, blocks, rest);
    if |q.blocks| < 4 {
      NothingMore(tls, q, blocks[|q.blocks|..], rest);
    } else {
      assert blocks[|q.blocks|..] == [];
      AnsweredAlready(tls, q.rest, rest);
    }
    assert blocks[..|blocks|] == blocks;
  }

  lemma AnsweredAlready(tls: bool, p: seq<byte>, q: seq<byte>)
    requires Answered(tls, p, [], q)
    ensures p == q
  {
  }

  /** Whatever the network's timing, runs in which nobody fell silent and no call failed agree in everything:
      the same blocks answered with the same responses, the same route for the same reason, the same
      bytes to sshd. */
  lemma SameWhateverTheTiming(tls: bool, reply: seq<byte> -> seq<byte>, s: seq<byte>, q: Report, r: Report)
    requires Served(tls, reply, s, q) && Served(tls, reply, s, r) && Unambiguous(tls, s, 4) && Calm(q) && Calm(r)
    ensures q == r
  {
    hide Answered, Unambiguous, Responses, DecodeFrames, RightRoute;
    if |q.blocks| <= |r.blocks| {
      SameBlocks(tls, s, q, r.blocks, r.rest);
    } else {
      SameBlocks(tls, s, r, q.blocks, q.rest);
    }
    SameRoute(tls, q, r);
  }

  lemma SameRoute(tls: bool, q: Report, r: Report)
    requires RightRoute(tls, q) && RightRoute(tls, r) && Calm(q) && Calm(r) && q.blocks == r.blocks && q.rest == r.rest
    ensures q.route == r.route && q.why == r.why
  {
    NothingUndecided();
    hide Decided, Verdict, ScanLines, Endless;
  }

  // Where the bytes lead, in bytes.

  lemma RouteOf(tls: bool, r: Report)
    requires RightRoute(tls, r) && Calm(r)
    ensures !Spent(tls, r.blocks) && Decided(r.rest) && (Verdict(r.rest) != HTTP || |r.blocks| == 4) && (Verdict(r.rest) != TLS || tls || r.blocks != [])
            ==> r.route == RouteFor(tls, r.blocks, r.rest) && r.why == Decisive
    ensures !Spent(tls, r.blocks) && Requests(r.rest) && |r.blocks| < 4 ==> r.route == Dropped && (r.why == Over || r.why == TooLong)
    ensures !Spent(tls, r.blocks) && !Decided(r.rest) ==> r.why == Over && r.route == if r.rest != [] && tls then Raw else Dropped
    ensures !tls && r.blocks == [] ==> Decided(r.rest) ==> Verdict(r.rest) != TLS
    ensures Spent(tls, r.blocks) ==> r.route == Dropped && r.why == Decisive
  {
    NothingUndecided();
    hide Decided, Verdict, ScanLines, Endless;
  }

  /** The decrypted stream of a connection without silence and failed calls. Before the fourth answer what
      is left goes to sshd as it is exactly if it greets like an SSH client or the stream ended where it
      could still become something, through the frame decoder exactly if it begins with a masked frame,
      and is refused for its bytes exactly if it is of no known protocol or TLS once more. After the
      fourth answer nothing reaches sshd. */
  lemma OverTLS(reply: seq<byte> -> seq<byte>, s: seq<byte>, r: Report)
    requires Served(true, reply, s, r) && Calm(r)
    ensures |r.blocks| == 4 ==> r.route == Dropped && r.why == Decisive
    ensures |r.blocks| < 4 ==>
              && (r.route == Raw <==> BeginsSSH(r.rest) || (r.rest != [] && Undecided(r.rest)))
              && (r.route == Framed <==> BeginsFrame(r.rest))
              && (r.why == Decisive && r.route == Dropped <==> Foreign(r.rest) || BeginsTLS(r.rest))
    ensures Foreign(s) || BeginsTLS(s) ==> r == Drop([], s, Decisive, [])
    ensures BeginsSSH(s) ==> r == Report([], s, Raw, Decisive, [], s, true)
  {
    hide Answered, Responses, Meant, RouteFor, RightRoute, Calm, Decided, Verdict, BeginsTLS, BeginsSSH, BeginsHTTP, BeginsFrame, Foreign, EndsOpen;
    VerdictTable(r.rest);
    OpenIffUndecided(r.rest);
    RouteOf(true, r);
    if |r.blocks| < 4 {
      RouteIs(true, r.blocks, r.rest);
    }
    if Foreign(s) || BeginsTLS(s) || BeginsSSH(s) {
      FirstIsRequest(true, s, r.blocks, r.rest);
    }
    if Foreign(s) || BeginsTLS(s) {
      DroppedEmpty(true, reply, s, r);
    }
    if BeginsSSH(s) {
      GreetingPasses(true, reply, s, r);
    }
  }

  lemma OpenIffUndecided(s: seq<byte>)
    ensures Undecided(s) <==> !Decided(s)
  {
    VerdictTable(s);
    hide Decided, Verdict, BeginsTLS, BeginsSSH, BeginsHTTP, BeginsFrame, EndsOpen;
  }

  /** Nothing but a request is ever answered. */
  lemma FirstIsRequest(tls: bool, s: seq<byte>, blocks: seq<seq<byte>>, rest: seq<byte>)
    requires Answered(tls, s, blocks, rest) && (BeginsTLS(s) || BeginsSSH(s) || BeginsFrame(s) || Foreign(s))
    ensures blocks == [] && rest == s
  {
    VerdictTable(s);
    hide Takes, Decided, Verdict, BeginsTLS, BeginsSSH, BeginsHTTP, BeginsFrame, Foreign;
  }

  /** Neither of a known protocol nor of none: the stream ended too early to tell. */
  predicate Undecided(s: seq<byte>)
  {
    EndsOpen(s) && !BeginsTLS(s) && !BeginsSSH(s) && !BeginsHTTP(s) && !BeginsFrame(s)
  }

  lemma RouteIs(tls: bool, blocks: seq<seq<byte>>, rest: seq<byte>)
    requires !Spent(tls, blocks)
    ensures Decided(rest) ==>
              && (RouteFor(tls, blocks, rest) == Raw <==> BeginsSSH(rest) || (!tls && blocks != [] && (BeginsTLS(rest) || Foreign(rest))))
              && (RouteFor(tls, blocks, rest) == Framed <==> (tls || blocks != []) && BeginsFrame(rest))
  {
    VerdictTable(rest);
    hide Decided, Verdict, BeginsTLS, BeginsSSH, BeginsHTTP, BeginsFrame, Foreign;
  }

  lemma DroppedEmpty(tls: bool, reply: seq<byte> -> seq<byte>, s: seq<byte>, r: Report)
    requires Served(tls, reply, s, r) && Calm(r) && r.blocks == [] && r.rest == s && r.route == Dropped && r.why == Decisive
    ensures r == Drop([], s, Decisive, [])
  {
    hide Answered, RightRoute;
  }

  /** A plain connection without silence and failed calls. What is left goes to sshd as it is exactly if it
      greets like an SSH client or, after an answer, is TLS or of no known protocol; through the frame
      decoder exactly if, after an answer, it begins with a masked frame. It is refused for its bytes
      before the first answer exactly if it begins with a frame or is of no known protocol, and after
      one exactly if it is a fifth request. */
  lemma InPlain(reply: seq<byte> -> seq<byte>, s: seq<byte>, r: Report)
    requires Served(false, reply, s, r) && Calm(r)
    ensures r.route == Raw <==> BeginsSSH(r.rest) || (r.blocks != [] && (BeginsTLS(r.rest) || Foreign(r.rest)))
    ensures r.route == Framed <==> r.blocks != [] && BeginsFrame(r.rest)
    ensures r.blocks == [] ==> !BeginsTLS(r.rest)
    ensures r.why == Decisive && r.route == Dropped <==>
              (r.blocks == [] && (BeginsFrame(r.rest) || Foreign(r.rest))) || (|r.blocks| == 4 && BeginsHTTP(r.rest))
    ensures Foreign(s) || BeginsFrame(s) ==> r == Drop([], s, Decisive, [])
    ensures BeginsSSH(s) ==> r == Report([], s, Raw, Decisive, [], s, true)
  {
    hide Answered, Responses, Meant, RouteFor, RightRoute, Calm, Decided, Verdict, BeginsTLS, BeginsSSH, BeginsHTTP, BeginsFrame, Foreign, EndsOpen;
    VerdictTable(r.rest);
    RouteOf(false, r);
    RouteIs(false, r.blocks, r.rest);
    if Foreign(s) || BeginsFrame(s) || BeginsSSH(s) {
      FirstIsRequest(false, s, r.blocks, r.rest);
    }
    if Foreign(s) || BeginsFrame(s) {
      DroppedEmpty(false, reply, s, r);
    }
    if BeginsSSH(s) {
      GreetingPasses(false, reply, s, r);
    }
  }

  lemma GreetingPasses(tls: bool, reply: seq<byte> -> seq<byte>, s: seq<byte>, r: Report)
    requires Served(tls, reply, s, r) && Calm(r) && r.blocks == [] && r.rest == s && r.route == Raw && r.why == Decisive
    ensures r == Report([], s, Raw, Decisive, [], s, true)
  {
    hide Answered, RightRoute;
  }

  /** The two transports differ in one place: a stream of four requests and then an SSH client reaches sshd
      in plain HTTP when no call fails and nobody falls silent, and never does over TLS. */
  lemma FourRequestsThenSSH(tls: bool, reply: seq<byte> -> seq<byte>, s: seq<byte>, blocks: seq<seq<byte>>, rest: seq<byte>, r: Report)
    requires Answered(tls, s, blocks, rest) && |blocks| == 4 && Decided(rest) && Verdict(rest) == SSH && Unambiguous(tls, s, 4)
    requires Served(tls, reply, s, r) && Calm(r)
    ensures r.blocks == blocks && r.rest == rest && r.route == if tls then Dropped else Raw
  {
    SameBlocks(tls, s, r, blocks, rest);
    NothingUndecided();
    hide Unambiguous, Answered, Decided, Verdict, ScanLines, Responses;
  }

  /** Requests whose newlines are all CR LF are answered alike with and without TLS. */
  lemma CleanTakesSame(s: seq<byte>, e: nat)
    requires 0 < CrEnd(s) <= MAX_HEADER && CleanNewlines(s[..CrEnd(s)])
    ensures Takes(true, s, e) <==> e == CrEnd(s)
    ensures Takes(false, s, e) <==> e == CrEnd(s)
  {
    CrEndBounds(s);
    assert CrEnd(s) >= 4;
    CleanScan(s, 0);
    HeaderEndInPrefix(s, CrEnd(s));
    assert Consumes(s, CrEnd(s), CrEnd(s));
    if Takes(false, s, e) {
      ExactConsumesBlock(s, e);
    }
  }
}
