/** The WebSocket connection of the gateway: an io.Reader and io.Writer over frames. */
module GatewayWs {
  import opened Bytes
  import opened WsFrames
  import opened GatewayStreams

  /** What a call reports: success, the way the frame stream ended, or a network failure. */
  datatype Err = Nil | End(ending: Ending) | Lost

  /** The answer a control frame calls for. */
  function Due(opcode: nat, payload: seq<byte>): seq<byte>
  {
    if opcode == 8 then ServerFrame(8, payload) else if opcode == 9 then ServerFrame(10, payload) else []
  }

  /** Frames as the server sends them: final, unmasked, with the shortest length. */
  predicate Canonical(sent: seq<Frame>) {
    forall i | 0 <= i < |sent| :: sent[i].Valid() && sent[i] == AsFrame(sent[i].Opcode(), sent[i].payload)
  }

  /** The control frames among those sent, as bytes. */
  function Controls(sent: seq<Frame>): seq<byte>
    requires Canonical(sent)
  {
    if sent == [] then []
    else
      var last := sent[|sent| - 1];
      Controls(sent[..|sent| - 1]) + if last.Opcode() >= 8 then Encode(last) else []
  }

  /** The data among the frames sent. */
  function DataOf(sent: seq<Frame>): seq<byte>
  {
    if sent == [] then []
    else DataOf(sent[..|sent| - 1]) + if sent[|sent| - 1].Opcode() < 8 then sent[|sent| - 1].payload else []
  }

  lemma DataAppend(sent: seq<Frame>, f: Frame)
    ensures DataOf(sent + [f]) == DataOf(sent) + if f.Opcode() < 8 then f.payload else []
  {
    assert (sent + [f])[..|sent|] == sent;
  }

  lemma ControlsAppend(sent: seq<Frame>, f: Frame)
    requires Canonical(sent) && Canonical([f]) && f.Valid()
    ensures Canonical(sent + [f])
    ensures Controls(sent + [f]) == Controls(sent) + if f.Opcode() >= 8 then Encode(f) else []
  {
    hide Frame.Valid, Frame.Opcode, AsFrame, Encode;
    assert [f][0] == f;
    assert (sent + [f])[..|sent|] == sent;
  }

  lemma {:induction false} EncodeAllAppend(sent: seq<Frame>, f: Frame)
    requires Canonical(sent) && f.Valid()
    ensures Canonical(sent) && (forall i | 0 <= i < |sent + [f]| :: (sent + [f])[i].Valid())
    ensures EncodeAll(sent + [f]) == EncodeAll(sent) + Encode(f)
  {
    hide Encode, Frame.Valid;
    if sent == [] {
      assert sent + [f] == [f];
      assert EncodeAll([f]) == Encode(f) + EncodeAll([]);
    } else {
      EncodeAllAppend(sent[1..], f);
      assert (sent + [f])[1..] == sent[1..] + [f];
      Associative(Encode(sent[0]), EncodeAll(sent[1..]), Encode(f));
    }
  }

  /** The key does not matter to an unmasked payload. */
  lemma UnmaskedAnyKey(s: seq<byte>, remaining: nat, m: seq<byte>, i: nat, n: seq<byte>, j: nat)
    requires |m| == 4 && |n| == 4
    ensures DecodePayload(s, remaining, false, m, i) == DecodePayload(s, remaining, false, n, j)
  {
    hide DecodeFrames;
  }

  lemma NothingRemains(s: seq<byte>, masked: bool, mask: seq<byte>, pos: nat)
    requires |mask| == 4
    ensures DecodePayload(s, 0, masked, mask, pos) == DecodeFrames(s)
  {
    hide DecodeFrames;
    assert s[0..] == s;
    assert Unmask(s[..0], masked, mask, pos) == [];
  }

  lemma NothingLeft(remaining: nat, masked: bool, mask: seq<byte>, pos: nat)
    requires |mask| == 4
    ensures DecodePayload([], remaining, masked, mask, pos) == Decoded([], [], EOF)
  {
    assert DecodeFrames([]) == Decoded([], [], EOF);
  }

  class WsConn {
    const net: Network
    var rest: seq<byte>
    var out: seq<byte>
    var remaining: nat
    var masked: bool
    var mask: seq<byte>
    var maskPos: nat
    var closed: bool
    ghost var sent: seq<Frame>
    ghost var written: seq<byte>
    ghost var failed: bool

    constructor (net: Network, stream: seq<byte>)
      ensures this.net == net
      ensures Valid() && !failed && !closed && sent == [] && out == [] && written == []
      ensures Future() == DecodeFrames(stream)
    {
      this.net := net;
      rest, out, remaining, masked, mask, maskPos, closed := stream, [], 0, false, NoMask(), 0, false;
      sent, written, failed := [], [], false;
      new;
      NothingRemains(stream, false, NoMask(), 0);
    }

    ghost predicate Valid()
      reads this
    {
      && |mask| == 4
      && (closed ==> remaining == 0)
      && Canonical(sent) && written == DataOf(sent)
      && (!failed ==> out == EncodeAll(sent))
    }

    /** What the reader will still get, and the control frames it will still cause. */
    ghost function Future(): Decoded
      requires Valid()
      reads this
    {
      if closed then Decoded([], [], EOF) else DecodePayload(rest, remaining, masked, mask, maskPos)
    }

    /** The control frames out so far followed by those the input still calls for. */
    ghost function Answers(): seq<byte>
      requires Valid()
      reads this
    {
      Controls(sent) + Future().replies
    }

    /** A read of exactly n bytes, with the error a short input gives. */
    method ReadFull(n: nat) returns (err: Err, data: seq<byte>)
      modifies this`rest, net
      ensures Later(net) && (if err == Lost then net.faults > old(net.faults) else Untroubled(net))
      ensures |rest| <= |old(rest)|
      ensures err == Nil ==> n <= |old(rest)| && data == old(rest)[..n] && rest == old(rest)[n..]
      ensures err.End? ==> |old(rest)| < n && err.ending == Shortfall(|old(rest)|)
    {
      data := [];
      var bad := net.Fails();
      if bad {
        var k: nat :| k <= |rest|;
        rest := rest[k..];
        return Lost, [];
      }
      if |rest| < n {
        err := End(Shortfall(|rest|));
        rest := [];
      } else {
        err, data := Nil, rest[..n];
        rest := rest[n..];
      }
    }

    /** Writes one whole frame, or fails after part of it. */
    method WriteFrame(opcode: nat, p: seq<byte>) returns (ok: bool)
      requires Valid() && opcode < 16 && |p| < Pow256(8) && (opcode >= 8 ==> |p| <= 125)
      modifies this`out, this`sent, this`written, this`failed, net
      ensures Later(net) && (if ok then Untroubled(net) else net.faults > old(net.faults))
      ensures Valid() && failed == (old(failed) || !ok)
      ensures sent == if ok then old(sent) + [AsFrame(opcode, p)] else old(sent)
      ensures written == if ok && opcode < 8 then old(written) + p else old(written)
      ensures Controls(sent) == if ok && opcode >= 8 then old(Controls(sent)) + ServerFrame(opcode, p) else old(Controls(sent))
    {
      hide Canonical, Controls, EncodeAll, Encode, Frame.Valid, DataOf;
      var frame := FrameBytes(opcode, p);
      var bad := net.Fails();
      ok := !bad;
      if ok {
        ghost var f := AsFrame(opcode, p);
        SentMore(sent, opcode, p);
        hide ServerFrame, AsFrame;
        out := out + frame;
        sent := sent + [f];
        if opcode < 8 {
          written := written + p;
        }
      } else {
        var k: nat :| k <= |frame|;
        out := out + frame[..k];
        failed := true;
      }
    }

    /** Write sends p as one binary frame. */
    method Write(p: seq<byte>) returns (ok: bool)
      requires Valid() && |p| < Pow256(8)
      modifies this`out, this`sent, this`written, this`failed, net
      ensures Later(net) && (if ok then Untroubled(net) else net.faults > old(net.faults))
      ensures Valid() && failed == (old(failed) || !ok)
      ensures sent == if ok then old(sent) + [AsFrame(2, p)] else old(sent)
      ensures written == if ok then old(written) + p else old(written)
      ensures Future() == old(Future()) && Answers() == old(Answers())
    {
      hide Canonical, Controls, EncodeAll, DataOf, ServerFrame, AsFrame, DecodePayload;
      ok := WriteFrame(2, p);
    }

    /** The extended length, if there is one. */
    method ReadLength(len7: nat) returns (err: Err, length: nat)
      modifies this`rest, net
      ensures Later(net) && (if err == Lost then net.faults > old(net.faults) else Untroubled(net))
      ensures var ext := LengthSize(len7);
              && (err == Nil ==> ext <= |old(rest)| && rest == old(rest)[ext..] && length == if ext == 0 then len7 else FromBE(old(rest)[..ext]))
              && (err.End? ==> |old(rest)| < ext && err.ending == Shortfall(|old(rest)|))
    {
      hide FromBE;
      err, length := Nil, len7;
      var b;
      if len7 == 126 {
        err, b := ReadFull(2);
        if err == Nil { length := FromBE(b); }
      } else if len7 == 127 {
        err, b := ReadFull(8);
        if err == Nil { length := FromBE(b); }
      } else {
        assert rest[0..] == rest;
      }
    }

    /** The frame header, as the first half of nextFrame reads it. */
    method ReadHeader() returns (err: Err, opcode: nat, length: nat)
      requires |mask| == 4
      modifies this`rest, this`masked, this`mask, this`maskPos, net
      ensures Later(net) && (if err == Lost then net.faults > old(net.faults) else Untroubled(net))
      ensures |mask| == 4
      ensures err == Nil ==>
                var h := ParseHeader(old(rest));
                && h.Header? && opcode == h.opcode && length == h.length && rest == old(rest)[h.size..]
                && masked == h.masked && (masked ==> mask == h.mask) && maskPos == 0
      ensures err.End? ==> ParseHeader(old(rest)) == Bad(err.ending)
    {
      hide FromBE, ParseHeader;
      ghost var s := rest;
      ParseParts(s);
      opcode, length := 0, 0;
      var h, b;
      err, h := ReadFull(2);
      if err != Nil { return; }
      opcode, masked := h[0] % 16, h[1] >= 128;
      ghost var ext := LengthSize(h[1] % 128);
      Slices(s, 2, ext);
      err, length := ReadLength(h[1] % 128);
      if err != Nil { return; }
      if masked {
        Slices(s, 2 + ext, 4);
        err, b := ReadFull(4);
        if err != Nil { return; }
        mask := b;
      }
      maskPos := 0;
    }

    /** Reads and unmasks the payload of a control frame. */
    method ReadPayload(length: nat) returns (err: Err, payload: seq<byte>)
      requires |mask| == 4
      modifies this`rest, net
      ensures Later(net) && (if err == Lost then net.faults > old(net.faults) else Untroubled(net))
      ensures |rest| <= |old(rest)|
      ensures err == Nil ==> length <= |old(rest)| && rest == old(rest)[length..] && payload == Unmask(old(rest)[..length], masked, mask, 0)
      ensures err.End? ==> |old(rest)| < length && err.ending == Shortfall(|old(rest)|)
    {
      hide Unmask;
      err, payload := ReadFull(length);
      if err != Nil {
        return;
      }
      if masked {
        payload := UnmaskBytes(payload, mask);
      } else {
        UnmaskedIsItself(payload, mask);
      }
    }

    /** The rest of nextFrame for a control frame: read its payload, answer it. */
    method Control(opcode: nat, length: nat) returns (err: Err)
      requires Valid() && !closed && remaining == 0 && maskPos == 0
      modifies this, net
      ensures Later(net) && written == old(written)
      ensures err == Lost || failed != old(failed) ==> net.faults > old(net.faults)
      ensures Valid() && (old(failed) ==> failed)
      ensures |rest| <= |old(rest)| && remaining == 0 && (closed ==> err == End(EOF))
      ensures Controls(sent) <= old(Controls(sent)) + old(ControlMeaning(rest, opcode, length, masked, mask)).replies
      ensures err == Nil ==> !closed && failed == old(failed)
      ensures err == Nil ==>
                var d := old(ControlMeaning(rest, opcode, length, masked, mask));
                && d.data == DecodeFrames(rest).data && d.ending == DecodeFrames(rest).ending
                && Controls(sent) + DecodeFrames(rest).replies == old(Controls(sent)) + d.replies
      ensures err.End? ==>
                var d := old(ControlMeaning(rest, opcode, length, masked, mask));
                && d.data == [] && d.ending == err.ending
                && (!failed ==> Controls(sent) == old(Controls(sent)) + d.replies)
    {
      hide Canonical, DecodeFrames, ServerFrame, Controls, EncodeAll, Unmask, DataOf, ControlMeaning;
      ghost var was := Controls(sent);
      ghost var d := ControlMeaning(rest, opcode, length, masked, mask);
      ControlCases(rest, opcode, length, masked, mask);
      Grows(was, d.replies);
      if length > 125 {
        return End(Oversized);
      }
      var payload;
      err, payload := ReadPayload(length);
      if err != Nil {
        return;
      }
      ghost var later, due := DecodeFrames(rest).replies, Due(opcode, payload);
      Associative(was, due, later);
      Grows(was + due, later);
      assert opcode != 8 && opcode != 9 ==> due + later == later;
      hide Due;
      err := Answer(opcode, payload);
    }

    /** Answers a control frame: a close with its echo and the end, a ping with a pong. */
    method Answer(opcode: nat, payload: seq<byte>) returns (err: Err)
      requires Valid() && !closed && remaining == 0 && |payload| <= 125
      modifies this`out, this`sent, this`written, this`failed, this`closed, net
      ensures Later(net) && Valid() && (old(failed) ==> failed) && written == old(written)
      ensures err == Lost || failed != old(failed) ==> net.faults > old(net.faults)
      ensures if opcode == 8 then err == End(EOF) && closed else !err.End? && !closed
      ensures Controls(sent) == old(Controls(sent)) + Due(opcode, payload) || (Controls(sent) == old(Controls(sent)) && failed && err != Nil)
      ensures err == Nil ==> failed == old(failed)
    {
      hide Canonical, ServerFrame, Controls, EncodeAll, DataOf;
      err := Nil;
      if opcode == 8 {
        var _ := WriteFrame(8, payload);
        closed := true;
        return End(EOF);
      } else if opcode == 9 {
        var ok := WriteFrame(10, payload);
        if !ok {
          err := Lost;
        }
      }
    }

    /** Reads one frame header; a control frame is read whole and answered. */
    method NextFrame() returns (err: Err)
      requires Valid() && !closed && remaining == 0
      modifies this, net
      ensures Later(net) && written == old(written)
      ensures err == Lost || failed != old(failed) ==> net.faults > old(net.faults)
      ensures Valid() && (old(failed) ==> failed)
      ensures Controls(sent) <= old(Answers())
      ensures err == Nil ==> !closed && |rest| < |old(rest)| && failed == old(failed)
      ensures err == Nil ==> Future().data == old(Future()).data && Future().ending == old(Future()).ending
      ensures err == Nil ==> Answers() == old(Answers())
      ensures err.End? ==> old(Future()).data == [] && old(Future()).ending == err.ending
      ensures err.End? && !failed ==> Controls(sent) == old(Answers())
      ensures closed ==> err == End(EOF)
    {
      hide Canonical, DecodeFrames, ParseHeader, DecodePayload, Controls, EncodeAll, ControlMeaning;
      ghost var s := rest;
      NothingRemains(s, masked, mask, maskPos);
      var opcode, length;
      err, opcode, length := ReadHeader();
      if err != Nil {
        BadHeader(s);
        return;
      }
      HeaderMeaning(s, mask);
      if opcode >= 8 {
        err := Control(opcode, length);
        NothingRemains(rest, masked, mask, maskPos);
      } else {
        remaining := length;
      }
    }

    /** Delivers payload bytes into p, unmasked in place; how many is up to the network. */
    method Read(p: array<byte>) returns (n: nat, err: Err)
      requires Valid()
      modifies this, p, net
      ensures Later(net) && written == old(written)
      ensures err == Lost || failed != old(failed) ==> net.faults > old(net.faults)
      ensures Valid() && (old(failed) ==> failed)
      ensures n <= p.Length && p[n..] == old(p[n..])
      ensures p[..n] <= old(Future()).data && Controls(sent) <= old(Answers())
      ensures err == Nil ==> failed == old(failed) && (p.Length > 0 ==> 0 < n && |rest| < |old(rest)|)
      ensures err == Nil ==> old(Future()).data == p[..n] + Future().data && Future().ending == old(Future()).ending
      ensures err == Nil ==> Answers() == old(Answers())
      ensures err.End? ==> old(Future()).data == p[..n] && old(Future()).ending == err.ending
      ensures err.End? && !failed ==> Controls(sent) == old(Answers())
      ensures old(closed) ==> n == 0 && err == End(EOF) && closed && out == old(out) && sent == old(sent) && Untroubled(net)
      ensures closed ==> n == 0 && err == End(EOF)
    {
      hide Canonical, DecodePayload, DecodeFrames, Controls, EncodeAll, DataOf;
      ghost var f, a := Future(), Answers();
      n := 0;
      while remaining == 0
        invariant Valid() && failed == old(failed) && (old(closed) ==> closed && out == old(out) && sent == old(sent) && Untroubled(net))
        invariant Later(net) && written == old(written)
        invariant Future().data == f.data && Future().ending == f.ending && Answers() == a
        invariant closed ==> old(closed)
        invariant |rest| <= |old(rest)|
        invariant p[..] == old(p[..])
        decreases |rest|
      {
        if closed {
          return 0, End(EOF);
        }
        err := NextFrame();
        if err != Nil {
          return 0, err;
        }
      }
      n, err := ReadPart(p);
    }

    /** The rest of Read, inside a payload. */
    method ReadPart(p: array<byte>) returns (n: nat, err: Err)
      requires Valid() && !closed && remaining > 0
      modifies this`rest, this`remaining, this`maskPos, p, net
      ensures Later(net) && (err == Lost ==> net.faults > old(net.faults))
      ensures Valid() && n <= p.Length && p[n..] == old(p[n..])
      ensures old(Future()) == Future().(data := p[..n] + Future().data)
      ensures err == Nil ==> p.Length > 0 ==> 0 < n && |rest| < |old(rest)|
      ensures err.End? ==> err.ending == EOF && Future() == Decoded([], [], EOF)
    {
      hide Canonical, DecodeFrames, DecodePayload, Controls, EncodeAll, Unmask, DataOf;
      var limit := if p.Length > remaining then remaining else p.Length;
      ghost var s, r := rest, remaining;
      n, err := ReadSome(p, limit);
      DecodePart(s, n, r, masked, mask, maskPos);
      if masked {
        UnmaskInPlace(p, n);
      } else {
        UnmaskedIsItself(s[..n], mask);
        UnmaskedAnyKey(rest, r - n, mask, maskPos, mask, maskPos + n);
      }
      remaining := remaining - n;
      if err.End? {
        NothingLeft(remaining, masked, mask, maskPos);
      }
    }

    /** A read from the buffered connection: up to limit bytes, and at least one unless it fails. */
    method ReadSome(p: array<byte>, limit: nat) returns (n: nat, err: Err)
      requires limit <= p.Length
      modifies this`rest, p, net
      ensures Later(net) && (err == Lost ==> net.faults > old(net.faults))
      ensures n <= limit && n <= |old(rest)| && rest == old(rest)[n..]
      ensures p[..n] == old(rest)[..n] && p[n..] == old(p[n..])
      ensures err == Nil ==> n > 0 || limit == 0
      ensures err.End? ==> err.ending == EOF && rest == []
    {
      var bad := net.Fails();
      if limit == 0 {
        n, err := 0, if bad then Lost else Nil;
      } else if bad {
        n :| 0 <= n <= limit && n <= |rest|;
        err := Lost;
      } else if rest == [] {
        n, err := 0, End(EOF);
      } else {
        n :| 0 < n <= limit && n <= |rest|;
        var together: bool := *;
        err := if together && n == |rest| then End(EOF) else Nil;
      }
      var s := rest;
      ghost var before := p[..];
      for i := 0 to n
        invariant forall k | 0 <= k < i :: p[k] == s[k]
        invariant forall k | i <= k < p.Length :: p[k] == before[k]
        invariant rest == s && net.faults == old(net.faults) + (if bad then 1 else 0) && net.silences == old(net.silences)
      {
        p[i] := s[i];
      }
      rest := s[n..];
    }

    /** XORs the first n bytes with the key, carrying the key position on. */
    method UnmaskInPlace(p: array<byte>, n: nat)
      requires n <= p.Length && |mask| == 4
      modifies p, this`maskPos
      ensures p[..n] == Unmask(old(p[..n]), true, mask, old(maskPos)) && p[n..] == old(p[n..])
      ensures maskPos == old(maskPos) + n
    {
      ghost var s := p[..];
      hide XorByte;
      for i := 0 to n
        invariant maskPos == old(maskPos) + i
        invariant forall k | 0 <= k < i :: p[k] == XorByte(s[k], MaskAt(mask, old(maskPos) + k))
        invariant forall k | i <= k < p.Length :: p[k] == s[k]
      {
        p[i] := XorByte(p[i], mask[maskPos % 4]);
        maskPos := maskPos + 1;
      }
    }
  }

  /** What a frame sent adds to the history. */
  lemma SentMore(sent: seq<Frame>, opcode: nat, p: seq<byte>)
    requires Canonical(sent) && opcode < 16 && |p| < Pow256(8) && (opcode >= 8 ==> |p| <= 125)
    ensures var more := sent + [AsFrame(opcode, p)];
            && Canonical(more) && EncodeAll(more) == EncodeAll(sent) + ServerFrame(opcode, p)
            && DataOf(more) == (if opcode < 8 then DataOf(sent) + p else DataOf(sent))
            && Controls(more) == if opcode >= 8 then Controls(sent) + ServerFrame(opcode, p) else Controls(sent)
  {
    var f := AsFrame(opcode, p);
    ServerFrameIsFrame(opcode, p);
    OneCanonical(opcode, p);
    assert f.payload == p;
    hide Canonical, Controls, EncodeAll, Encode, Frame.Valid, Frame.Opcode, DataOf, ServerFrame, AsFrame;
    EncodeAllAppend(sent, f);
    ControlsAppend(sent, f);
    DataAppend(sent, f);
  }

  lemma Slices(s: seq<byte>, i: nat, j: nat)
    requires i <= |s|
    ensures j <= |s| - i ==> s[i..][..j] == s[i..i + j] && s[i..][j..] == s[i + j..]
  {
  }

  /** The parser, part by part. */
  lemma ParseParts(s: seq<byte>)
    ensures |s| < 2 ==> ParseHeader(s) == Bad(Shortfall(|s|))
    ensures |s| >= 2 ==>
              var ext, masked := LengthSize(s[1] % 128), s[1] >= 128;
              && (|s| - 2 < ext ==> ParseHeader(s) == Bad(Shortfall(|s| - 2)))
              && (ext <= |s| - 2 && masked && |s| - 2 - ext < 4 ==> ParseHeader(s) == Bad(Shortfall(|s| - 2 - ext)))
              && (ext <= |s| - 2 && (masked ==> 4 <= |s| - 2 - ext) ==>
                    ParseHeader(s) == Header(s[0] % 16, masked, if masked then s[2 + ext..6 + ext] else NoMask(),
                                             if ext == 0 then s[1] % 128 else FromBE(s[2..2 + ext]), if masked then 6 + ext else 2 + ext))
  {
    hide FromBE;
  }

  lemma OneCanonical(opcode: nat, p: seq<byte>)
    requires opcode < 16 && |p| < Pow256(8) && (opcode >= 8 ==> |p| <= 125)
    ensures Canonical([AsFrame(opcode, p)])
  {
    ServerFrameIsFrame(opcode, p);
    hide Frame.Valid, Frame.Opcode, AsFrame;
    assert AsFrame(opcode, p).payload == p;
  }

  /** The bytes of one frame, built field by field. */
  method FrameBytes(opcode: nat, p: seq<byte>) returns (frame: seq<byte>)
    requires opcode < 16 && |p| < Pow256(8)
    ensures frame == ServerFrame(opcode, p)
  {
    var hdr: seq<byte> := [128 + opcode];
    if |p| < 126 {
      hdr := hdr + [|p|];
    } else if |p| <= 65535 {
      hdr := hdr + [126];
      hdr := hdr + BE(|p|, 2);
    } else {
      hdr := hdr + [127];
      hdr := hdr + BE(|p|, 8);
    }
    frame := hdr + p;
    assert hdr == [128 + opcode] + LengthBytes(|p|);
  }

  /** Unmasks a control payload from the start of the key. */
  method UnmaskBytes(s: seq<byte>, mask: seq<byte>) returns (r: seq<byte>)
    requires |mask| == 4
    ensures r == Unmask(s, true, mask, 0)
  {
    hide XorByte;
    r := [];
    for i := 0 to |s|
      invariant |r| == i && forall k | 0 <= k < i :: r[k] == XorByte(s[k], MaskAt(mask, k))
    {
      r := r + [XorByte(s[i], mask[i % 4])];
    }
  }

  lemma UnmaskedIsItself(s: seq<byte>, mask: seq<byte>)
    requires |mask| == 4
    ensures forall pos: nat :: Unmask(s, false, mask, pos) == s
  {
  }

  lemma BadHeader(s: seq<byte>)
    ensures ParseHeader(s).Bad? ==> DecodeFrames(s) == Decoded([], [], ParseHeader(s).ending)
  {
    hide ParseHeader;
  }

  /** What a stream means from the payload of a control frame on. */
  ghost function ControlMeaning(s: seq<byte>, opcode: nat, length: nat, masked: bool, mask: seq<byte>): Decoded
    requires |mask| == 4
  {
    if length > 125 then Decoded([], [], Oversized)
    else if |s| < length then Decoded([], [], Shortfall(|s|))
    else
      var payload, d := Unmask(s[..length], masked, mask, 0), DecodeFrames(s[length..]);
      if opcode == 8 then Decoded([], ServerFrame(8, payload), EOF)
      else if opcode == 9 then d.(replies := ServerFrame(10, payload) + d.replies) else d
  }

  lemma ControlCases(s: seq<byte>, opcode: nat, length: nat, masked: bool, mask: seq<byte>)
    requires |mask| == 4
    ensures var d := ControlMeaning(s, opcode, length, masked, mask);
            && (length > 125 ==> d == Decoded([], [], Oversized))
            && (length <= 125 && |s| < length ==> d == Decoded([], [], Shortfall(|s|)))
            && (length <= 125 && length <= |s| ==>
                  var payload, e := Unmask(s[..length], masked, mask, 0), DecodeFrames(s[length..]);
                  d == if opcode == 8 then Decoded([], ServerFrame(8, payload), EOF)
                       else if opcode == 9 then e.(replies := ServerFrame(10, payload) + e.replies) else e)
  {
    hide Unmask, ServerFrame, DecodeFrames;
  }

  lemma Grows(a: seq<byte>, b: seq<byte>)
    ensures a <= a + b
  {
  }

  lemma HeaderMeaning(s: seq<byte>, mask: seq<byte>)
    requires |mask| == 4 && ParseHeader(s).Header? && (ParseHeader(s).masked ==> mask == ParseHeader(s).mask)
    ensures var h := ParseHeader(s);
            DecodeFrames(s) == if h.opcode >= 8 then ControlMeaning(s[h.size..], h.opcode, h.length, h.masked, mask)
                               else DecodePayload(s[h.size..], h.length, h.masked, mask, 0)
  {
    hide ParseHeader, DecodePayload, Unmask, ServerFrame;
    var h := ParseHeader(s);
    var t := s[h.size..];
    if h.opcode < 8 {
      if !h.masked {
        UnmaskedAnyKey(t, h.length, mask, 0, h.mask, 0);
      }
    } else if !h.masked && h.length <= |t| {
      UnmaskedIsItself(t[..h.length], mask);
      UnmaskedIsItself(t[..h.length], h.mask);
    }
  }

  /** Copies the client's payload to sshd until reading ends: sshd receives exactly the decoded data. */
  method Deliver(ws: WsConn, buf: array<byte>) returns (received: seq<byte>, err: Err)
    requires ws.Valid() && buf.Length > 0
    modifies ws, buf, ws.net
    ensures Later(ws.net) && ws.written == old(ws.written)
    ensures err == Lost || ws.failed != old(ws.failed) ==> ws.net.faults > old(ws.net.faults)
    ensures ws.Valid() && err != Nil
    ensures received <= old(ws.Future()).data && Controls(ws.sent) <= old(ws.Answers())
    ensures err.End? ==> received == old(ws.Future()).data && err.ending == old(ws.Future()).ending
    ensures err.End? && !ws.failed ==> Controls(ws.sent) == old(ws.Answers())
    ensures ws.closed ==> err == End(EOF)
  {
    hide Frame.Valid, Frame.Opcode, AsFrame, Controls, EncodeAll, DecodePayload;
    hide WsConn.Valid, WsConn.Future, WsConn.Answers, DecodeFrames, Canonical, DataOf, Unmask;
    ghost var f, a := ws.Future(), ws.Answers();
    received := [];
    while true
      invariant ws.Valid() && Later(ws.net) && ws.written == old(ws.written) && ws.failed == old(ws.failed)
      invariant f.data == received + ws.Future().data && f.ending == ws.Future().ending && a == ws.Answers()
      decreases |ws.rest|
    {
      ghost var was, future := received, ws.Future().data;
      var n, e := ws.Read(buf);
      var part := buf[..n];
      PartOf(was, part, future);
      if n > 0 {
        var refused := ws.net.Fails();
        if refused {
          assert received <= f.data by { PartOf([], received, f.data); }
          return received, Lost;
        }
      }
      received := received + part;
      if e != Nil {
        return received, e;
      }
      Associative(was, part, ws.Future().data);
    }
  }

  lemma PartOf(was: seq<byte>, part: seq<byte>, all: seq<byte>)
    ensures part <= all ==> was + part <= was + all && was <= was + all
    ensures part == all ==> was + part == was + all
  {
  }

  /** The data payloads of a list of frames stop at a close frame; the data does not. */
  lemma {:induction false} PayloadsOfLonger(fs: seq<Frame>, f: Frame)
    ensures Payloads(fs + [f]) == Payloads(fs) + if Closes(fs) || f.Opcode() >= 8 then [] else f.payload
  {
    hide Closes, Frame.Opcode;
    if fs == [] {
      assert fs + [f] == [f] && [f][1..] == [];
      assert Closes([]) == false by { NoneCloses(); }
    } else {
      var more := fs[1..];
      PayloadsOfLonger(more, f);
      ClosesFirstOrLater(fs);
      assert (fs + [f])[1..] == more + [f] && (fs + [f])[0] == fs[0];
    }
  }

  lemma NoneCloses()
    ensures !Closes([])
  {
  }

  lemma ClosesLast(fs: seq<Frame>)
    requires fs != []
    ensures Closes(fs) <==> Closes(fs[..|fs| - 1]) || fs[|fs| - 1].Opcode() == 8
  {
    hide Frame.Opcode;
    var front := fs[..|fs| - 1];
    assert forall i | 0 <= i < |front| :: front[i] == fs[i];
  }

  lemma {:induction false} PayloadsAreData(sent: seq<Frame>)
    ensures Payloads(sent) <= DataOf(sent) && (!Closes(sent) ==> Payloads(sent) == DataOf(sent))
    decreases |sent|
  {
    hide Closes, Frame.Opcode, Payloads;
    if sent == [] {
      assert Payloads(sent) == [] by { NoPayloads(); }
    } else {
      var front, f := sent[..|sent| - 1], sent[|sent| - 1];
      PayloadsAreData(front);
      PayloadsOfLonger(front, f);
      ClosesLast(sent);
      assert sent == front + [f];
    }
  }

  lemma NoPayloads()
    ensures Payloads([]) == []
  {
  }

  /** What the peer reads from the bytes a connection put out: what was written, up to the echo of a close. */
  lemma OutReadsBack(ws: WsConn)
    requires ws.Valid() && !ws.failed
    ensures DecodeFrames(ws.out).data <= ws.written && DecodeFrames(ws.out).ending == EOF
    ensures !Closes(ws.sent) ==> DecodeFrames(ws.out).data == ws.written
  {
    var sent := ws.sent;
    assert forall i | 0 <= i < |sent| :: sent[i].Valid();
    hide Canonical, Closes, DataOf, Payloads, Replies, EncodeAll;
    DecodeEncodedAll(sent, []);
    PayloadsAreData(sent);
    NothingDecodes();
    hide DecodeFrames;
    assert EncodeAll(sent) + [] == EncodeAll(sent);
    assert Payloads(sent) + [] == Payloads(sent);
  }

  lemma NothingDecodes()
    ensures DecodeFrames([]) == Decoded([], [], EOF)
  {
  }
}
