/** The badvpn-udpgw wire format: frames of a little-endian length and a payload,
    and payloads of flags, connection id, address and datagram. */
module UdpgwProto {
  import opened Bytes

  const HEADER_LEN := 3
  const ADDR4_LEN := 6
  const ADDR6_LEN := 18
  const MAX_PAYLOAD := 65535

  /** What a 16-bit length can announce. */
  type payload = p: seq<byte> | |p| <= MAX_PAYLOAD

  predicate IsKeepalive(flags: byte) { flags % 2 == 1 }
  predicate IsRebind(flags: byte) { flags % 4 >= 2 }
  predicate IsDNS(flags: byte) { flags % 8 >= 4 }
  predicate IsIPv6(flags: byte) { flags % 16 >= 8 }

  /** The flags byte, bit by bit from the low end: keepalive, rebind, DNS, IPv6. */
  lemma FlagBits(flags: byte)
    ensures IsKeepalive(flags) <==> flags % 2 == 1
    ensures IsRebind(flags) <==> flags / 2 % 2 == 1
    ensures IsDNS(flags) <==> flags / 4 % 2 == 1
    ensures IsIPv6(flags) <==> flags / 8 % 2 == 1
  {
    RebindBit(flags);
    DNSBit(flags);
    IPv6Bit(flags);
    hide IsRebind, IsDNS, IsIPv6;
  }

  lemma RebindBit(flags: byte)
    ensures IsRebind(flags) <==> flags / 2 % 2 == 1
  {
    assert flags % 4 == 2 * (flags / 2 % 2) + flags % 2;
  }

  lemma DNSBit(flags: byte)
    ensures IsDNS(flags) <==> flags / 4 % 2 == 1
  {
    assert flags % 8 == 4 * (flags / 4 % 2) + flags % 4;
  }

  lemma IPv6Bit(flags: byte)
    ensures IsIPv6(flags) <==> flags / 8 % 2 == 1
  {
    assert flags % 16 == 8 * (flags / 8 % 2) + flags % 8;
  }

  /** A valid, zone-free address and port. An IPv4-mapped IPv6 address is a V6 one, as `Is4` sees it. */
  datatype AddrPort = V4(ip: seq<byte>, port: nat) | V6(ip: seq<byte>, port: nat) {
    predicate Valid() {
      port < 65536 && |ip| == if V4? then 4 else 16
    }
  }

  /** A decoded payload. A keepalive carries no address and no data. */
  datatype Packet =
    | Keepalive(flags: byte, conid: nat)
    | Datagram(flags: byte, conid: nat, addr: AddrPort, data: seq<byte>)

  datatype ParseResult = Parsed(packet: Packet) | Short

  function ParsePacket(b: seq<byte>): ParseResult
  {
    if |b| < HEADER_LEN then Short
    else
      var flags, conid, rest := b[0], FromLE16(b[1..3]), b[3..];
      if IsKeepalive(flags) then Parsed(Keepalive(flags, conid))
      else if IsIPv6(flags) then
        if |rest| < ADDR6_LEN then Short
        else Parsed(Datagram(flags, conid, V6(rest[..16], FromBE16(rest[16..18])), rest[18..]))
      else
        if |rest| < ADDR4_LEN then Short
        else Parsed(Datagram(flags, conid, V4(rest[..4], FromBE16(rest[4..6])), rest[6..]))
  }

  /** The flags as sent: the IPv6 bit says which kind of address follows. */
  function FlagsFor(flags: byte, addr: AddrPort): (r: byte)
    ensures IsIPv6(r) == addr.V6?
    ensures IsIPv6(flags) == addr.V6? ==> r == flags
  {
    if addr.V6? && !IsIPv6(flags) then flags + 8
    else if addr.V4? && IsIPv6(flags) then flags - 8
    else flags
  }

  lemma FlagsForKeepsKeepalive(flags: byte, addr: AddrPort)
    ensures IsKeepalive(FlagsFor(flags, addr)) == IsKeepalive(flags)
  {
  }

  function AddrLen(addr: AddrPort): nat { if addr.V4? then ADDR4_LEN else ADDR6_LEN }

  function Payload(flags: byte, conid: nat, addr: AddrPort, data: seq<byte>): seq<byte>
    requires addr.Valid() && conid < 65536
  {
    [FlagsFor(flags, addr)] + LE16(conid) + addr.ip + BE16(addr.port) + data
  }

  /** A payload with its length in front. */
  function Framed(p: payload): seq<byte>
  {
    LE16(|p|) + p
  }

  /** The size of a frame with n data bytes, as the flow readers budget it. */
  function FrameLen(addr: AddrPort, n: nat): nat
  {
    if addr.V4? then 2 + HEADER_LEN + ADDR4_LEN + n else 2 + HEADER_LEN + ADDR6_LEN + n
  }

  predicate Fits(addr: AddrPort, n: nat) { HEADER_LEN + AddrLen(addr) + n <= MAX_PAYLOAD }

  /** Appends one frame to dst piece by piece, or leaves dst alone when the payload is too large. */
  method AppendFrame(dst: seq<byte>, flags: byte, conid: nat, addr: AddrPort, data: seq<byte>)
    returns (out: seq<byte>, ok: bool)
    requires addr.Valid() && conid < 65536
    ensures ok <==> Fits(addr, |data|)
    ensures ok ==> |Payload(flags, conid, addr, data)| <= MAX_PAYLOAD && out == dst + Framed(Payload(flags, conid, addr, data))
    ensures ok ==> |out| == |dst| + FrameLen(addr, |data|)
    ensures !ok ==> out == dst
  {
    out := dst;
    var addrLen := ADDR4_LEN;
    var fl := flags;
    if !addr.V4? {
      addrLen := ADDR6_LEN;
      fl := if IsIPv6(fl) then fl else fl + 8;
    } else {
      fl := if IsIPv6(fl) then fl - 8 else fl;
    }
    var payload := HEADER_LEN + addrLen + |data|;
    if payload > MAX_PAYLOAD {
      return out, false;
    }
    out := out + LE16(payload);
    out := out + [fl];
    out := out + LE16(conid);
    out := out + addr.ip;
    out := out + BE16(addr.port);
    out := out + data;
    ok := true;
    assert out == dst + (LE16(payload) + ([fl] + LE16(conid) + addr.ip + BE16(addr.port) + data));
  }

  lemma FrameLenExact(flags: byte, conid: nat, addr: AddrPort, data: seq<byte>)
    requires addr.Valid() && conid < 65536 && Fits(addr, |data|)
    ensures |Payload(flags, conid, addr, data)| <= MAX_PAYLOAD
    ensures |Framed(Payload(flags, conid, addr, data))| == FrameLen(addr, |data|)
  {
  }

  lemma FlagsLayout(flags: byte, addr: AddrPort)
    ensures var fl := FlagsFor(flags, addr); fl % 8 == flags % 8 && fl / 8 % 2 == (if addr.V6? then 1 else 0) && fl / 16 == flags / 16
  {
    IPv6Bit(flags);
    IPv6Bit(FlagsFor(flags, addr));
  }

  /** A frame on the wire, byte by byte: length and id with the low byte first, the flags with the bit of value
      eight telling the address family, the address, the port with the high byte first, the data. */
  lemma WireLayout(flags: byte, conid: nat, addr: AddrPort, data: seq<byte>)
    requires addr.Valid() && conid < 65536 && Fits(addr, |data|)
    ensures |Payload(flags, conid, addr, data)| <= MAX_PAYLOAD
    ensures var b, k := Framed(Payload(flags, conid, addr, data)), if addr.V4? then 4 else 16;
            && |b| == 7 + k + |data|
            && b[0] as int + b[1] as int * 256 == |b| - 2
            && b[2] % 8 == flags % 8 && b[2] / 8 % 2 == (if addr.V6? then 1 else 0) && b[2] / 16 == flags / 16
            && b[3] as int + b[4] as int * 256 == conid
            && b[5..5 + k] == addr.ip
            && b[5 + k] as int * 256 + b[6 + k] as int == addr.port
            && b[7 + k..] == data
  {
    FrameLenExact(flags, conid, addr, data);
    var p, fl := Payload(flags, conid, addr, data), FlagsFor(flags, addr);
    var b := Framed(p);
    FlagsLayout(flags, addr);
    hide FlagsFor;
    assert b == LE16(|p|) + [fl] + LE16(conid) + addr.ip + BE16(addr.port) + data;
  }

  // ParsePacket and Payload are mutually inverse on non-keepalive payloads.

  lemma ParseOfPayload(flags: byte, conid: nat, addr: AddrPort, data: seq<byte>)
    requires addr.Valid() && conid < 65536 && !IsKeepalive(flags)
    ensures ParsePacket(Payload(flags, conid, addr, data)) == Parsed(Datagram(FlagsFor(flags, addr), conid, addr, data))
  {
    FlagsForKeepsKeepalive(flags, addr);
    var fl := FlagsFor(flags, addr);
    var b := Payload(flags, conid, addr, data);
    assert b[0] == fl && b[1..3] == LE16(conid);
    var rest := b[3..];
    assert rest == addr.ip + BE16(addr.port) + data;
    var k := |addr.ip|;
    assert rest[..k] == addr.ip && rest[k..k + 2] == BE16(addr.port) && rest[k + 2..] == data;
  }

  lemma PayloadOfParse(b: seq<byte>)
    requires ParsePacket(b).Parsed? && ParsePacket(b).packet.Datagram?
    ensures var p := ParsePacket(b).packet;
            && p.addr.Valid() && p.conid < 65536 && FlagsFor(p.flags, p.addr) == p.flags
            && Payload(p.flags, p.conid, p.addr, p.data) == b
  {
    var p := ParsePacket(b).packet;
    var rest := b[3..];
    var k := |p.addr.ip|;
    assert LE16(p.conid) == b[1..3];
    assert BE16(p.addr.port) == rest[k..k + 2];
    assert b == [b[0]] + b[1..3] + rest[..k] + rest[k..k + 2] + rest[k + 2..];
  }

  /** Exactly the payloads too short for their own header are malformed, and of the others those with the lowest
      bit set are keepalives. */
  lemma MalformedIffShort(b: seq<byte>)
    ensures ParsePacket(b) == Short <==>
            || |b| < HEADER_LEN
            || (!IsKeepalive(b[0]) && |b| < HEADER_LEN + if IsIPv6(b[0]) then ADDR6_LEN else ADDR4_LEN)
    ensures ParsePacket(b) == Short <==> |b| < 3 || (b[0] % 2 == 0 && |b| < if b[0] / 8 % 2 == 1 then 21 else 9)
    ensures ParsePacket(b).Parsed? ==> (ParsePacket(b).packet.Keepalive? <==> b[0] % 2 == 1) && ParsePacket(b).packet.flags == b[0]
  {
  }

  // Streams of frames.

  /** The complete frames at the front of a stream, and what is left over. */
  function Deframe(s: seq<byte>): (r: (seq<payload>, seq<byte>))
    ensures |r.1| <= |s|
  {
    if |s| < 2 then ([], s)
    else
      var n := FromLE16(s[..2]);
      if |s| < 2 + n then ([], s)
      else
        var (ps, rest) := Deframe(s[2 + n..]);
        ([s[2..2 + n]] + ps, rest)
  }

  function FrameAll(ps: seq<payload>): seq<byte>
  {
    if ps == [] then [] else Framed(ps[0]) + FrameAll(ps[1..])
  }

  lemma {:induction false} FrameAllAppend(ps: seq<payload>, qs: seq<payload>)
    ensures FrameAll(ps + qs) == FrameAll(ps) + FrameAll(qs)
  {
    if ps == [] {
      assert ps + qs == qs;
    } else {
      assert (ps + qs)[1..] == ps[1..] + qs;
      FrameAllAppend(ps[1..], qs);
    }
  }

  lemma DeframeOne(p: payload, s: seq<byte>)
    ensures Deframe(Framed(p) + s) == ([p] + Deframe(s).0, Deframe(s).1)
  {
    var t := Framed(p) + s;
    assert t[..2] == LE16(|p|);
    assert t[2..2 + |p|] == p && t[2 + |p|..] == s;
  }

  /** Decoding is exact on any framed stream: nothing lost, merged or invented. */
  lemma {:induction false} DeframeFrameAll(ps: seq<payload>, tail: seq<byte>)
    ensures Deframe(FrameAll(ps) + tail) == (ps + Deframe(tail).0, Deframe(tail).1)
  {
    hide Deframe, Framed;
    var more := Deframe(tail).0;
    if ps == [] {
      assert FrameAll(ps) + tail == tail;
      assert ps + more == more;
    } else {
      var s := FrameAll(ps[1..]) + tail;
      DeframeFrameAll(ps[1..], tail);
      DeframeOne(ps[0], s);
      assert FrameAll(ps) + tail == Framed(ps[0]) + s;
      assert [ps[0]] + (ps[1..] + more) == ps + more;
    }
  }

  /** Every stream is the frames decoded from it and a remainder too short for another frame. */
  lemma {:induction false} DeframeConserves(s: seq<byte>)
    ensures FrameAll(Deframe(s).0) + Deframe(s).1 == s
    ensures Deframe(Deframe(s).1) == ([], Deframe(s).1)
  {
    if |s| >= 2 && |s| >= 2 + FromLE16(s[..2]) {
      var n := FromLE16(s[..2]);
      DeframeConserves(s[2 + n..]);
      assert Deframe(s).0[1..] == Deframe(s[2 + n..]).0;
      assert LE16(n) == s[..2];
      assert s == s[..2] + s[2..2 + n] + s[2 + n..];
    }
  }

  /** Cutting the stream anywhere changes nothing: the second part is decoded after the first one's remainder. */
  lemma DeframeSplit(s: seq<byte>, t: seq<byte>)
    ensures Deframe(s + t) == (Deframe(s).0 + Deframe(Deframe(s).1 + t).0, Deframe(Deframe(s).1 + t).1)
  {
    var (ps, rest) := Deframe(s);
    DeframeConserves(s);
    assert s + t == FrameAll(ps) + (rest + t);
    DeframeFrameAll(ps, rest + t);
  }

  // The client reader: what reaches handle.

  function HandledOf(payloads: seq<payload>): seq<Packet>
  {
    if payloads == [] then []
    else
      var r := ParsePacket(payloads[0]);
      (if r.Parsed? && r.packet.Datagram? then [r.packet] else []) + HandledOf(payloads[1..])
  }

  lemma {:induction false} HandledAppend(ps: seq<payload>, qs: seq<payload>)
    ensures HandledOf(ps + qs) == HandledOf(ps) + HandledOf(qs)
  {
    if ps == [] {
      assert ps + qs == qs;
    } else {
      assert (ps + qs)[1..] == ps[1..] + qs;
      HandledAppend(ps[1..], qs);
    }
  }

  lemma DeframeAt(s: seq<byte>, pos: nat)
    requires pos <= |s|
    ensures |s| < pos + 2 ==> Deframe(s[pos..]).0 == []
    ensures pos + 2 <= |s| < pos + 2 + FromLE16(s[pos..pos + 2]) ==> Deframe(s[pos..]).0 == []
    ensures pos + 2 <= |s| && pos + 2 + FromLE16(s[pos..pos + 2]) <= |s| ==>
              var next := pos + 2 + FromLE16(s[pos..pos + 2]);
              Deframe(s[pos..]).0 == [s[pos + 2..next]] + Deframe(s[next..]).0
  {
    if pos + 2 <= |s| {
      assert s[pos..][..2] == s[pos..pos + 2];
      var n := FromLE16(s[pos..pos + 2]);
      if pos + 2 + n <= |s| {
        assert s[pos..][2..2 + n] == s[pos + 2..pos + 2 + n];
        assert s[pos..][2 + n..] == s[pos + 2 + n..];
      }
    }
  }

  /** The reader loop over everything a client sends until its stream ends: read a length,
      read that many bytes, parse, skip malformed payloads and keepalives, handle the rest. */
  method ReadClient(stream: seq<byte>) returns (handled: seq<Packet>, heard: nat)
    ensures handled == HandledOf(Deframe(stream).0)
    ensures heard == |Deframe(stream).0|
  {
    hide Deframe, ParsePacket, FromLE16;
    ghost var all := Deframe(stream).0;
    handled, heard := [], 0;
    var pos := 0;
    assert stream[0..] == stream;
    while pos + 2 <= |stream|
      invariant pos <= |stream|
      invariant handled + HandledOf(Deframe(stream[pos..]).0) == HandledOf(all)
      invariant heard + |Deframe(stream[pos..]).0| == |all|
      decreases |stream| - pos
    {
      DeframeAt(stream, pos);
      var n := FromLE16(stream[pos..pos + 2]);
      if pos + 2 + n > |stream| {
        return;
      }
      var body: payload := stream[pos + 2..pos + 2 + n];
      ghost var more := Deframe(stream[pos + 2 + n..]).0;
      assert ([body] + more)[1..] == more;
      heard := heard + 1;
      pos := pos + 2 + n;
      var r := ParsePacket(body);
      if r.Short? {
        continue;
      }
      if r.packet.Keepalive? {
        continue;
      }
      handled := handled + [r.packet];
    }
    DeframeAt(stream, pos);
  }

  /** A malformed or keepalive payload between others costs nothing but itself: frames
      before and after it are handled as if it had not been sent. */
  lemma NoDesync(before: seq<payload>, odd: payload, after: seq<payload>, tail: seq<byte>)
    requires ParsePacket(odd).Short? || ParsePacket(odd).packet.Keepalive?
    ensures HandledOf(Deframe(FrameAll(before + [odd] + after) + tail).0)
         == HandledOf(Deframe(FrameAll(before + after) + tail).0)
  {
    hide Deframe, FrameAll, ParsePacket;
    var rest := Deframe(tail).0;
    DeframeFrameAll(before + [odd] + after, tail);
    DeframeFrameAll(before + after, tail);
    assert before + [odd] + after + rest == before + ([odd] + (after + rest));
    assert before + after + rest == before + (after + rest);
    HandledAppend(before, [odd] + (after + rest));
    HandledAppend(before, after + rest);
    assert ([odd] + (after + rest))[1..] == after + rest;
  }

  /** Datagrams framed by a client arrive at handle exactly, in order. */
  lemma {:induction false} HandledOfDatagrams(ds: seq<Packet>)
    requires forall i | 0 <= i < |ds| :: WellFormed(ds[i])
    ensures HandledOf(Deframe(FrameAll(PayloadOf(ds))).0) == ds
  {
    var ps := PayloadOf(ds);
    assert FrameAll(ps) + [] == FrameAll(ps);
    DeframeFrameAll(ps, []);
    assert ps + Deframe([]).0 == ps;
    HandledOfPayloads(ds);
  }

  predicate WellFormed(d: Packet) {
    && d.Datagram? && !IsKeepalive(d.flags) && IsIPv6(d.flags) == d.addr.V6?
    && d.addr.Valid() && d.conid < 65536 && Fits(d.addr, |d.data|)
  }

  function PayloadOf(ds: seq<Packet>): (r: seq<payload>)
    requires forall i | 0 <= i < |ds| :: WellFormed(ds[i])
  {
    if ds == [] then []
    else
      var d := ds[0];
      assert WellFormed(d);
      [Payload(d.flags, d.conid, d.addr, d.data)] + PayloadOf(ds[1..])
  }

  lemma {:induction false} HandledOfPayloads(ds: seq<Packet>)
    requires forall i | 0 <= i < |ds| :: WellFormed(ds[i])
    ensures HandledOf(PayloadOf(ds)) == ds
  {
    if ds != [] {
      ParseOfPayload(ds[0].flags, ds[0].conid, ds[0].addr, ds[0].data);
      HandledOfPayloads(ds[1..]);
      assert PayloadOf(ds)[1..] == PayloadOf(ds[1..]);
    }
  }
}
