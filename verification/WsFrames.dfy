/** WebSocket framing (sections 5.2 and 5.3 of RFC 6455): what a byte stream means, and how frames are written. */
module WsFrames {
  import opened Bytes

  /** How reading ends: at the end of the input or after a close frame, inside a frame header or
      control frame, or at a control frame that is too long. */
  datatype Ending = EOF | Unexpected | Oversized

  /** The payload bytes a stream still yields, the control replies it provokes, and how it ends. */
  datatype Decoded = Decoded(data: seq<byte>, replies: seq<byte>, ending: Ending)

  datatype Header = Header(opcode: nat, masked: bool, mask: seq<byte>, length: nat, size: nat) | Bad(ending: Ending)

  /** What a full read of n bytes reports when only have of them are there. */
  function Shortfall(have: nat): Ending { if have == 0 then EOF else Unexpected }

  function MaskAt(mask: seq<byte>, i: nat): byte
    requires |mask| == 4
  {
    mask[i % 4]
  }

  /** Unmasking from position pos of the key on; masking is the same operation. */
  function Unmask(s: seq<byte>, masked: bool, mask: seq<byte>, pos: nat): (r: seq<byte>)
    requires |mask| == 4
    ensures |r| == |s|
  {
    if !masked then s else seq(|s|, i requires 0 <= i < |s| => XorByte(s[i], MaskAt(mask, pos + i)))
  }

  lemma UnmaskTwice(s: seq<byte>, masked: bool, mask: seq<byte>, pos: nat)
    requires |mask| == 4
    ensures Unmask(Unmask(s, masked, mask, pos), masked, mask, pos) == s
  {
    if masked {
      var t := Unmask(s, masked, mask, pos);
      var u := Unmask(t, masked, mask, pos);
      forall i | 0 <= i < |s| ensures u[i] == s[i] {
        XorByteTwice(s[i], MaskAt(mask, pos + i));
      }
    }
  }

  lemma UnmaskSplit(s: seq<byte>, k: nat, masked: bool, mask: seq<byte>, pos: nat)
    requires |mask| == 4 && k <= |s|
    ensures Unmask(s, masked, mask, pos) == Unmask(s[..k], masked, mask, pos) + Unmask(s[k..], masked, mask, pos + k)
  {
    hide XorByte, MaskAt;
    var t, u := Unmask(s[..k], masked, mask, pos), Unmask(s[k..], masked, mask, pos + k);
    forall i | 0 <= i < |s| ensures Unmask(s, masked, mask, pos)[i] == (t + u)[i] {
      if i >= k {
        assert pos + k + (i - k) == pos + i;
      }
    }
  }

  /** Unmasking bit by bit: byte j of the result is byte j of the input plus, without carry, byte
      (pos + j) modulo four of the key; without the mask bit nothing changes. */
  lemma UnmaskBits(s: seq<byte>, mask: seq<byte>, pos: nat, j: nat, i: nat)
    requires |mask| == 4 && j < |s| && i < 8
    ensures Bit(Unmask(s, true, mask, pos)[j], i) == (Bit(s[j], i) + Bit(mask[(pos + j) % 4], i)) % 2
    ensures Unmask(s, false, mask, pos) == s
  {
    hide Xor, Bit;
    XorBitAt(s[j], mask[(pos + j) % 4], i);
  }

  // Reading.

  function LengthSize(len7: nat): nat { if len7 == 126 then 2 else if len7 == 127 then 8 else 0 }

  function NoMask(): seq<byte> { [0, 0, 0, 0] }

  /** The frame header at the front of a stream. */
  function ParseHeader(s: seq<byte>): (h: Header)
    ensures h.Header? ==> |h.mask| == 4 && 2 <= h.size <= |s|
  {
    if |s| < 2 then Bad(Shortfall(|s|))
    else
      var opcode: nat, masked, len7: nat := s[0] % 16, s[1] >= 128, s[1] % 128;
      var ext := LengthSize(len7);
      if |s| < 2 + ext then Bad(Shortfall(|s| - 2))
      else
        var length := if ext == 0 then len7 else FromBE(s[2..2 + ext]);
        if !masked then Header(opcode, false, NoMask(), length, 2 + ext)
        else if |s| < 6 + ext then Bad(Shortfall(|s| - 2 - ext))
        else Header(opcode, true, s[2 + ext..6 + ext], length, 6 + ext)
  }

  /** The meaning of a stream that begins with a frame. */
  function DecodeFrames(s: seq<byte>): Decoded
    decreases |s|, 0
  {
    var h := ParseHeader(s);
    if h.Bad? then Decoded([], [], h.ending)
    else if h.opcode >= 8 then
      var rest := s[h.size..];
      if h.length > 125 then Decoded([], [], Oversized)
      else if |rest| < h.length then Decoded([], [], Shortfall(|rest|))
      else
        var payload := Unmask(rest[..h.length], h.masked, h.mask, 0);
        if h.opcode == 8 then Decoded([], ServerFrame(8, payload), EOF)
        else
          var d := DecodeFrames(rest[h.length..]);
          if h.opcode == 9 then d.(replies := ServerFrame(10, payload) + d.replies) else d
    else DecodePayload(s[h.size..], h.length, h.masked, h.mask, 0)
  }

  /** The meaning of a stream that begins inside a data frame with remaining payload bytes to come. */
  function DecodePayload(s: seq<byte>, remaining: nat, masked: bool, mask: seq<byte>, pos: nat): Decoded
    requires |mask| == 4
    decreases |s|, 1
  {
    if |s| < remaining then Decoded(Unmask(s, masked, mask, pos), [], EOF)
    else
      var d := DecodeFrames(s[remaining..]);
      d.(data := Unmask(s[..remaining], masked, mask, pos) + d.data)
  }

  /** Part of a payload read: its bytes come first, and the key position moves on. */
  lemma DecodePart(s: seq<byte>, k: nat, remaining: nat, masked: bool, mask: seq<byte>, pos: nat)
    requires |mask| == 4 && k <= |s| && k <= remaining
    ensures var d, e := DecodePayload(s, remaining, masked, mask, pos), DecodePayload(s[k..], remaining - k, masked, mask, pos + k);
            d == e.(data := Unmask(s[..k], masked, mask, pos) + e.data)
  {
    hide DecodeFrames, Unmask;
    var t := s[k..];
    if |s| < remaining {
      UnmaskSplit(s, k, masked, mask, pos);
    } else {
      UnmaskSplit(s[..remaining], k, masked, mask, pos);
      assert s[..remaining][..k] == s[..k] && s[..remaining][k..] == t[..remaining - k];
      assert t[remaining - k..] == s[remaining..];
      assert Unmask(s[..k], masked, mask, pos) + (Unmask(t[..remaining - k], masked, mask, pos + k) + DecodeFrames(s[remaining..]).data)
          == Unmask(s[..k], masked, mask, pos) + Unmask(t[..remaining - k], masked, mask, pos + k) + DecodeFrames(s[remaining..]).data;
    }
  }

  // Writing.

  /** The shortest length encoding. */
  function LengthBytes(n: nat): seq<byte> {
    if n < 126 then [n] else if n <= 65535 then [126] + BE(n, 2) else [127] + BE(n, 8)
  }

  /** A frame from the server: final, unmasked, with the shortest length. */
  function ServerFrame(opcode: nat, p: seq<byte>): seq<byte>
    requires opcode < 16
  {
    [128 + opcode] + LengthBytes(|p|) + p
  }

  // Frames as a peer may send them.

  /** A frame with any final and reserved bits, any of the three length encodings that can hold its
      length, masked or not. */
  datatype Frame = Frame(first: byte, ext: nat, masked: bool, mask: seq<byte>, payload: seq<byte>) {
    predicate Valid() {
      && |mask| == 4 && (!masked ==> mask == NoMask())
      && (ext == 0 || ext == 2 || ext == 8)
      && (if ext == 0 then |payload| < 126 else |payload| < Pow256(ext))
      && (Opcode() >= 8 ==> |payload| <= 125)
    }
    function Opcode(): nat { first % 16 }
  }

  function Second(f: Frame): byte
    requires f.Valid()
  {
    (if f.masked then 128 else 0) + if f.ext == 0 then |f.payload| else if f.ext == 2 then 126 else 127
  }

  function HeaderBytes(f: Frame): seq<byte>
    requires f.Valid()
  {
    [f.first, Second(f)] + (if f.ext == 0 then [] else BE(|f.payload|, f.ext)) + (if f.masked then f.mask else [])
  }

  function Encode(f: Frame): seq<byte>
    requires f.Valid()
  {
    HeaderBytes(f) + Unmask(f.payload, f.masked, f.mask, 0)
  }

  lemma SecondByte(f: Frame)
    requires f.Valid()
    ensures (Second(f) >= 128 <==> f.masked) && LengthSize(Second(f) % 128) == f.ext
    ensures f.ext == 0 ==> Second(f) % 128 == |f.payload|
  {
  }

  /** Where the parts of an encoded header stand. */
  lemma HeaderParts(f: Frame, s: seq<byte>)
    requires f.Valid()
    ensures var h, t := HeaderBytes(f), HeaderBytes(f) + s;
            && |h| == 2 + f.ext + (if f.masked then 4 else 0) && |t| >= |h|
            && t[0] == f.first && t[1] == Second(f)
            && (f.ext > 0 ==> t[2..2 + f.ext] == BE(|f.payload|, f.ext))
            && (f.masked ==> t[2 + f.ext..6 + f.ext] == f.mask)
  {
    hide Second, BE;
    var ext := if f.ext == 0 then [] else BE(|f.payload|, f.ext);
    var key := if f.masked then f.mask else [];
    assert HeaderBytes(f) == [f.first, Second(f)] + ext + key;
  }

  lemma ParseEncoded(f: Frame, s: seq<byte>)
    requires f.Valid()
    ensures ParseHeader(HeaderBytes(f) + s) == Header(f.Opcode(), f.masked, f.mask, |f.payload|, |HeaderBytes(f)|)
  {
    SecondByte(f);
    HeaderParts(f, s);
    if f.ext > 0 {
      FromBEOfBE(|f.payload|, f.ext);
    }
    hide HeaderBytes, Second, BE, FromBE;
  }

  /** The bytes of a frame's header, one by one (section 5.2 of RFC 6455): the final bit and the opcode in the
      first, the mask bit and the short length in the second, the longer lengths most significant byte
      first, and the key. */
  lemma HeaderLayout(f: Frame)
    requires f.Valid()
    ensures var b := HeaderBytes(f);
            && |b| == 2 + f.ext + (if f.masked then 4 else 0)
            && b[0] == f.first && b[1] / 128 == (if f.masked then 1 else 0)
            && b[1] % 128 == (if f.ext == 0 then |f.payload| else if f.ext == 2 then 126 else 127)
            && (f.ext == 2 ==> b[2] as int * 0x100 + b[3] as int == |f.payload|)
            && (f.ext == 8 ==>
                  |f.payload| == b[2] as int * 0x100_0000_0000_0000 + b[3] as int * 0x1_0000_0000_0000 + b[4] as int * 0x100_0000_0000
                                 + b[5] as int * 0x1_0000_0000 + b[6] as int * 0x100_0000 + b[7] as int * 0x1_0000 + b[8] as int * 0x100 + b[9] as int)
            && (f.masked ==> b[2 + f.ext..] == f.mask)
  {
    var b := HeaderBytes(f);
    SecondByte(f);
    HeaderParts(f, []);
    assert b + [] == b;
    if f.ext > 0 {
      FromBEOfBE(|f.payload|, f.ext);
      BigEndian(b[2..2 + f.ext]);
    }
    hide HeaderBytes, BE, FromBE, Pow256, LengthSize;
  }

  /** What follows the header: the payload, or its bits each added to the key's. */
  lemma PayloadLayout(f: Frame, j: nat, i: nat)
    requires f.Valid() && j < |f.payload| && i < 8
    ensures var b, size := Encode(f), |HeaderBytes(f)|;
            && b[..size] == HeaderBytes(f) && |b| == size + |f.payload|
            && (if f.masked then Bit(b[size + j], i) == (Bit(f.payload[j], i) + Bit(f.mask[j % 4], i)) % 2 else b[size + j] == f.payload[j])
  {
    hide HeaderBytes, Unmask, Bit;
    UnmaskBits(f.payload, f.mask, 0, j, i);
  }

  lemma GreetingBytes()
    ensures XorByte(0x53, 1) == 0x52 && XorByte(0x53, 2) == 0x51 && XorByte(0x48, 3) == 0x4B && XorByte(0x2D, 4) == 0x29
  {
    hide Xor;
    XorStep(0x53, 1);
    XorStep(0x53, 2);
    XorStep(0x29, 1);
    XorStep(0x48, 3);
    XorStep(0x24, 1);
    XorStep(0x2D, 4);
    XorStep(0x16, 2);
    XorStep(0x0B, 1);
    XorZero(0x29);
    XorZero(0x14);
    XorZero(0x12);
    XorZero(0x05);
  }

  /** A frame written out: the final binary frame of length 4, masked with the key 1 2 3 4, whose
      data is the greeting of an SSH client. */
  lemma MaskedGreeting()
    ensures DecodeFrames([0x82, 0x84, 1, 2, 3, 4, 0x52, 0x51, 0x4B, 0x29]) == Decoded([0x53, 0x53, 0x48, 0x2D], [], EOF)
  {
    hide DecodeFrames, XorByte;
    var f := Frame(0x82, 0, true, [1, 2, 3, 4], [0x53, 0x53, 0x48, 0x2D]);
    GreetingBytes();
    assert Unmask(f.payload, true, f.mask, 0) == [0x52, 0x51, 0x4B, 0x29];
    assert HeaderBytes(f) == [0x82, 0x84, 1, 2, 3, 4];
    hide HeaderBytes, Unmask;
    assert Encode(f) + [] == [0x82, 0x84, 1, 2, 3, 4, 0x52, 0x51, 0x4B, 0x29];
    DecodeEncoded(f, []);
    NothingDecoded();
    assert f.payload + [] == f.payload;
  }

  lemma NothingDecoded()
    ensures DecodeFrames([]) == Decoded([], [], EOF)
  {
  }

  /** A stream that stops inside a header yields nothing, and ends cleanly only where one of the header's parts
      ended: before it, after its first two bytes, or after the extended length. */
  lemma CutHeader(f: Frame, k: nat)
    requires f.Valid() && k < |HeaderBytes(f)|
    ensures DecodeFrames(HeaderBytes(f)[..k]) == Decoded([], [], if k == 0 || k == 2 || k == 2 + f.ext then EOF else Unexpected)
  {
    SecondByte(f);
    HeaderParts(f, []);
    assert HeaderBytes(f) + [] == HeaderBytes(f);
    hide BE, Second;
    var t := HeaderBytes(f)[..k];
    if k >= 2 {
      assert t[0] == f.first && t[1] == Second(f);
    }
    hide HeaderBytes, FromBE;
  }

  /** A stream that stops inside a data payload yields what is there, unmasked; inside a control payload,
      nothing. */
  lemma CutPayload(f: Frame, k: nat)
    requires f.Valid() && k < |f.payload|
    ensures var t := HeaderBytes(f) + Unmask(f.payload, f.masked, f.mask, 0)[..k];
            DecodeFrames(t) == if f.Opcode() < 8 then Decoded(f.payload[..k], [], EOF) else Decoded([], [], if k == 0 then EOF else Unexpected)
  {
    var h, m := HeaderBytes(f), Unmask(f.payload, f.masked, f.mask, 0);
    ParseEncoded(f, m[..k]);
    UnmaskTwice(f.payload, f.masked, f.mask, 0);
    UnmaskSplit(m, k, f.masked, f.mask, 0);
    hide HeaderBytes, Unmask, ParseHeader, ServerFrame;
    assert (h + m[..k])[|h|..] == m[..k];
    assert Unmask(m, f.masked, f.mask, 0)[..k] == Unmask(m[..k], f.masked, f.mask, 0);
  }

  /** A control frame that announces more than 125 bytes is refused, whatever follows. */
  lemma LongControl(s: seq<byte>)
    requires |s| >= 14 && s[0] % 16 >= 8
    requires || (s[1] % 128 == 126 && s[2] as int * 0x100 + s[3] as int > 125)
             || (s[1] % 128 == 127 && exists i | 2 <= i < 9 :: s[i] > 0)
    ensures DecodeFrames(s) == Decoded([], [], Oversized)
  {
    var ext := if s[1] % 128 == 126 then 2 else 8;
    BigEndian(s[2..2 + ext]);
    if s[1] % 128 == 127 {
      var i :| 2 <= i < 9 && s[i] > 0;
      assert i == 2 || i == 3 || i == 4 || i == 5 || i == 6 || i == 7 || i == 8;
      assert FromBE(s[2..10]) >= 256;
    }
    hide FromBE;
  }

  /** What one frame adds to what follows it. */
  function Prepend(f: Frame, d: Decoded): Decoded
    requires f.Valid()
  {
    if f.Opcode() < 8 then d.(data := f.payload + d.data)
    else if f.Opcode() == 8 then Decoded([], ServerFrame(8, f.payload), EOF)
    else if f.Opcode() == 9 then d.(replies := ServerFrame(10, f.payload) + d.replies)
    else d
  }

  /** A stream that begins with a data frame, and one that begins with a control frame. */
  lemma DataFirst(t: seq<byte>, h: Header, m: seq<byte>, s: seq<byte>)
    requires ParseHeader(t) == h && h.Header? && h.opcode < 8 && h.length == |m| && t[h.size..] == m + s
    ensures var d := DecodeFrames(s);
            DecodeFrames(t) == d.(data := Unmask(m, h.masked, h.mask, 0) + d.data)
  {
    hide ParseHeader, Unmask, ServerFrame;
    assert (m + s)[..|m|] == m && (m + s)[|m|..] == s;
  }

  lemma ControlFirst(t: seq<byte>, h: Header, m: seq<byte>, s: seq<byte>)
    requires ParseHeader(t) == h && h.Header? && h.opcode >= 8 && h.length == |m| <= 125 && t[h.size..] == m + s
    ensures var payload, d := Unmask(m, h.masked, h.mask, 0), DecodeFrames(s);
            DecodeFrames(t) == if h.opcode == 8 then Decoded([], ServerFrame(8, payload), EOF)
                               else if h.opcode == 9 then d.(replies := ServerFrame(10, payload) + d.replies) else d
  {
    hide ParseHeader, Unmask, ServerFrame, DecodePayload;
    assert (m + s)[..|m|] == m && (m + s)[|m|..] == s;
  }

  /** Decoding a well-formed frame yields exactly its payload, its reply, or the end. */
  lemma DecodeEncoded(f: Frame, s: seq<byte>)
    requires f.Valid()
    ensures DecodeFrames(Encode(f) + s) == Prepend(f, DecodeFrames(s))
  {
    var h, m := HeaderBytes(f), Unmask(f.payload, f.masked, f.mask, 0);
    var t := Encode(f) + s;
    assert t == h + (m + s);
    ParseEncoded(f, m + s);
    UnmaskTwice(f.payload, f.masked, f.mask, 0);
    hide HeaderBytes, Unmask, ParseHeader, ServerFrame, Encode, DecodeFrames;
    assert t[|h|..] == m + s;
    if f.Opcode() < 8 {
      DataFirst(t, ParseHeader(t), m, s);
    } else {
      ControlFirst(t, ParseHeader(t), m, s);
    }
  }

  function EncodeAll(fs: seq<Frame>): seq<byte>
    requires forall i | 0 <= i < |fs| :: fs[i].Valid()
  {
    if fs == [] then [] else Encode(fs[0]) + EncodeAll(fs[1..])
  }

  /** The data payloads of a list of frames up to the first close frame, and the replies they call
      for: a pong with the same payload for every ping, in order, and the echo of a close. */
  function Payloads(fs: seq<Frame>): seq<byte>
  {
    if fs == [] || fs[0].Opcode() == 8 then []
    else (if fs[0].Opcode() < 8 then fs[0].payload else []) + Payloads(fs[1..])
  }

  function Replies(fs: seq<Frame>): seq<byte>
  {
    if fs == [] then []
    else if fs[0].Opcode() == 8 then ServerFrame(8, fs[0].payload)
    else (if fs[0].Opcode() == 9 then ServerFrame(10, fs[0].payload) else []) + Replies(fs[1..])
  }

  predicate Closes(fs: seq<Frame>) { exists i | 0 <= i < |fs| :: fs[i].Opcode() == 8 }

  /** What a list of frames means in front of a stream that means d. */
  function Meaning(fs: seq<Frame>, d: Decoded): Decoded {
    if Closes(fs) then Decoded(Payloads(fs), Replies(fs), EOF)
    else Decoded(Payloads(fs) + d.data, Replies(fs) + d.replies, d.ending)
  }

  lemma ClosesFirstOrLater(fs: seq<Frame>)
    requires fs != []
    ensures Closes(fs) <==> fs[0].Opcode() == 8 || Closes(fs[1..])
  {
    hide Frame.Opcode;
    var more := fs[1..];
    assert forall i | 0 <= i < |more| :: more[i] == fs[i + 1];
    if Closes(more) {
      var i :| 0 <= i < |more| && more[i].Opcode() == 8;
      assert fs[i + 1].Opcode() == 8;
    }
  }

  lemma MeaningStep(fs: seq<Frame>, d: Decoded)
    requires fs != [] && fs[0].Valid()
    ensures Meaning(fs, d) == Prepend(fs[0], Meaning(fs[1..], d))
  {
    hide Closes, ServerFrame, Frame.Valid, Frame.Opcode;
    ClosesFirstOrLater(fs);
    var f, more := fs[0], fs[1..];
    var n := f.Opcode();
    if n < 8 {
      Associative(f.payload, Payloads(more), d.data);
      assert Payloads(fs) == f.payload + Payloads(more);
      assert Replies(fs) == [] + Replies(more) == Replies(more);
    } else if n == 9 {
      Associative(ServerFrame(10, f.payload), Replies(more), d.replies);
      assert Payloads(fs) == [] + Payloads(more) == Payloads(more);
    } else if n != 8 {
      assert Payloads(fs) == [] + Payloads(more) == Payloads(more);
      assert Replies(fs) == [] + Replies(more) == Replies(more);
    }
  }

  /** Any well-formed sequence of frames decodes to its data payloads up to the first close frame,
      whatever control frames stand in between and whatever follows. */
  lemma {:induction false} DecodeEncodedAll(fs: seq<Frame>, s: seq<byte>)
    requires forall i | 0 <= i < |fs| :: fs[i].Valid()
    ensures DecodeFrames(EncodeAll(fs) + s) == Meaning(fs, DecodeFrames(s))
  {
    hide DecodeFrames, Encode, Frame.Valid, Prepend;
    if fs == [] {
      assert EncodeAll(fs) + s == s;
    } else {
      hide Meaning;
      var f, more := fs[0], fs[1..];
      DecodeEncodedAll(more, s);
      DecodeEncoded(f, EncodeAll(more) + s);
      assert EncodeAll(fs) + s == Encode(f) + (EncodeAll(more) + s);
      MeaningStep(fs, DecodeFrames(s));
    }
  }

  /** The frame a server frame is: final, unmasked, minimally encoded. */
  function AsFrame(opcode: nat, p: seq<byte>): Frame
    requires opcode < 16
  {
    Frame(128 + opcode, if |p| < 126 then 0 else if |p| <= 65535 then 2 else 8, false, NoMask(), p)
  }

  lemma ServerFrameIsFrame(opcode: nat, p: seq<byte>)
    requires opcode < 16 && |p| < Pow256(8) && (opcode >= 8 ==> |p| <= 125)
    ensures AsFrame(opcode, p).Valid() && Encode(AsFrame(opcode, p)) == ServerFrame(opcode, p)
    ensures AsFrame(opcode, p).Opcode() == opcode
  {
    assert Pow256(2) == 65536;
    var f := AsFrame(opcode, p);
    assert HeaderBytes(f) == [128 + opcode] + LengthBytes(|p|);
  }

  function WriteAll(ps: seq<seq<byte>>): seq<byte>
  {
    if ps == [] then [] else ServerFrame(2, ps[0]) + WriteAll(ps[1..])
  }

  function Concat(ps: seq<seq<byte>>): seq<byte>
  {
    if ps == [] then [] else ps[0] + Concat(ps[1..])
  }

  /** Whatever is written, across all three length encodings, reads back as its concatenation. */
  lemma {:induction false} WrittenReadsBack(ps: seq<seq<byte>>)
    requires forall i | 0 <= i < |ps| :: |ps[i]| < Pow256(8)
    ensures DecodeFrames(WriteAll(ps)) == Decoded(Concat(ps), [], EOF)
  {
    if ps != [] {
      WrittenReadsBack(ps[1..]);
      ServerFrameIsFrame(2, ps[0]);
      hide DecodeFrames, Encode, ServerFrame;
      DecodeEncoded(AsFrame(2, ps[0]), WriteAll(ps[1..]));
    }
  }
}
