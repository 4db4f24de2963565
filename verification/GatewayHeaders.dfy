/** Where an HTTP header block ends: by peeking at a socket, and line by line through a reader. */
module GatewayHeaders {
  import opened Bytes
  import opened Search
  import opened GatewayStreams

  const CR: byte := 13
  const LF: byte := 10
  const CRLFCRLF: seq<byte> := [13, 10, 13, 10]
  const LFLF: seq<byte> := [10, 10]
  const MAX_HEADER := 16384

  /** The first end of a block terminated by CRLF CRLF, and by LF LF, or -1. */
  function CrEnd(s: seq<byte>): int { if Index(s, CRLFCRLF) >= 0 then Index(s, CRLFCRLF) + 4 else -1 }
  function LfEnd(s: seq<byte>): int { if Index(s, LFLF) >= 0 then Index(s, LFLF) + 2 else -1 }

  function HeaderEnd(b: seq<byte>): int { if CrEnd(b) >= 0 then CrEnd(b) else LfEnd(b) }

  lemma AtLFLF(s: seq<byte>, i: nat)
    ensures At(s, LFLF, i) <==> i + 2 <= |s| && s[i] == LF && s[i + 1] == LF
  {
    if i + 2 <= |s| {
      var w := s[i..i + 2];
      assert w[0] == s[i] && w[1] == s[i + 1];
      assert w == [w[0], w[1]];
    }
  }

  lemma AtCRLFCRLF(s: seq<byte>, i: nat)
    ensures At(s, CRLFCRLF, i) <==> i + 4 <= |s| && s[i] == CR && s[i + 1] == LF && s[i + 2] == CR && s[i + 3] == LF
  {
    if i + 4 <= |s| {
      var w := s[i..i + 4];
      assert w[0] == s[i] && w[1] == s[i + 1] && w[2] == s[i + 2] && w[3] == s[i + 3];
      assert w == [w[0], w[1], w[2], w[3]];
    }
  }

  /** The four bytes CR LF CR LF end at e, and the two bytes LF LF. */
  predicate CrEndsAt(s: seq<byte>, e: int)
  {
    4 <= e <= |s| && s[e - 4] == 13 && s[e - 3] == 10 && s[e - 2] == 13 && s[e - 1] == 10
  }

  predicate LfEndsAt(s: seq<byte>, e: int) { 2 <= e <= |s| && s[e - 2] == 10 && s[e - 1] == 10 }

  /** Each search finds the first such place, or none. */
  lemma EndsInBytes(s: seq<byte>)
    ensures if CrEnd(s) < 0 then forall e :: !CrEndsAt(s, e) else CrEndsAt(s, CrEnd(s)) && forall e | e < CrEnd(s) :: !CrEndsAt(s, e)
    ensures if LfEnd(s) < 0 then forall e :: !LfEndsAt(s, e) else LfEndsAt(s, LfEnd(s)) && forall e | e < LfEnd(s) :: !LfEndsAt(s, e)
  {
    forall e | 4 <= e <= |s| ensures CrEndsAt(s, e) <==> At(s, CRLFCRLF, e - 4) {
      AtCRLFCRLF(s, e - 4);
    }
    forall e | 2 <= e <= |s| ensures LfEndsAt(s, e) <==> At(s, LFLF, e - 2) {
      AtLFLF(s, e - 2);
    }
    hide At;
  }

  /** What a look at the first n bytes finds. */
  lemma HeaderEndInPrefix(s: seq<byte>, n: nat)
    requires n <= |s|
    ensures HeaderEnd(s[..n])
         == if 0 <= CrEnd(s) <= n then CrEnd(s) else if 0 <= LfEnd(s) <= n then LfEnd(s) else -1
  {
    IndexInPrefix(s, CRLFCRLF, n);
    IndexInPrefix(s, LFLF, n);
  }

  function Window(s: seq<byte>): nat { if |s| < MAX_HEADER then |s| else MAX_HEADER }

  /** A look that shows n bytes finds the block complete and consumes e bytes. */
  predicate Consumes(s: seq<byte>, n: nat, e: nat)
  {
    n <= Window(s) && HeaderEnd(s[..n]) == e && e > 0
  }

  /** A bare blank line ends before the first CRLF CRLF does, within the window. */
  predicate Ambiguous(s: seq<byte>) { 0 < LfEnd(s) < CrEnd(s) <= MAX_HEADER }

  /** Every look that finds an end finds the same one. */
  ghost predicate SegmentationIndependent(s: seq<byte>)
  {
    forall n, m, e, f: nat | Consumes(s, n, e) && Consumes(s, m, f) :: e == f
  }

  lemma CrEndBounds(s: seq<byte>)
    ensures CrEnd(s) <= |s| && LfEnd(s) <= |s| && CrEnd(s) != 0 && LfEnd(s) != 0
    ensures CrEnd(s) > 0 ==> LfEnd(s) != CrEnd(s)
  {
    if CrEnd(s) > 0 {
      var i: nat := Index(s, CRLFCRLF);
      AtCRLFCRLF(s, i);
      AtLFLF(s, i + 2);
    }
  }

  /** How much of the stream is taken as the header depends on the network's timing exactly for ambiguous streams. */
  lemma IndependentIffUnambiguous(s: seq<byte>)
    ensures SegmentationIndependent(s) <==> !Ambiguous(s)
  {
    CrEndBounds(s);
    if Ambiguous(s) {
      HeaderEndInPrefix(s, LfEnd(s));
      HeaderEndInPrefix(s, CrEnd(s));
      assert Consumes(s, LfEnd(s), LfEnd(s)) && Consumes(s, CrEnd(s), CrEnd(s));
    } else {
      forall n, m, e, f: nat | Consumes(s, n, e) && Consumes(s, m, f) ensures e == f {
        HeaderEndInPrefix(s, n);
        HeaderEndInPrefix(s, m);
      }
    }
  }

  /** Such a stream: a bare blank line, then more header lines. */
  lemma AmbiguousExample()
    ensures Ambiguous([65, 10, 10, 66, 13, 10, 13, 10])
  {
    var s: seq<byte> := [65, 10, 10, 66, 13, 10, 13, 10];
    forall i: nat | i < 2 ensures At(s, LFLF, i) <==> i == 1 {
      AtLFLF(s, i);
    }
    IndexIs(s, LFLF, 1);
    forall i: nat | i < 5 ensures At(s, CRLFCRLF, i) <==> i == 4 {
      AtCRLFCRLF(s, i);
    }
    IndexIs(s, CRLFCRLF, 4);
  }

  /** Every newline is CR LF, and none is CR CR LF. */
  predicate CleanNewlines(b: seq<byte>)
  {
    forall i | 0 <= i < |b| && b[i] == LF :: i > 0 && b[i - 1] == CR && (i > 1 ==> b[i - 2] != CR)
  }

  lemma CleanIsUnambiguous(s: seq<byte>)
    requires CrEnd(s) > 0 && CleanNewlines(s[..CrEnd(s)])
    ensures !Ambiguous(s)
  {
    if LfEnd(s) > 0 {
      var i: nat := Index(s, LFLF);
      AtLFLF(s, i);
      AtInPrefix(s, LFLF, CrEnd(s), i);
      AtLFLF(s[..CrEnd(s)], i);
    }
  }

  /** No end within the largest header. */
  predicate Endless(s: seq<byte>) { |s| >= MAX_HEADER && HeaderEnd(s[..MAX_HEADER]) < 0 }

  /** readHeaderExact: peek until a block is complete, then consume exactly that block. */
  method ReadHeaderExact(c: RawSocket, patience: nat) returns (st: Status, block: seq<byte>)
    modifies c, c.net
    ensures Later(c.net)
    ensures st == Done ==> MayConsume(old(c.rest), |block|) && block == old(c.rest)[..|block|] && c.rest == old(c.rest)[|block|..]
    ensures st == Done ==> Untroubled(c.net)
    ensures st == Ended ==> old(c.rest) == []
    ensures st == TimedOut ==> c.net.silences > old(c.net.silences)
    ensures st == Broken ==> c.net.faults > old(c.net.faults)
    ensures st == Full ==> Endless(old(c.rest)) && Untroubled(c.net)
  {
    c.SetDeadline(patience);
    while true
      invariant c.rest == old(c.rest) && Untroubled(c.net)
      decreases c.patience
    {
      var s, n := c.Peek(MAX_HEADER);
      if s != Done {
        return s, [];
      }
      var end := HeaderEnd(c.rest[..n]);
      if end > 0 {
        CrEndBounds(c.rest[..n]);
        assert Consumes(c.rest, n, end);
        var ok;
        ok, block := c.ReadFull(end);
        if !ok {
          return Broken, [];
        }
        return Done, block;
      }
      if n == MAX_HEADER {
        CrEndBounds(c.rest[..n]);
        return Full, [];
      }
      var late := c.Late();
      if late {
        return TimedOut, [];
      }
    }
  }

  ghost predicate MayConsume(s: seq<byte>, e: nat)
  {
    e <= |s| && exists n: nat :: Consumes(s, n, e)
  }

  /** What may be consumed is one of the two ends; for a clean block it is the block, whatever follows. */
  lemma ExactConsumesBlock(s: seq<byte>, e: nat)
    requires MayConsume(s, e)
    ensures e == CrEnd(s) || e == LfEnd(s)
    ensures CrEnd(s) > 0 && CrEnd(s) <= 16384 && CleanNewlines(s[..CrEnd(s)]) ==> e == CrEnd(s)
    ensures e <= 16384
  {
    var n: nat :| Consumes(s, n, e);
    HeaderEndInPrefix(s, n);
    CrEndBounds(s);
    if CrEnd(s) > 0 && CrEnd(s) <= MAX_HEADER && CleanNewlines(s[..CrEnd(s)]) {
      CleanIsUnambiguous(s);
    }
  }

  /** A block without an end in the window is never consumed. */
  lemma EndlessStays(s: seq<byte>, e: nat)
    requires Endless(s)
    ensures !MayConsume(s, e)
  {
    CrEndBounds(s);
    HeaderEndInPrefix(s, MAX_HEADER);
    forall n: nat ensures !Consumes(s, n, e) {
      if n <= |s| {
        HeaderEndInPrefix(s, n);
      }
    }
  }

  // Line by line.

  datatype Scan = Block(end: nat) | TooLarge | Unfinished

  predicate Blank(line: seq<byte>) { forall i | 0 <= i < |line| :: line[i] == CR || line[i] == LF }

  /** The scan from the line that starts at pos: the block ends with the first blank line after the first
      line. It is too large past the limit, or when a line outgrows the reader's buffer. */
  function ScanLines(s: seq<byte>, pos: nat): (r: Scan)
    requires pos <= |s|
    ensures r.Block? ==> pos < r.end <= |s| && r.end <= MAX_HEADER
    decreases |s| - pos
  {
    var i := IndexFrom(s, [LF], pos);
    if i < 0 then (if |s| - pos < BUFFER then Unfinished else TooLarge)
    else if i + 1 > MAX_HEADER then TooLarge
    else if Blank(s[pos..i + 1]) && pos > 0 then Block(i + 1)
    else ScanLines(s, i + 1)
  }

  /** A blank line ends at e: it begins after a newline and holds nothing but carriage returns. */
  ghost predicate BlankLineEnds(s: seq<byte>, e: nat)
  {
    exists p: nat :: BlankFrom(s, p, e)
  }

  predicate BlankFrom(s: seq<byte>, p: nat, e: nat)
  {
    && 0 < p < e <= |s| && s[p - 1] == 10 && s[e - 1] == 10 && forall i | p <= i < e - 1 :: s[i] == 13
  }

  lemma AtLF(s: seq<byte>, i: nat)
    ensures At(s, [LF], i) <==> i < |s| && s[i] == 10
  {
    if i < |s| {
      assert s[i..i + 1] == [s[i]];
    }
  }

  /** A line that ends at e, and the blank lines that end after its beginning. */
  lemma LineEnds(s: seq<byte>, pos: nat, e: nat)
    requires pos < e <= |s| && (pos > 0 ==> s[pos - 1] == 10) && s[e - 1] == 10 && forall i | pos <= i < e - 1 :: s[i] != 10
    ensures forall d | pos < d < e :: !BlankLineEnds(s, d)
    ensures BlankLineEnds(s, e) <==> pos > 0 && Blank(s[pos..e])
  {
    var line := s[pos..e];
    assert forall i | 0 <= i < |line| :: line[i] == s[pos + i];
    if pos > 0 && Blank(line) {
      forall i | pos <= i < e - 1 ensures s[i] == 13 {
        assert line[i - pos] == s[i];
      }
      assert BlankFrom(s, pos, e);
    }
    if BlankLineEnds(s, e) {
      var p: nat :| BlankFrom(s, p, e);
      assert p == pos;
    }
  }

  lemma NoMoreLines(s: seq<byte>, pos: nat)
    requires pos <= |s| && forall i | pos <= i < |s| :: s[i] != 10
    ensures forall d | pos < d :: !BlankLineEnds(s, d)
  {
  }

  /** The next newline, and what the scan makes of the line that it ends. */
  lemma NextNewline(s: seq<byte>, pos: nat) returns (i: int)
    requires pos <= |s|
    ensures i < 0 ==> ScanLines(s, pos) == (if |s| - pos < BUFFER then Unfinished else TooLarge) && forall j | pos <= j < |s| :: s[j] != 10
    ensures i >= 0 ==> pos <= i < |s| && s[i] == 10 && forall j | pos <= j < i :: s[j] != 10
    ensures i >= 0 ==> ScanLines(s, pos) == if i + 1 > 16384 then TooLarge else if Blank(s[pos..i + 1]) && pos > 0 then Block(i + 1) else ScanLines(s, i + 1)
  {
    hide Blank, At;
    i := IndexFrom(s, [LF], pos);
    forall j: nat | pos <= j < |s| ensures At(s, [LF], j) <==> s[j] == 10 {
      AtLF(s, j);
    }
    if i >= 0 {
      AtLF(s, i);
    }
    forall j | pos <= j < |s| && (i < 0 || j < i) ensures s[j] != 10 {
      assert !At(s, [LF], j);
    }
  }

  /** The line scan in bytes: from the start of a line on, the block ends exactly at the end of the first blank
      line but the stream's first line, if that is within 16384 bytes. */
  lemma {:induction false} ScanMeans(s: seq<byte>, pos: nat, e: nat)
    requires pos <= |s| && (pos > 0 ==> s[pos - 1] == 10)
    ensures ScanLines(s, pos) == Block(e) <==> pos < e <= 16384 && BlankLineEnds(s, e) && forall d | pos < d < e :: !BlankLineEnds(s, d)
    decreases |s| - pos
  {
    hide BlankLineEnds, Blank, ScanLines, IndexFrom, At;
    var i := NextNewline(s, pos);
    if i < 0 {
      NoMoreLines(s, pos);
    } else {
      LineEnds(s, pos, i + 1);
      if i + 1 <= 16384 && !(Blank(s[pos..i + 1]) && pos > 0) {
        ScanMeans(s, i + 1, e);
      }
    }
  }

  /** One round of readHeaderBuffered: the next line, and what it means for the scan. */
  method ReadHeaderLine(br: BufReader, ghost s: seq<byte>, raw: seq<byte>) returns (st: Status, line: seq<byte>)
    requires s == raw + br.rest
    modifies br, br.net
    ensures Later(br.net) && s == raw + line + br.rest
    ensures st == Done || st == Ended || st == Full ==> Untroubled(br.net)
    ensures st == Done ==> line != [] && ScanLines(s, |raw|) == if |raw + line| > MAX_HEADER then TooLarge
                           else if Blank(line) && |raw| > 0 then Block(|raw + line|) else ScanLines(s, |raw + line|)
    ensures st == Ended ==> ScanLines(s, |raw|) == Unfinished
    ensures st == Full ==> ScanLines(s, |raw|) == TooLarge
    ensures st == TimedOut ==> br.net.silences > old(br.net.silences)
    ensures st == Broken ==> br.net.faults > old(br.net.faults)
  {
    hide ScanLines, Index, IndexFrom, Blank;
    ghost var before := br.rest;
    assert before == s[|raw|..];
    ScanRead(s, |raw|, before);
    st, line := br.ReadLine();
    Associative(raw, line, br.rest);
    if st == Done {
      assert s[|raw|..|raw + line|] == line;
    }
  }

  /** readHeaderBuffered. */
  method ReadHeaderBuffered(br: BufReader) returns (st: Status, raw: seq<byte>)
    modifies br, br.net
    ensures Later(br.net)
    ensures st == Done ==> ScanLines(old(br.rest), 0) == Block(|raw|) && raw == old(br.rest)[..|raw|] && br.rest == old(br.rest)[|raw|..]
    ensures st == Done || st == Ended || st == Full ==> Untroubled(br.net)
    ensures st == Ended ==> ScanLines(old(br.rest), 0) == Unfinished
    ensures st == Full ==> ScanLines(old(br.rest), 0) == TooLarge
    ensures st == TimedOut ==> br.net.silences > old(br.net.silences)
    ensures st == Broken ==> br.net.faults > old(br.net.faults)
  {
    hide ScanLines, Index, IndexFrom, Blank;
    ghost var s := br.rest;
    raw := [];
    while true
      invariant s == raw + br.rest && Untroubled(br.net)
      invariant ScanLines(s, |raw|) == ScanLines(s, 0)
      decreases |br.rest|
    {
      var r, line := ReadHeaderLine(br, s, raw);
      raw := raw + line;
      if r != Done {
        return r, raw;
      }
      if |raw| > MAX_HEADER {
        return Full, raw;
      }
      if Blank(line) && |raw| > |line| {
        return Done, raw;
      }
    }
  }

  /** One line of the scan, found from its start. */
  lemma ScanRead(s: seq<byte>, pos: nat, from: seq<byte>)
    requires pos <= |s| && from == s[pos..]
    ensures var i := IndexFrom(from, [LF], 0);
            ScanLines(s, pos) == if i < 0 then (if |from| < BUFFER then Unfinished else TooLarge)
                                 else if pos + i + 1 > MAX_HEADER || pos + i + 1 > |s| then TooLarge
                                 else if Blank(s[pos..pos + i + 1]) && pos > 0 then Block(pos + i + 1)
                                 else ScanLines(s, pos + i + 1)
  {
    hide Blank;
    LineEnd(s, pos);
    var i := IndexFrom(from, [LF], 0);
    if i >= 0 {
      LineFits(from, i);
    }
  }

  lemma LineEnd(s: seq<byte>, pos: nat)
    requires pos <= |s|
    ensures IndexFrom(s, [LF], pos) == if IndexFrom(s[pos..], [LF], 0) < 0 then -1 else pos + IndexFrom(s[pos..], [LF], 0)
  {
    var t := s[pos..];
    forall i: nat ensures At(t, [LF], i) <==> At(s, [LF], pos + i) {
      AtByte(t, LF, i);
      AtByte(s, LF, pos + i);
    }
    hide At;
    var a, b := IndexFrom(s, [LF], pos), IndexFrom(t, [LF], 0);
    if a >= 0 {
      assert At(t, [LF], a - pos);
    }
    if b >= 0 {
      assert At(s, [LF], pos + b);
    }
  }

  lemma AtByte(s: seq<byte>, x: byte, i: nat)
    ensures At(s, [x], i) <==> i < |s| && s[i] == x
  {
    if i < |s| {
      assert s[i..i + 1] == [s[i]];
    }
  }

  /** The scan's next line, when there is a newline at k or before. */
  lemma NextLine(s: seq<byte>, pos: nat, k: nat) returns (i: nat)
    requires pos <= k < |s| && s[k] == LF && k < MAX_HEADER
    ensures pos <= i <= k && s[i] == LF && forall j | pos <= j < i :: s[j] != LF
    ensures ScanLines(s, pos) == if Blank(s[pos..i + 1]) && pos > 0 then Block(i + 1) else ScanLines(s, i + 1)
  {
    hide Blank;
    AtByte(s, LF, k);
    i := IndexFrom(s, [LF], pos);
    AtByte(s, LF, i);
    forall j | pos <= j < i ensures s[j] != LF {
      AtByte(s, LF, j);
    }
  }

  /** What is known of a block's last four bytes. */
  lemma BlockTail(s: seq<byte>)
    requires CrEnd(s) > 0
    ensures var c := CrEnd(s) - 4;
            0 <= c && c + 4 <= |s| && s[c] == CR && s[c + 1] == LF && s[c + 2] == CR && s[c + 3] == LF
  {
    AtCRLFCRLF(s, CrEnd(s) - 4);
  }

  /** For a clean block the scan stops where the peeking reader does. */
  lemma {:induction false} CleanScan(s: seq<byte>, pos: nat)
    requires 0 < CrEnd(s) <= MAX_HEADER && CleanNewlines(s[..CrEnd(s)])
    requires pos <= CrEnd(s) - 2 && (pos > 0 ==> s[pos - 1] == LF)
    ensures ScanLines(s, pos) == Block(CrEnd(s))
    decreases |s| - pos
  {
    hide CrEnd, CleanNewlines, ScanLines;
    BlockTail(s);
    var c := CrEnd(s) - 4;
    if pos == c + 2 {
      var i := NextLine(s, pos, c + 3);
      assert Blank(s[pos..i + 1]);
    } else {
      var i := NextLine(s, pos, c + 1);
      hide Blank;
      if pos > 0 {
        NotBlank(s, pos, i);
      }
      CleanScan(s, i + 1);
    }
  }

  /** No line but the last of a clean block is blank: it would be a CR LF right after another. */
  lemma NotBlank(s: seq<byte>, pos: nat, i: nat)
    requires 0 < CrEnd(s) && CleanNewlines(s[..CrEnd(s)])
    requires 0 < pos <= i <= CrEnd(s) - 3 && s[pos - 1] == LF && s[i] == LF
    requires forall j | pos <= j < i :: s[j] != LF
    ensures !Blank(s[pos..i + 1])
  {
    var b, line := s[..CrEnd(s)], s[pos..i + 1];
    assert b[i] == s[i] && b[pos - 1] == s[pos - 1];
    assert b[i - 1] == CR && s[i - 1] == CR;
    assert b[pos - 2] == CR && s[pos - 2] == CR;
    assert i > pos;
    if i == pos + 1 {
      AtCRLFCRLF(s, pos - 2);
    } else {
      assert b[i - 2] != CR;
      assert line[i - 2 - pos] == s[i - 2];
    }
  }
}
