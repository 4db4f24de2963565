/** The text rewriting behind the sshd configuration: managed blocks and commented-out Port lines. */
module SshdText {
  import opened Search

  type Text = string

  // Lines.

  predicate Terminated(s: Text) { s == "" || s[|s| - 1] == '\n' }

  /** The length of the first line. */
  function FirstLine(s: Text): (n: nat)
    ensures n <= |s| && '\n' !in s[..n] && (n < |s| ==> s[n] == '\n')
  {
    if s == "" || s[0] == '\n' then 0
    else
      var n := FirstLine(s[1..]);
      assert s[..n + 1] == [s[0]] + s[1..][..n];
      n + 1
  }

  /** Applies f to each line, as a multi-line regular expression anchored at line ends does. */
  function MapLines(s: Text, f: Text -> Text): Text
  {
    var n := FirstLine(s);
    if n == |s| then f(s) else f(s[..n]) + "\n" + MapLines(s[n + 1..], f)
  }

  lemma {:induction false} FirstLineIs(l: Text, rest: Text)
    requires '\n' !in l
    ensures FirstLine(l + "\n" + rest) == |l| && FirstLine(l) == |l|
  {
    var t := l + "\n" + rest;
    if l != "" {
      FirstLineIs(l[1..], rest);
      assert t[1..] == l[1..] + "\n" + rest;
    }
  }

  lemma MapLinesCons(l: Text, rest: Text, f: Text -> Text)
    requires '\n' !in l
    ensures MapLines(l + "\n" + rest, f) == f(l) + "\n" + MapLines(rest, f)
    ensures MapLines(l, f) == f(l)
  {
    FirstLineIs(l, rest);
    var t := l + "\n" + rest;
    assert t[..|l|] == l && t[|l| + 1..] == rest;
  }

  /** Two rewritings in a row are one, when the first keeps lines apart. */
  lemma {:induction false} MapTwice(s: Text, f: Text -> Text, g: Text -> Text, h: Text -> Text)
    requires forall l: Text | '\n' !in l :: '\n' !in f(l) && g(f(l)) == h(l)
    ensures MapLines(MapLines(s, f), g) == MapLines(s, h)
    decreases |s|
  {
    var n := FirstLine(s);
    if n == |s| {
      assert s[..n] == s;
      MapLinesCons(f(s), "", g);
    } else {
      MapTwice(s[n + 1..], f, g, h);
      MapLinesCons(f(s[..n]), MapLines(s[n + 1..], f), g);
    }
  }

  /** A rewriting of lines that makes no line empty and none into two. */
  ghost predicate KeepsLines(f: Text -> Text)
  {
    f("") == "" && forall l: Text | '\n' !in l && l != "" :: f(l) != "" && '\n' !in f(l)
  }

  lemma KeepsLine(f: Text -> Text, l: Text)
    requires KeepsLines(f) && '\n' !in l
    ensures '\n' !in f(l) && (f(l) == "" <==> l == "")
  {
  }

  lemma {:induction false} MapTerminated(s: Text, f: Text -> Text)
    requires KeepsLines(f)
    ensures Terminated(MapLines(s, f)) == Terminated(s)
    decreases |s|
  {
    hide Terminated, KeepsLines;
    var n := FirstLine(s);
    if n == |s| {
      assert s[..n] == s;
      KeepsLine(f, s);
      LastOfLine(s);
      LastOfLine(f(s));
    } else {
      var l, rest := s[..n], s[n + 1..];
      assert s == l + "\n" + rest;
      MapTerminated(rest, f);
      LastOf(f(l), MapLines(rest, f));
      LastOf(l, rest);
    }
  }

  lemma LastOfLine(l: Text)
    requires '\n' !in l
    ensures Terminated(l) <==> l == ""
  {
  }

  lemma LastOf(l: Text, rest: Text)
    ensures Terminated(l + "\n" + rest) == Terminated(rest)
  {
    var s := l + "\n" + rest;
    assert s[|s| - 1] == if rest == "" then '\n' else rest[|rest| - 1];
  }

  /** A missing last newline stays the last thing that is missing. */
  lemma {:induction false} MapNewline(s: Text, f: Text -> Text)
    requires f("") == "" && !Terminated(s)
    ensures MapLines(s + "\n", f) == MapLines(s, f) + "\n"
    decreases |s|
  {
    var n := FirstLine(s);
    if n == |s| {
      assert s[..n] == s;
      MapLinesCons(s, "", f);
      assert s + "\n" + "" == s + "\n";
      assert FirstLine("") == 0 && MapLines("", f) == "";
    } else {
      var l, rest := s[..n], s[n + 1..];
      assert s == l + "\n" + rest;
      assert s + "\n" == l + "\n" + (rest + "\n");
      MapNewline(rest, f);
      MapLinesCons(l, rest + "\n", f);
    }
  }

  predicate EveryLine(s: Text, p: Text -> bool)
  {
    var n := FirstLine(s);
    if n == |s| then p(s) else p(s[..n]) && EveryLine(s[n + 1..], p)
  }

  /** A rewriting that shortens the lines it changes leaves a text alone exactly if it leaves every line alone. */
  lemma {:induction false} MapSame(s: Text, f: Text -> Text, p: Text -> bool)
    requires forall l: Text :: |f(l)| <= |l| && (p(l) <==> f(l) == l) && (p(l) <==> |f(l)| == |l|)
    ensures |MapLines(s, f)| <= |s|
    ensures MapLines(s, f) == s <==> EveryLine(s, p)
    ensures |MapLines(s, f)| == |s| <==> EveryLine(s, p)
    decreases |s|
  {
    var n := FirstLine(s);
    if n < |s| {
      var l, rest := s[..n], s[n + 1..];
      assert s == l + "\n" + rest;
      MapSame(rest, f, p);
    }
  }

  /** The same for a rewriting that lengthens the lines it changes. */
  lemma {:induction false} MapSameLonger(s: Text, f: Text -> Text, p: Text -> bool)
    requires forall l: Text :: |l| <= |f(l)| && (p(l) <==> f(l) == l) && (p(l) <==> |f(l)| == |l|)
    ensures |s| <= |MapLines(s, f)|
    ensures MapLines(s, f) == s <==> EveryLine(s, p)
    ensures |MapLines(s, f)| == |s| <==> EveryLine(s, p)
    decreases |s|
  {
    var n := FirstLine(s);
    if n < |s| {
      var l, rest := s[..n], s[n + 1..];
      assert s == l + "\n" + rest;
      MapSameLonger(rest, f, p);
    }
  }

  // Port lines.

  const PORT_COMMENT := "#sshvpn# "

  predicate IsBlank(c: char) { c == ' ' || c == '\t' }
  predicate IsDigit(c: char) { '0' <= c <= '9' }

  function DropBlanks(l: Text): (r: Text)
    ensures r != "" ==> !IsBlank(r[0])
  {
    if l != "" && IsBlank(l[0]) then DropBlanks(l[1..]) else l
  }

  function DropDigits(l: Text): Text { if l != "" && IsDigit(l[0]) then DropDigits(l[1..]) else l }

  /** Blanks, the word Port, blanks, a number, blanks. */
  predicate IsPortLine(l: Text)
  {
    var a := DropBlanks(l);
    && HasPrefix(a, "Port")
    && var b := DropBlanks(a[4..]);
       && |b| < |a[4..]| && b != "" && IsDigit(b[0])
       && DropBlanks(DropDigits(b)) == ""
  }

  predicate AllBlank(s: Text) { forall i | 0 <= i < |s| :: s[i] == ' ' || s[i] == '\t' }

  predicate AllDigits(s: Text) { forall i | 0 <= i < |s| :: '0' <= s[i] <= '9' }

  lemma {:induction false} BlanksDropped(l: Text) returns (blanks: Text)
    ensures l == blanks + DropBlanks(l) && AllBlank(blanks)
  {
    if l != "" && IsBlank(l[0]) {
      assert DropBlanks(l) == DropBlanks(l[1..]);
      hide DropBlanks;
      var more := BlanksDropped(l[1..]);
      blanks := [l[0]] + more;
      assert l == [l[0]] + l[1..];
      Regroup([l[0]], more, DropBlanks(l));
    } else {
      blanks := "";
      assert l == "" + l;
    }
  }

  lemma {:induction false} DigitsDropped(l: Text) returns (digits: Text)
    ensures l == digits + DropDigits(l) && AllDigits(digits) && (l != "" && IsDigit(l[0]) ==> digits != "")
  {
    if l != "" && IsDigit(l[0]) {
      assert DropDigits(l) == DropDigits(l[1..]);
      hide DropDigits;
      var more := DigitsDropped(l[1..]);
      digits := [l[0]] + more;
      assert l == [l[0]] + l[1..];
      Regroup([l[0]], more, DropDigits(l));
    } else {
      digits := "";
      assert l == "" + l;
    }
  }

  lemma {:induction false} DropsBlanks(blanks: Text, l: Text)
    requires AllBlank(blanks) && (l != "" ==> !IsBlank(l[0]))
    ensures DropBlanks(blanks + l) == l
  {
    if blanks == "" {
      assert blanks + l == l;
    } else {
      assert (blanks + l)[1..] == blanks[1..] + l;
      DropsBlanks(blanks[1..], l);
    }
  }

  lemma {:induction false} DropsDigits(digits: Text, l: Text)
    requires AllDigits(digits) && (l != "" ==> !IsDigit(l[0]))
    ensures DropDigits(digits + l) == l
  {
    if digits == "" {
      assert digits + l == l;
    } else {
      assert (digits + l)[1..] == digits[1..] + l;
      DropsDigits(digits[1..], l);
    }
  }

  /** The pieces of a Port line: any blanks, the word, at least one blank, at least one digit, any blanks. */
  ghost predicate PortPieces(l: Text, indent: Text, gap: Text, number: Text, tail: Text)
  {
    && l == indent + ("Port" + (gap + (number + tail)))
    && AllBlank(indent) && AllBlank(gap) && gap != "" && AllDigits(number) && number != "" && AllBlank(tail)
  }

  lemma PortLineHas(l: Text) returns (indent: Text, gap: Text, number: Text, tail: Text)
    requires IsPortLine(l)
    ensures PortPieces(l, indent, gap, number, tail)
  {
    hide AllBlank, AllDigits, DropBlanks, DropDigits;
    indent := BlanksDropped(l);
    var a := DropBlanks(l);
    assert a == "Port" + a[4..];
    gap := BlanksDropped(a[4..]);
    var b := DropBlanks(a[4..]);
    number := DigitsDropped(b);
    tail := BlanksDropped(DropDigits(b));
    assert tail + "" == tail;
  }

  lemma PiecesArePort(l: Text, indent: Text, gap: Text, number: Text, tail: Text)
    requires PortPieces(l, indent, gap, number, tail)
    ensures IsPortLine(l)
  {
    var c := number + tail;
    var b := gap + c;
    var a := "Port" + b;
    assert a[0] == 'P' && a[..4] == "Port" && a[4..] == b && c[0] == number[0];
    assert tail + "" == tail;
    DropsBlanks(indent, a);
    DropsBlanks(gap, c);
    DropsDigits(number, tail);
    DropsBlanks(tail, "");
    hide DropBlanks, DropDigits;
  }

  /** Which lines count: exactly those made of such pieces. */
  lemma PortLineIff(l: Text)
    ensures IsPortLine(l) <==> exists indent, gap, number, tail :: PortPieces(l, indent, gap, number, tail)
  {
    hide PortPieces, IsPortLine;
    if IsPortLine(l) {
      var indent, gap, number, tail := PortLineHas(l);
    } else {
      forall indent, gap, number, tail | PortPieces(l, indent, gap, number, tail) ensures false {
        PiecesArePort(l, indent, gap, number, tail);
      }
    }
  }

  function Commented(l: Text): Text { if IsPortLine(l) then PORT_COMMENT + l else l }

  function Uncommented(l: Text): Text { if HasPrefix(l, PORT_COMMENT) then l[|PORT_COMMENT|..] else l }

  function CommentPorts(s: Text): Text { MapLines(s, Commented) }

  function UncommentPorts(s: Text): Text { MapLines(s, Uncommented) }

  predicate NotCommented(l: Text) { !HasPrefix(l, PORT_COMMENT) }

  predicate NoCommentLines(s: Text) { EveryLine(s, NotCommented) }

  predicate NotPort(l: Text) { !IsPortLine(l) }

  predicate NoPortLines(s: Text) { EveryLine(s, NotPort) }

  /** Commenting changes nothing exactly when there is no Port line. */
  lemma CommentSame(s: Text)
    ensures CommentPorts(s) == s <==> NoPortLines(s)
  {
    hide IsPortLine;
    MapSameLonger(s, Commented, NotPort);
  }

  lemma DropBlanksChars(l: Text, c: char)
    requires !IsBlank(c)
    ensures c in l <==> c in DropBlanks(l)
  {
    if l != "" && IsBlank(l[0]) {
      assert l == [l[0]] + l[1..];
    }
  }

  lemma DropDigitsChars(l: Text, c: char)
    requires !IsDigit(c)
    ensures c in l <==> c in DropDigits(l)
  {
    if l != "" && IsDigit(l[0]) {
      assert l == [l[0]] + l[1..];
    }
  }

  /** What a Port line is made of. */
  lemma PortLineChars(l: Text, c: char)
    requires IsPortLine(l) && c in l
    ensures IsBlank(c) || IsDigit(c) || c in "Port"
  {
    var a := DropBlanks(l);
    var b := DropBlanks(a[4..]);
    if !IsBlank(c) && !IsDigit(c) {
      DropBlanksChars(l, c);
      assert a == "Port" + a[4..];
      DropBlanksChars(a[4..], c);
      DropDigitsChars(b, c);
      DropBlanksChars(DropDigits(b), c);
    }
  }

  lemma CommentHash(l: Text)
    ensures HasPrefix(l, PORT_COMMENT) ==> '#' in l
  {
    if HasPrefix(l, PORT_COMMENT) {
      assert l[..|PORT_COMMENT|][0] == '#';
    }
  }

  lemma CommentedFacts(l: Text)
    ensures '\n' !in l ==> '\n' !in Commented(l)
    ensures Commented(Commented(l)) == Commented(l) && Uncommented(Commented(l)) == Uncommented(l)
    ensures l != "" ==> Commented(l) != ""
    ensures '>' !in l ==> '>' !in Commented(l)
    ensures IsPortLine(l) ==> '>' !in l
  {
    if IsPortLine(l) {
      var c := PORT_COMMENT + l;
      assert c[0] == '#';
      assert DropBlanks(c) == c && !HasPrefix(c, "Port") by { assert c[..4][0] == '#'; }
      CommentHash(l);
      if '#' in l {
        PortLineChars(l, '#');
      }
      if '>' in l {
        PortLineChars(l, '>');
      }
      assert c[|PORT_COMMENT|..] == l;
    }
  }

  lemma EmptyLine()
    ensures Commented("") == "" && Uncommented("") == ""
  {
  }

  lemma CommentTwice(s: Text)
    ensures CommentPorts(CommentPorts(s)) == CommentPorts(s)
    ensures UncommentPorts(CommentPorts(s)) == UncommentPorts(s)
  {
    hide Commented, Uncommented;
    forall l ensures ('\n' !in l ==> '\n' !in Commented(l)) && Commented(Commented(l)) == Commented(l) && Uncommented(Commented(l)) == Uncommented(l) {
      CommentedFacts(l);
    }
    MapTwice(s, Commented, Commented, Commented);
    MapTwice(s, Commented, Uncommented, Uncommented);
  }

  /** After commenting no line is an active Port line. */
  lemma NoneActive(s: Text)
    ensures NoPortLines(CommentPorts(s))
  {
    hide CommentPorts, NoPortLines;
    CommentTwice(s);
    CommentSame(CommentPorts(s));
  }

  /** Removing comments changes nothing exactly when no line carries one; then it undoes commenting. */
  lemma UncommentSame(s: Text)
    ensures UncommentPorts(s) == s <==> NoCommentLines(s)
    ensures |UncommentPorts(s)| <= |s|
  {
    MapSame(s, Uncommented, NotCommented);
  }

  // Managed blocks.

  function MarkBegin(name: Text): Text { "# >>> SSH-VPN managed (" + name + ") \U{2014} do not edit >>>" }
  function MarkEnd(name: Text): Text { "# <<< SSH-VPN managed (" + name + ") <<<" }

  const BEGIN_GLOBAL := MarkBegin("global")
  const END_GLOBAL := MarkEnd("global")
  const BEGIN_MATCH := MarkBegin("match")
  const END_MATCH := MarkEnd("match")

  /** Markers stand within one line, and an end marker holds a character that a begin marker does not. */
  predicate Markers(begin: Text, end: Text)
  {
    && '\n' !in begin && '\n' !in end && '>' in begin && '<' !in begin && '<' in end
  }

  lemma NotInPieces(a: Text, b: Text, d: Text, c: char)
    requires c !in a && c !in b && c !in d
    ensures c !in a + b + d
  {
  }

  lemma BeginPieces(c: char)
    requires c == '\n' || c == '<'
    ensures c !in "# >>> SSH-VPN managed (" && c !in ") \U{2014} do not edit >>>"
  {
  }

  lemma EndPieces(c: char)
    requires c == '\n' || c == '>'
    ensures c !in "# <<< SSH-VPN managed (" && c !in ") <<<"
  {
  }

  lemma BeginMark(name: Text)
    requires '\n' !in name && '<' !in name
    ensures '\n' !in MarkBegin(name) && '<' !in MarkBegin(name) && '>' in MarkBegin(name)
  {
    BeginPieces('\n');
    BeginPieces('<');
    NotInPieces("# >>> SSH-VPN managed (", name, ") \U{2014} do not edit >>>", '\n');
    NotInPieces("# >>> SSH-VPN managed (", name, ") \U{2014} do not edit >>>", '<');
    assert MarkBegin(name)[2] == '>';
  }

  lemma EndMark(name: Text)
    requires '\n' !in name && '>' !in name
    ensures '\n' !in MarkEnd(name) && '>' !in MarkEnd(name) && '<' in MarkEnd(name)
  {
    EndPieces('\n');
    EndPieces('>');
    NotInPieces("# <<< SSH-VPN managed (", name, ") <<<", '\n');
    NotInPieces("# <<< SSH-VPN managed (", name, ") <<<", '>');
    assert MarkEnd(name)[2] == '<';
  }

  lemma MarkersOf(name: Text)
    requires '\n' !in name && '<' !in name && '>' !in name
    ensures Markers(MarkBegin(name), MarkEnd(name)) && '>' !in MarkEnd(name)
  {
    BeginMark(name);
    EndMark(name);
    hide MarkBegin, MarkEnd;
  }

  lemma MarkersAre()
    ensures Markers(BEGIN_GLOBAL, END_GLOBAL) && Markers(BEGIN_MATCH, END_MATCH)
    ensures '>' !in END_GLOBAL && '>' !in END_MATCH && |BEGIN_MATCH| < |BEGIN_GLOBAL|
  {
    MarkersOf("global");
    MarkersOf("match");
  }

  /** Where a cut that ends at k really ends: a newline goes with it. */
  function PastNewline(s: Text, k: nat): (r: nat)
    requires k <= |s|
    ensures k <= r <= |s|
  {
    if k < |s| && s[k] == '\n' then k + 1 else k
  }

  /** Cuts one kind of block, from each begin marker to the first end marker after it, until none is complete. */
  function StripName(s: Text, begin: Text, end: Text): (r: Text)
    requires begin != "" && end != ""
    ensures |r| <= |s| && (r != s ==> |r| < |s|)
    decreases |s|
  {
    var i := Index(s, begin);
    if i < 0 then s
    else
      var j := Index(s[i..], end);
      if j < 0 then s
      else StripName(s[..i] + s[PastNewline(s, i + j + |end|)..], begin, end)
  }

  /** What is left of one kind has no complete block. */
  lemma {:induction false} StripLeavesNone(s: Text, begin: Text, end: Text)
    requires begin != "" && end != ""
    ensures var r := StripName(s, begin, end); Index(r, begin) < 0 || Index(r[Index(r, begin)..], end) < 0
    decreases |s|
  {
    hide Index;
    var i := Index(s, begin);
    if i >= 0 {
      var j := Index(s[i..], end);
      if j >= 0 {
        StripLeavesNone(s[..i] + s[PastNewline(s, i + j + |end|)..], begin, end);
      }
    }
  }

  function Strip(s: Text): Text
  {
    StripName(StripName(s, BEGIN_GLOBAL, END_GLOBAL), BEGIN_MATCH, END_MATCH)
  }

  /** stripBlocks, as the program loops; it ends on every input. */
  method StripBlocks(b: Text) returns (s: Text)
    ensures s == Strip(b)
  {
    s := b;
    var names := [(BEGIN_GLOBAL, END_GLOBAL), (BEGIN_MATCH, END_MATCH)];
    hide Index, Strip, StripName;
    for n := 0 to 2
      invariant n == 0 ==> s == b
      invariant n == 1 ==> s == StripName(b, BEGIN_GLOBAL, END_GLOBAL)
      invariant n == 2 ==> s == StripName(StripName(b, BEGIN_GLOBAL, END_GLOBAL), BEGIN_MATCH, END_MATCH)
    {
      var (begin, end) := names[n];
      ghost var before := s;
      while true
        invariant StripName(s, begin, end) == StripName(before, begin, end)
        decreases |s|
      {
        StripNameStep(s, begin, end);
        var i := Index(s, begin);
        if i < 0 {
          break;
        }
        var j := Index(s[i..], end);
        if j < 0 {
          break;
        }
        var k := i + j + |end|;
        ghost var past := PastNewline(s, k);
        if k < |s| && s[k] == '\n' {
          k := k + 1;
        }
        assert k == past;
        s := s[..i] + s[k..];
      }
    }
    assert s == Strip(b) by { StripIs(b); }
  }

  lemma StripIs(s: Text)
    ensures Strip(s) == StripName(StripName(s, BEGIN_GLOBAL, END_GLOBAL), BEGIN_MATCH, END_MATCH)
  {
  }

  /** No begin marker anywhere. */
  predicate Unmanaged(s: Text) { Index(s, BEGIN_GLOBAL) < 0 && Index(s, BEGIN_MATCH) < 0 }

  // Searching in texts made of whole lines.

  /** A pattern within one line does not reach across the end of a line. */
  lemma AtLines(a: Text, b: Text, p: Text, i: nat)
    requires Terminated(a) && p != "" && '\n' !in p
    ensures At(a + b, p, i) <==> At(a, p, i) || (i >= |a| && At(b, p, i - |a|))
  {
    var t := a + b;
    if i >= |a| {
      if i + |p| <= |t| {
        assert t[i..i + |p|] == b[i - |a|..i - |a| + |p|];
      }
    } else if i + |p| <= |a| {
      assert t[i..i + |p|] == a[i..i + |p|];
    } else {
      AtChar(t, p, i, |a| - 1 - i);
    }
  }

  lemma AtChar(s: Text, p: Text, i: nat, k: nat)
    requires k < |p|
    ensures At(s, p, i) ==> i + k < |s| && s[i + k] == p[k]
  {
    if At(s, p, i) {
      assert s[i..i + |p|][k] == s[i + k];
    }
  }

  /** Where a text of whole lines has no match, the search goes on in what follows. */
  lemma IndexLines(a: Text, b: Text, p: Text)
    requires Terminated(a) && p != "" && '\n' !in p
    ensures Index(a + b, p) < 0 <==> Index(a, p) < 0 && Index(b, p) < 0
    ensures Index(a, p) < 0 && Index(b, p) >= 0 ==> Index(a + b, p) == |a| + Index(b, p)
  {
    hide Index;
    forall i: nat ensures At(a + b, p, i) <==> At(a, p, i) || (i >= |a| && At(b, p, i - |a|)) {
      AtLines(a, b, p, i);
    }
    var x, y := Index(a, p), Index(b, p);
    if x >= 0 {
      assert At(a + b, p, x);
    } else if y >= 0 {
      assert At(b, p, |a| + y - |a|);
      assert At(a + b, p, |a| + y);
      IndexIs(a + b, p, |a| + y);
    }
  }

  lemma Foreign(s: Text, p: Text, c: char)
    requires c in p && c !in s
    ensures Index(s, p) < 0
  {
    hide Index;
    var k :| 0 <= k < |p| && p[k] == c;
    forall i: nat ensures !At(s, p, i) {
      AtChar(s, p, i, k);
    }
  }

  lemma AtFront(s: Text, p: Text)
    requires |p| <= |s| && s[..|p|] == p
    ensures Index(s, p) == 0
  {
    assert s[0..0 + |p|] == s[..|p|];
    assert At(s, p, 0);
    IndexIs(s, p, 0);
  }

  lemma Regroup(a: Text, b: Text, d: Text)
    ensures a + (b + d) == (a + b) + d
  {
  }

  /** The rewriting of Port lines does not touch, make or hide a marker. */
  lemma {:induction false} CommentKeepsMarkers(s: Text, p: Text)
    requires p != "" && '\n' !in p && '>' in p
    ensures Index(CommentPorts(s), p) < 0 <==> Index(s, p) < 0
    decreases |s|
  {
    hide Index, Commented, IsPortLine;
    var n := FirstLine(s);
    if n == |s| {
      assert s[..n] == s;
      LineKeepsMarkers(s, p);
    } else {
      var l, rest := s[..n], s[n + 1..];
      assert s == (l + "\n") + rest;
      CommentKeepsMarkers(rest, p);
      LineKeepsMarkers(l, p);
      IndexLines(l + "\n", rest, p);
      IndexLines(Commented(l) + "\n", CommentPorts(rest), p);
      OneMoreNewline(l, p);
      OneMoreNewline(Commented(l), p);
    }
  }

  lemma LineKeepsMarkers(l: Text, p: Text)
    requires '>' in p
    ensures Index(Commented(l), p) < 0 <==> Index(l, p) < 0
  {
    hide Index;
    CommentedFacts(l);
    if IsPortLine(l) {
      Foreign(l, p, '>');
      Foreign(Commented(l), p, '>');
    }
  }

  lemma OneMoreNewline(l: Text, p: Text)
    requires p != "" && '\n' !in p
    ensures Index(l + "\n", p) < 0 <==> Index(l, p) < 0
  {
    hide Index;
    var t := l + "\n";
    forall i: nat ensures At(t, p, i) <==> At(l, p, i) {
      if i + |p| <= |l| {
        assert t[i..i + |p|] == l[i..i + |p|];
      } else {
        AtChar(t, p, i, |p| - 1);
      }
    }
    var x, y := Index(t, p), Index(l, p);
    assert x >= 0 ==> At(l, p, x);
    assert y >= 0 ==> At(t, p, y);
  }

  // Writing blocks.

  function Block(begin: Text, body: Text, end: Text): Text { begin + "\n" + body + end + "\n" }

  function Ended(s: Text): Text { if Terminated(s) then s else s + "\n" }

  /** withInlineBlocks: the global settings first, the Match block last. */
  function WithBlocks(s: Text, global: Text, match_: Text): Text
  {
    Block(BEGIN_GLOBAL, global, END_GLOBAL) + (Ended(s) + Block(BEGIN_MATCH, match_, END_MATCH))
  }

  /** A block and what follows it, cut before its end marker. */
  lemma BlockSplits(body: Text, post: Text, begin: Text, end: Text)
    ensures var s, head := Block(begin, body, end) + post, begin + "\n" + body;
            && s == head + (end + ("\n" + post))
            && |begin| <= |s| && s[..|begin|] == begin
  {
    var head := begin + "\n" + body;
    Regroup(head + end, "\n", post);
    Regroup(head, end, "\n" + post);
    Regroup(begin, "\n", body);
    assert (begin + ("\n" + body) + (end + ("\n" + post)))[..|begin|] == begin;
  }

  lemma FindBegin(pre: Text, body: Text, post: Text, begin: Text, end: Text)
    requires Markers(begin, end) && Terminated(pre) && Index(pre, begin) < 0
    ensures Index(pre + (Block(begin, body, end) + post), begin) == |pre|
  {
    BlockSplits(body, post, begin, end);
    assert begin != "";
    hide Index, Block;
    var tail := Block(begin, body, end) + post;
    AtFront(tail, begin);
    IndexLines(pre, tail, begin);
  }

  lemma FindEnd(body: Text, post: Text, begin: Text, end: Text)
    requires Markers(begin, end) && Terminated(body) && Index(body, end) < 0
    ensures Index(Block(begin, body, end) + post, end) == |begin| + 1 + |body|
  {
    BlockSplits(body, post, begin, end);
    HeadEnds(begin, body);
    assert '<' !in begin + "\n" && end != "";
    hide Index, Block, Terminated;
    var head, rest := begin + "\n" + body, end + ("\n" + post);
    Foreign(begin + "\n", end, '<');
    IndexLines(begin + "\n", body, end);
    AtFront(rest, end);
    IndexLines(head, rest, end);
  }

  lemma HeadEnds(begin: Text, body: Text)
    requires Terminated(body)
    ensures Terminated(begin + "\n") && Terminated(begin + "\n" + body)
  {
    LastOf(begin, body);
    LastOf(begin, "");
    assert begin + "\n" + "" == begin + "\n";
  }

  /** Where the first complete block of a text stands. */
  lemma CutFacts(pre: Text, body: Text, post: Text, begin: Text, end: Text) returns (s: Text, j: nat)
    requires Markers(begin, end) && Terminated(pre) && Terminated(body)
    requires Index(pre, begin) < 0 && Index(body, end) < 0
    ensures s == pre + (Block(begin, body, end) + post)
    ensures begin != "" && end != "" && |pre| <= |s| && |pre| + j + |end| <= |s|
    ensures Index(s, begin) == |pre| && Index(s[|pre|..], end) == j
    ensures pre == s[..|pre|] && post == s[PastNewline(s, |pre| + j + |end|)..]
  {
    hide *;
    var tail;
    tail, j := TailFacts(body, post, begin, end);
    s := WholeFacts(pre, body, tail, post, begin, end);
  }

  lemma TailFacts(body: Text, post: Text, begin: Text, end: Text) returns (tail: Text, j: nat)
    requires Markers(begin, end) && Terminated(body) && Index(body, end) < 0
    ensures tail == Block(begin, body, end) + post && begin != "" && end != ""
    ensures Index(tail, end) == j == |begin| + 1 + |body|
  {
    FindEnd(body, post, begin, end);
    hide Index, Block, Terminated;
    tail, j := Block(begin, body, end) + post, |begin| + 1 + |body|;
  }

  lemma WholeFacts(pre: Text, body: Text, tail: Text, post: Text, begin: Text, end: Text) returns (s: Text)
    requires Markers(begin, end) && Terminated(pre) && Index(pre, begin) < 0 && tail == Block(begin, body, end) + post
    ensures s == pre + tail && |pre| + (|begin| + 1 + |body|) + |end| <= |s|
    ensures Index(s, begin) == |pre| && s[|pre|..] == tail && pre == s[..|pre|]
    ensures post == s[PastNewline(s, |pre| + (|begin| + 1 + |body|) + |end|)..]
  {
    FindBegin(pre, body, post, begin, end);
    CutAt(pre, body, post, begin, end);
    hide Index, Block, PastNewline, Terminated, Markers;
    s := pre + tail;
  }

  /** Cutting takes out exactly one written block. */
  lemma CutBlock(pre: Text, body: Text, post: Text, begin: Text, end: Text)
    requires Markers(begin, end) && Terminated(pre) && Terminated(body)
    requires Index(pre, begin) < 0 && Index(body, end) < 0
    ensures StripName(pre + (Block(begin, body, end) + post), begin, end) == StripName(pre + post, begin, end)
  {
    hide *;
    var s, j := CutFacts(pre, body, post, begin, end);
    StripOnce(s, begin, end, |pre|, j, pre, post);
  }

  /** One round of the loop, given what the searches find. */
  lemma StripOnce(s: Text, begin: Text, end: Text, i: nat, j: nat, before: Text, after: Text)
    requires begin != "" && end != "" && i <= |s| && i + j + |end| <= |s|
    requires Index(s, begin) == i && Index(s[i..], end) == j
    requires before == s[..i] && after == s[PastNewline(s, i + j + |end|)..]
    ensures StripName(s, begin, end) == StripName(before + after, begin, end)
  {
    hide Index;
  }

  lemma CutAt(pre: Text, body: Text, post: Text, begin: Text, end: Text)
    ensures var s := pre + (Block(begin, body, end) + post);
            && s[|pre|..] == Block(begin, body, end) + post && s[..|pre|] == pre
            && |pre| + (|begin| + 1 + |body|) + |end| <= |s|
            && s[PastNewline(s, |pre| + (|begin| + 1 + |body|) + |end|)..] == post
  {
    var s, k := pre + (Block(begin, body, end) + post), |pre| + (|begin| + 1 + |body|) + |end|;
    NewlineAt(pre, begin + "\n" + body + end, post);
    assert Block(begin, body, end) == begin + "\n" + body + end + "\n";
    hide Block;
    assert s[k] == '\n' && s[k + 1..] == post;
  }

  lemma NewlineAt(pre: Text, block: Text, post: Text)
    ensures var s := pre + (block + "\n" + post);
            s[|pre| + |block|] == '\n' && s[|pre| + |block| + 1..] == post
  {
  }

  lemma StripNameStep(s: Text, begin: Text, end: Text)
    requires begin != "" && end != ""
    ensures var i := Index(s, begin);
            i >= 0 && Index(s[i..], end) >= 0 ==>
              StripName(s, begin, end) == StripName(s[..i] + s[PastNewline(s, i + Index(s[i..], end) + |end|)..], begin, end)
    ensures var i := Index(s, begin);
            i < 0 || Index(s[i..], end) < 0 ==> StripName(s, begin, end) == s
  {
    hide Index;
  }

  /** Settings that can be written into blocks: whole lines without the marker that ends their block,
      and no begin marker of the other block in the Match lines. */
  predicate Writable(global: Text, match_: Text)
  {
    && Terminated(global) && Terminated(match_)
    && Index(global, END_GLOBAL) < 0 && Index(match_, END_MATCH) < 0 && Index(match_, BEGIN_GLOBAL) < 0
  }

  /** Stripping undoes writing. */
  lemma StripWritten(s: Text, global: Text, match_: Text)
    requires Unmanaged(s) && Writable(global, match_)
    ensures Strip(WithBlocks(s, global, match_)) == Ended(s)
    ensures Unmanaged(Ended(s))
  {
    hide Index, StripName;
    MarkersAre();
    var body := Ended(s);
    OneMoreNewline(s, BEGIN_GLOBAL);
    OneMoreNewline(s, BEGIN_MATCH);
    var m := Block(BEGIN_MATCH, match_, END_MATCH);
    CutBlock("", global, body + m, BEGIN_GLOBAL, END_GLOBAL);
    assert "" + (Block(BEGIN_GLOBAL, global, END_GLOBAL) + (body + m)) == WithBlocks(s, global, match_);
    assert "" + (body + m) == body + m;
    Shorter("", BEGIN_GLOBAL);
    MatchBlockHasNoGlobal(match_);
    IndexLines(body, m, BEGIN_GLOBAL);
    StripNameStep(body + m, BEGIN_GLOBAL, END_GLOBAL);
    CutBlock(body, match_, "", BEGIN_MATCH, END_MATCH);
    assert body + (m + "") == body + m && body + "" == body;
    StripNameStep(body, BEGIN_MATCH, END_MATCH);
  }

  lemma MatchBlockHasNoGlobal(match_: Text)
    requires Terminated(match_) && Index(match_, BEGIN_GLOBAL) < 0
    ensures Index(Block(BEGIN_MATCH, match_, END_MATCH), BEGIN_GLOBAL) < 0
  {
    MarkersAre();
    hide Index, MarkBegin, MarkEnd;
    ThreeParts(BEGIN_MATCH, match_, END_MATCH, BEGIN_GLOBAL);
  }

  /** A block without a pattern: its begin marker is too short for it, its lines lack it, its end marker lacks a character of it. */
  lemma ThreeParts(begin: Text, body: Text, end: Text, p: Text)
    requires Terminated(body) && p != "" && '\n' !in p && |begin| < |p| && Index(body, p) < 0 && '>' in p && '>' !in end
    ensures Index(Block(begin, body, end), p) < 0
  {
    hide Index;
    var first, last := begin + "\n", end + "\n";
    Shorter(begin, p);
    OneMoreNewline(begin, p);
    Foreign(last, p, '>');
    IndexLines(body, last, p);
    IndexLines(first, body + last, p);
    assert Block(begin, body, end) == first + (body + last);
  }

  lemma Shorter(s: Text, p: Text)
    requires |s| < |p|
    ensures Index(s, p) < 0
  {
    hide Index;
  }

  lemma StripUnmanaged(s: Text)
    requires Unmanaged(s)
    ensures Strip(s) == s
  {
    hide Index;
    StripNameStep(s, BEGIN_GLOBAL, END_GLOBAL);
    StripNameStep(s, BEGIN_MATCH, END_MATCH);
  }
}
