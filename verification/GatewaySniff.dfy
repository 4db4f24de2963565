/** Recognising the protocol of a connection from its first bytes, and finding the end of HTTP headers. */
module GatewaySniff {
  import opened Bytes
  import opened Search

  datatype Kind = Unknown | SSH | HTTP | TLS | WSFrame

  const SSH_PREFIX: seq<byte> := [0x53, 0x53, 0x48, 0x2D]

  const METHODS: seq<string> := [
    "GET", "POST", "PUT", "HEAD", "DELETE", "OPTIONS", "PATCH", "CONNECT", "TRACE",
    "PROPFIND", "PROPPATCH", "MKCOL", "COPY", "MOVE", "LOCK", "UNLOCK", "ACL",
    "PURGE", "SEARCH", "REPORT", "BMOVE", "DEBUG"
  ]

  function Ascii(s: string): (b: seq<byte>)
    ensures |b| == |s|
    ensures forall i | 0 <= i < |s| && s[i] < 128 as char :: b[i] == s[i] as int
  {
    seq(|s|, i requires 0 <= i < |s| => if s[i] < 128 as char then s[i] as int else 0)
  }

  /** A method name with the space that must follow it. */
  function Token(i: nat): seq<byte>
    requires i < |METHODS|
  {
    Ascii(METHODS[i]) + [0x20]
  }

  predicate StartsWithMethod(b: seq<byte>) { exists i | 0 <= i < |METHODS| :: HasPrefix(b, Token(i)) }

  predicate StartsAMethod(b: seq<byte>) { exists i | 0 <= i < |METHODS| :: |b| < |Token(i)| && HasPrefix(Token(i), b) }

  /** No reserved bits, a data or control opcode that exists. */
  predicate IsFrameOpcode(x: byte) { (x / 16) % 8 == 0 && x % 16 in {0x0, 0x1, 0x2, 0x8, 0x9, 0xA} }

  predicate IsWSFrameStart(b: seq<byte>) { |b| >= 2 && IsFrameOpcode(b[0]) && b[1] >= 0x80 }

  /** The decision on the first bytes of a stream, and whether more of them are needed. */
  function Classify(b: seq<byte>): (r: (Kind, bool))
  {
    if b == [] then (Unknown, true)
    else if b[0] == 0x16 then (TLS, false)
    else if |b| < |SSH_PREFIX| && HasPrefix(SSH_PREFIX, b) then (Unknown, true)
    else if HasPrefix(b, SSH_PREFIX) then (SSH, false)
    else if StartsWithMethod(b) then (HTTP, false)
    else if StartsAMethod(b) then (Unknown, true)
    else if IsWSFrameStart(b) then (WSFrame, false)
    else if |b| == 1 && IsFrameOpcode(b[0]) then (Unknown, true)
    else (Unknown, false)
  }

  method ClassifyBytes(b: seq<byte>) returns (k: Kind, more: bool)
    ensures (k, more) == Classify(b)
  {
    hide HasPrefix, Token, IsFrameOpcode, IsWSFrameStart;
    if |b| == 0 { return Unknown, true; }
    if b[0] == 0x16 { return TLS, false; }
    if |b| < |SSH_PREFIX| && HasPrefix(SSH_PREFIX, b) { return Unknown, true; }
    if HasPrefix(b, SSH_PREFIX) { return SSH, false; }
    var prefixOfMethod := false;
    for m := 0 to |METHODS|
      invariant forall i | 0 <= i < m :: !HasPrefix(b, Token(i))
      invariant prefixOfMethod <==> exists i | 0 <= i < m :: |b| < |Token(i)| && HasPrefix(Token(i), b)
    {
      var tok := Token(m);
      if HasPrefix(b, tok) { return HTTP, false; }
      if |b| < |tok| && HasPrefix(tok, b) { prefixOfMethod := true; }
    }
    if prefixOfMethod { return Unknown, true; }
    if IsWSFrameStart(b) { return WSFrame, false; }
    if |b| == 1 && IsFrameOpcode(b[0]) { return Unknown, true; }
    return Unknown, false;
  }

  // The tokens.

  /** Tokens are short, begin with a capital letter and hold only capitals and the final space. */
  lemma TokenShape(i: nat)
    requires i < |METHODS|
    ensures 4 <= |Token(i)| <= 10
    ensures forall j | 0 <= j < |Token(i)| :: Token(i)[j] == 0x20 || 0x41 <= Token(i)[j] <= 0x5A
    ensures 0x41 <= Token(i)[0] <= 0x5A
  {
    assert forall k | 0 <= k < |METHODS| :: 3 <= |METHODS[k]| <= 9 && forall j | 0 <= j < |METHODS[k]| :: 'A' <= METHODS[k][j] <= 'Z';
    var m := METHODS[i];
    forall j | 0 <= j < |Token(i)| ensures Token(i)[j] == 0x20 || 0x41 <= Token(i)[j] <= 0x5A {
      if j < |m| {
        assert 'A' <= m[j] <= 'Z';
      }
    }
    assert 'A' <= m[0] <= 'Z';
  }

  // A decision once made is final, and it is put off exactly as long as it is open.

  lemma PrefixOfLonger(b: seq<byte>, e: seq<byte>, p: seq<byte>)
    ensures HasPrefix(b + e, p) ==> HasPrefix(b, p) || (|b| < |p| && HasPrefix(p, b))
    ensures HasPrefix(b, p) ==> HasPrefix(b + e, p)
    ensures HasPrefix(p, b + e) ==> HasPrefix(p, b)
  {
    assert (b + e)[..|b|] == b;
    if |p| <= |b| {
      assert (b + e)[..|p|] == b[..|p|];
    } else if HasPrefix(b + e, p) {
      assert p[..|b|] == (b + e)[..|p|][..|b|] == b;
    }
    if HasPrefix(p, b + e) {
      assert p[..|b|] == p[..|b + e|][..|b|] == b;
    }
  }

  lemma MethodsOfLonger(b: seq<byte>, e: seq<byte>)
    ensures StartsWithMethod(b + e) ==> StartsWithMethod(b) || StartsAMethod(b)
    ensures StartsWithMethod(b) ==> StartsWithMethod(b + e)
    ensures StartsAMethod(b + e) ==> StartsAMethod(b)
  {
    hide Token, HasPrefix;
    forall i | 0 <= i < |METHODS|
      ensures HasPrefix(b + e, Token(i)) ==> HasPrefix(b, Token(i)) || (|b| < |Token(i)| && HasPrefix(Token(i), b))
      ensures HasPrefix(b, Token(i)) ==> HasPrefix(b + e, Token(i))
      ensures HasPrefix(Token(i), b + e) ==> HasPrefix(Token(i), b)
    {
      PrefixOfLonger(b, e, Token(i));
    }
  }

  lemma DecidedStays(b: seq<byte>, e: seq<byte>)
    requires !Classify(b).1
    ensures Classify(b + e) == Classify(b)
  {
    MethodsOfLonger(b, e);
    PrefixOfLonger(b, e, SSH_PREFIX);
    assert (b + e)[0] == b[0];
    assert |b| > 1 ==> (b + e)[1] == b[1];
    hide StartsWithMethod, StartsAMethod, HasPrefix;
  }

  /** Ten bytes always decide, so the sixteen-byte window never cuts a decision short. */
  lemma TenDecide(b: seq<byte>)
    requires |b| >= 10
    ensures !Classify(b).1
  {
    forall i | 0 <= i < |METHODS| ensures |Token(i)| <= 10 {
      TokenShape(i);
    }
  }

  lemma PrefixBytes(b: seq<byte>, p: seq<byte>)
    ensures HasPrefix(b, p) <==> |p| <= |b| && forall j | 0 <= j < |p| :: b[j] == p[j]
  {
  }

  /** A zero byte cannot continue a word without zeros. */
  lemma ZeroEnds(b: seq<byte>, p: seq<byte>)
    requires 0 !in p && !HasPrefix(b, p)
    ensures !HasPrefix(b + [0], p) && !HasPrefix(p, b + [0])
  {
    var c := b + [0];
    assert c[|b|] == 0;
    PrefixBytes(c, p);
    PrefixBytes(p, c);
    PrefixBytes(b, p);
    hide HasPrefix;
  }

  lemma ZeroDecides(b: seq<byte>)
    requires b != [] && 0x41 <= b[0] <= 0x5A && !HasPrefix(b, SSH_PREFIX) && !StartsWithMethod(b)
    ensures Classify(b + [0]) == (Unknown, false)
  {
    var c := b + [0];
    assert c[0] == b[0];
    assert !IsFrameOpcode(c[0]);
    ZeroEnds(b, SSH_PREFIX);
    forall i | 0 <= i < |METHODS| ensures !HasPrefix(c, Token(i)) && !HasPrefix(Token(i), c) {
      TokenShape(i);
      ZeroEnds(b, Token(i));
    }
    hide HasPrefix, Token, IsFrameOpcode;
  }

  lemma TokenIsHTTP(i: nat)
    requires i < |METHODS|
    ensures Classify(Token(i)) == (HTTP, false)
  {
    TokenShape(i);
    var t := Token(i);
    assert SSH_PREFIX[3] == 0x2D && t[3] != 0x2D;
    PrefixBytes(t, SSH_PREFIX);
    assert HasPrefix(t, t);
    hide Token, HasPrefix;
  }

  /** While classify asks for more, two continuations lead to different decisions. */
  lemma UndecidedIsOpen(b: seq<byte>) returns (x: seq<byte>, y: seq<byte>)
    requires Classify(b).1
    ensures !Classify(b + x).1 && !Classify(b + y).1 && Classify(b + x).0 != Classify(b + y).0
  {
    if b == [] {
      x, y := [0x16], [0x03];
      assert b + x == x && b + y == y;
      EmptyStart();
    } else if |b| < |SSH_PREFIX| && HasPrefix(SSH_PREFIX, b) {
      x, y := SSHStart(b);
    } else if StartsAMethod(b) {
      x, y := MethodStart(b);
    } else {
      x, y := [0x80], [0];
      FrameStart(b);
    }
  }

  lemma SSHStart(b: seq<byte>) returns (x: seq<byte>, y: seq<byte>)
    requires b != [] && |b| < |SSH_PREFIX| && HasPrefix(SSH_PREFIX, b)
    ensures Classify(b + x) == (SSH, false) && Classify(b + y) == (Unknown, false)
  {
    x, y := SSH_PREFIX[|b|..], [0];
    assert b + x == SSH_PREFIX;
    PrefixBytes(SSH_PREFIX, b);
    forall i | 0 <= i < |METHODS| ensures !HasPrefix(b, Token(i)) {
      TokenShape(i);
    }
    ZeroDecides(b);
  }

  lemma MethodStart(b: seq<byte>) returns (x: seq<byte>, y: seq<byte>)
    requires b != [] && StartsAMethod(b) && !StartsWithMethod(b) && !HasPrefix(b, SSH_PREFIX)
    ensures Classify(b + x) == (HTTP, false) && Classify(b + y) == (Unknown, false)
  {
    var i :| 0 <= i < |METHODS| && |b| < |Token(i)| && HasPrefix(Token(i), b);
    TokenShape(i);
    PrefixBytes(Token(i), b);
    x, y := Token(i)[|b|..], [0];
    assert b + x == Token(i);
    TokenIsHTTP(i);
    ZeroDecides(b);
  }

  lemma EmptyStart()
    ensures Classify([0x16]) == (TLS, false) && Classify([0x03]) == (Unknown, false)
  {
    NoMethod([0x03]);
  }

  /** Only a capital letter starts a method. */
  lemma NoMethod(b: seq<byte>)
    requires b != [] && !(0x41 <= b[0] <= 0x5A)
    ensures !StartsWithMethod(b) && !StartsAMethod(b)
  {
    forall i | 0 <= i < |METHODS| ensures !HasPrefix(b, Token(i)) && !HasPrefix(Token(i), b) {
      TokenShape(i);
      PrefixBytes(b, Token(i));
      PrefixBytes(Token(i), b);
    }
  }

  lemma FrameStart(b: seq<byte>)
    requires |b| == 1 && IsFrameOpcode(b[0])
    ensures Classify(b + [0x80]) == (WSFrame, false) && Classify(b + [0]) == (Unknown, false)
  {
    NoMethod(b + [0x80]);
    NoMethod(b + [0]);
    assert !HasPrefix(b + [0x80], SSH_PREFIX) && !HasPrefix(b + [0], SSH_PREFIX);
  }

  ghost predicate Open(b: seq<byte>)
  {
    exists x, y :: !Classify(b + x).1 && !Classify(b + y).1 && Classify(b + x).0 != Classify(b + y).0
  }

  /** classify asks for more exactly when the answer still depends on what follows. */
  lemma AsksIffOpen(b: seq<byte>)
    ensures Classify(b).1 <==> Open(b)
  {
    if Classify(b).1 {
      var x, y := UndecidedIsOpen(b);
    } else {
      forall e ensures Classify(b + e) == Classify(b) {
        DecidedStays(b, e);
      }
    }
  }

  /** What a stream is, whoever looks at it and however its bytes arrive: the decision on its first ten bytes. */
  function Verdict(s: seq<byte>): Kind { Classify(s[..if |s| < 10 then |s| else 10]).0 }

  predicate Decided(s: seq<byte>) { !Classify(s[..if |s| < 10 then |s| else 10]).1 }

  /** Any prefix that decides decides the same. */
  lemma PrefixVerdict(s: seq<byte>, n: nat)
    requires n <= |s| && !Classify(s[..n]).1
    ensures Classify(s[..n]).0 == Verdict(s) && Decided(s)
  {
    var m := if |s| < 10 then |s| else 10;
    if n <= m {
      assert s[..m] == s[..n] + s[n..m];
      DecidedStays(s[..n], s[n..m]);
    } else {
      assert s[..n] == s[..m] + s[m..n];
      TenDecide(s[..m]);
      DecidedStays(s[..m], s[m..n]);
    }
  }

  // The same decision, byte by byte.

  /** The request methods with the space after them, in bytes. */
  const METHOD_BYTES: seq<seq<byte>> := [
    [0x47, 0x45, 0x54, 0x20],
    [0x50, 0x4F, 0x53, 0x54, 0x20],
    [0x50, 0x55, 0x54, 0x20],
    [0x48, 0x45, 0x41, 0x44, 0x20],
    [0x44, 0x45, 0x4C, 0x45, 0x54, 0x45, 0x20],
    [0x4F, 0x50, 0x54, 0x49, 0x4F, 0x4E, 0x53, 0x20],
    [0x50, 0x41, 0x54, 0x43, 0x48, 0x20],
    [0x43, 0x4F, 0x4E, 0x4E, 0x45, 0x43, 0x54, 0x20],
    [0x54, 0x52, 0x41, 0x43, 0x45, 0x20],
    [0x50, 0x52, 0x4F, 0x50, 0x46, 0x49, 0x4E, 0x44, 0x20],
    [0x50, 0x52, 0x4F, 0x50, 0x50, 0x41, 0x54, 0x43, 0x48, 0x20],
    [0x4D, 0x4B, 0x43, 0x4F, 0x4C, 0x20],
    [0x43, 0x4F, 0x50, 0x59, 0x20],
    [0x4D, 0x4F, 0x56, 0x45, 0x20],
    [0x4C, 0x4F, 0x43, 0x4B, 0x20],
    [0x55, 0x4E, 0x4C, 0x4F, 0x43, 0x4B, 0x20],
    [0x41, 0x43, 0x4C, 0x20],
    [0x50, 0x55, 0x52, 0x47, 0x45, 0x20],
    [0x53, 0x45, 0x41, 0x52, 0x43, 0x48, 0x20],
    [0x52, 0x45, 0x50, 0x4F, 0x52, 0x54, 0x20],
    [0x42, 0x4D, 0x4F, 0x56, 0x45, 0x20],
    [0x44, 0x45, 0x42, 0x55, 0x47, 0x20]
  ]

  /** A TLS record of the handshake kind. */
  predicate BeginsTLS(s: seq<byte>) { |s| >= 1 && s[0] == 0x16 }

  /** The greeting of an SSH client. */
  predicate BeginsSSH(s: seq<byte>) { |s| >= 4 && s[0] == 0x53 && s[1] == 0x53 && s[2] == 0x48 && s[3] == 0x2D }

  /** A request method and a space. */
  predicate BeginsHTTP(s: seq<byte>) { exists i | 0 <= i < 22 :: METHOD_BYTES[i] <= s }

  /** A masked frame: final bit or not, no reserved bits, continuation, text, binary, close, ping or pong. */
  predicate BeginsFrame(s: seq<byte>) { |s| >= 2 && IsFirstOfFrame(s[0]) && s[1] >= 0x80 }

  predicate IsFirstOfFrame(x: byte) { x in {0x00, 0x01, 0x02, 0x08, 0x09, 0x0A, 0x80, 0x81, 0x82, 0x88, 0x89, 0x8A} }

  /** A stream that ends where it could still become one of these. */
  predicate EndsOpen(s: seq<byte>)
  {
    || s == []
    || s < [0x53, 0x53, 0x48, 0x2D]
    || (exists i | 0 <= i < 22 :: s < METHOD_BYTES[i])
    || (|s| == 1 && IsFirstOfFrame(s[0]))
  }

  /** A stream of no known protocol. */
  predicate Foreign(s: seq<byte>)
  {
    !BeginsTLS(s) && !BeginsSSH(s) && !BeginsHTTP(s) && !BeginsFrame(s) && !EndsOpen(s)
  }

  lemma TokensAre()
    ensures |METHODS| == 22 && |METHOD_BYTES| == 22
    ensures forall i | 0 <= i < 22 :: Token(i) == METHOD_BYTES[i]
  {
    forall i | 0 <= i < 22 ensures Token(i) == METHOD_BYTES[i] {
      TokenIs(i);
    }
  }

  /** The bytes of a word and a space. */
  predicate Spells(word: string, t: seq<byte>)
  {
    |t| == |word| + 1 && t[|word|] == 0x20 && forall j | 0 <= j < |word| :: word[j] < 128 as char && t[j] == word[j] as int
  }

  lemma TokenIs(i: nat)
    requires i < 22
    ensures Token(i) == METHOD_BYTES[i]
  {
    if i < 6 { Spelling0(i); } else if i < 11 { Spelling1(i); } else if i < 17 { Spelling2(i); } else { Spelling3(i); }
    Spelled(METHODS[i], METHOD_BYTES[i]);
    hide Spells;
  }

  lemma Spelled(word: string, t: seq<byte>)
    requires Spells(word, t)
    ensures Ascii(word) + [0x20] == t
  {
    var a := Ascii(word);
    forall j | 0 <= j < |word| ensures a[j] == t[j] {
      assert t[j] == word[j] as int < 256;
    }
  }

  lemma Spelling0(i: nat)
    requires 0 <= i < 6
    ensures Spells(METHODS[i], METHOD_BYTES[i])
  {
  }

  lemma Spelling1(i: nat)
    requires 6 <= i < 11
    ensures Spells(METHODS[i], METHOD_BYTES[i])
  {
  }

  lemma Spelling2(i: nat)
    requires 11 <= i < 17
    ensures Spells(METHODS[i], METHOD_BYTES[i])
  {
  }

  lemma Spelling3(i: nat)
    requires 17 <= i < 22
    ensures Spells(METHODS[i], METHOD_BYTES[i])
  {
  }

  lemma FirstOfFrame(x: byte)
    ensures IsFrameOpcode(x) <==> IsFirstOfFrame(x)
  {
  }

  lemma SSHBytes(b: seq<byte>)
    ensures HasPrefix(b, SSH_PREFIX) <==> BeginsSSH(b)
    ensures |b| < |SSH_PREFIX| && HasPrefix(SSH_PREFIX, b) <==> b < [0x53, 0x53, 0x48, 0x2D]
  {
  }

  lemma MethodBytes(b: seq<byte>)
    ensures StartsWithMethod(b) <==> BeginsHTTP(b)
    ensures StartsAMethod(b) <==> exists i | 0 <= i < 22 :: b < METHOD_BYTES[i]
  {
    TokensAre();
    forall i | 0 <= i < 22
      ensures HasPrefix(b, Token(i)) <==> METHOD_BYTES[i] <= b
      ensures |b| < |Token(i)| && HasPrefix(Token(i), b) <==> b < METHOD_BYTES[i]
    {
    }
    hide Token;
  }

  lemma MethodStarts(b: seq<byte>)
    requires BeginsHTTP(b)
    ensures |b| >= 4 && 0x41 <= b[0] <= 0x5A && b[3] != 0x2D
  {
    TokensAre();
    var i :| 0 <= i < 22 && METHOD_BYTES[i] <= b;
    TokenShape(i);
    var t := Token(i);
    assert t <= b && t[0] == b[0] && t[3] == b[3];
    hide Token;
  }

  /** The decision on any bytes: one kind for each way to begin, and no decision exactly where the bytes end open. */
  lemma ClassifyTable(b: seq<byte>)
    ensures Classify(b) == (TLS, false) <==> BeginsTLS(b)
    ensures Classify(b) == (SSH, false) <==> BeginsSSH(b)
    ensures Classify(b) == (HTTP, false) <==> BeginsHTTP(b)
    ensures Classify(b) == (WSFrame, false) <==> BeginsFrame(b)
    ensures Classify(b) == (Unknown, false) <==> Foreign(b)
  {
    SSHBytes(b);
    MethodBytes(b);
    if b != [] {
      FirstOfFrame(b[0]);
      if !(0x41 <= b[0] <= 0x5A) {
        NoMethod(b);
      }
    }
    if BeginsHTTP(b) {
      MethodStarts(b);
    }
    hide HasPrefix, StartsWithMethod, StartsAMethod, BeginsHTTP, IsFrameOpcode;
  }

  /** What a stream is, in its bytes. */
  lemma VerdictTable(s: seq<byte>)
    ensures Decided(s) && Verdict(s) == TLS <==> BeginsTLS(s)
    ensures Decided(s) && Verdict(s) == SSH <==> BeginsSSH(s)
    ensures Decided(s) && Verdict(s) == HTTP <==> BeginsHTTP(s)
    ensures Decided(s) && Verdict(s) == WSFrame <==> BeginsFrame(s)
    ensures Decided(s) && Verdict(s) == Unknown <==> Foreign(s)
  {
    ClassifyTable(s);
    if |s| > 10 {
      TenDecide(s[..10]);
      DecidedStays(s[..10], s[10..]);
      assert s == s[..10] + s[10..];
    } else {
      assert s[..|s|] == s;
    }
    hide Classify, BeginsTLS, BeginsSSH, BeginsHTTP, BeginsFrame, Foreign;
  }
}
