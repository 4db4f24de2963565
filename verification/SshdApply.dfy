/** Applying and removing the managed sshd configuration: two files, three levels, a validator and a rollback. */
module SshdApply {
  import opened Search
  import opened SshdText

  datatype File = Missing | Present(text: Text)

  datatype Files = Files(main: Text, drop: File)

  /** The lines one level of the settings asks for. */
  datatype Rendering = Rendering(global: seq<Text>, match_: seq<Text>)

  const HEADER: seq<Text> := [
    "# Managed by SSH-VPN (sshfortress)" + " \U{2014} https://github.com/" + "SandBaad/SSH-VPN",
    "# Edit /etc/sshfortress/" + "config.yaml and run " + "`sshfortress apply` instead.",
    ""
  ]

  function Lines(ls: seq<Text>): (s: Text)
    ensures Terminated(s)
  {
    if ls == [] then "" else ls[0] + "\n" + Lines(ls[1..])
  }

  /** The drop-in file of a rendering. */
  function DropIn(r: Rendering): Text { Lines(HEADER + r.global + [""] + r.match_) }

  /** The files with a rendering in place, as a drop-in or as blocks in the main file. */
  function Rendered(f: Files, include_: bool, r: Rendering): Files
  {
    var bare := CommentPorts(Strip(f.main));
    if include_ then Files(bare, Present(DropIn(r)))
    else f.(main := WithBlocks(bare, Lines(HEADER + r.global), Lines(r.match_)))
  }

  /** How Apply ends: with a level in place, refused at every level, with a failed write of the main
      file, or with a failed write on the way to the drop-in. */
  datatype Outcome = Applied(level: nat) | Rejected | MainFailed(level: nat) | DropFailed(level: nat)

  /** What putting a text back by a plain write leaves: the text, or, if the write fails, what was there
      or some first part of the text. */
  predicate PutBack(was: Text, orig: Text, now: Text) { now == was || now <= orig }

  /** The same for the drop-in, which goes away if it did not exist. */
  predicate DropPutBack(was: File, orig: File, now: File)
  {
    now == was || now == orig || (orig.Present? && now.Present? && now.text <= orig.text)
  }

  /** Two files, and a record of the file operations that failed. */
  class Disk {
    var main: Text
    var drop: File
    ghost var failures: nat

    constructor (f: Files)
      ensures View() == f && failures == 0
    {
      main, drop, failures := f.main, f.drop, 0;
    }

    function View(): Files
      reads this
    {
      Files(main, drop)
    }

    /** Whether the file operation about to be made fails. */
    method Fails() returns (bad: bool)
      modifies this`failures
      ensures failures == old(failures) + if bad then 1 else 0
    {
      bad := *;
      if bad { failures := failures + 1; }
    }

    /** Replaces a file whole, or fails and leaves it alone. */
    method WriteMain(text: Text) returns (ok: bool)
      modifies this
      ensures View() == if ok then old(View()).(main := text) else old(View())
      ensures failures == old(failures) + if ok then 0 else 1
    {
      var bad := Fails();
      ok := !bad;
      if ok { main := text; }
    }

    method WriteDrop(text: Text) returns (ok: bool)
      modifies this
      ensures View() == if ok then old(View()).(drop := Present(text)) else old(View())
      ensures failures == old(failures) + if ok then 0 else 1
    {
      var bad := Fails();
      ok := !bad;
      if ok { drop := Present(text); }
    }

    /** Writes the main file in place; a write that fails may leave a part. */
    method OverwriteMain(text: Text)
      modifies this
      ensures drop == old(drop) && failures >= old(failures) && PutBack(old(main), text, main)
      ensures failures == old(failures) ==> main == text
    {
      var bad := Fails();
      if !bad {
        main := text;
      } else if * {
        var k: nat :| k <= |text|;
        main := text[..k];
      }
    }

    /** Puts both files back; a plain write that fails goes unnoticed. */
    method RollBack(include_: bool, mainOrig: Text, dropOrig: File)
      modifies this
      ensures failures >= old(failures)
      ensures failures == old(failures) ==> View() == if include_ then Files(mainOrig, dropOrig) else Files(mainOrig, old(drop))
      ensures PutBack(old(main), mainOrig, main)
      ensures if include_ then DropPutBack(old(drop), dropOrig, drop) else drop == old(drop)
    {
      OverwriteMain(mainOrig);
      if include_ {
        var bad := Fails();
        if !bad {
          drop := dropOrig;
        } else if dropOrig.Present? {
          if * {
            var k: nat :| k <= |dropOrig.text|;
            drop := Present(dropOrig.text[..k]);
          }
        }
      }
    }

    /** Apply's write and validate phase. The rendering of each level and the verdict of sshd -t on a
        pair of files are given. When no file operation fails it ends with the lowest level that is
        accepted in place, or, all being refused, with both files as before. */
    method Apply(include_: bool, render: nat -> Rendering, accepts: Files -> bool) returns (res: Outcome)
      modifies this
      ensures failures >= old(failures)
      ensures failures == old(failures) ==> res.Applied? || (res.Rejected? && View() == old(View()))
      ensures match res
              case Applied(level) =>
                && failures == old(failures)
                && level <= 2 && View() == Rendered(old(View()), include_, render(level)) && accepts(View())
                && forall l: nat | l < level :: !accepts(Rendered(old(View()), include_, render(l)))
              case Rejected =>
                && (forall l: nat | l <= 2 :: !accepts(Rendered(old(View()), include_, render(l))))
                && RolledBack(old(View()), Rendered(old(View()), include_, render(2)), include_, View(), failures - old(failures))
              case MainFailed(level) =>
                && level <= 2 && failures > old(failures)
                && RolledBack(old(View()), Reached(old(View()), include_, render, level), include_, View(), failures - old(failures) - 1)
              case DropFailed(level) =>
                && include_ && level <= 2 && failures == old(failures) + 1
                && View() == if level == 0 then old(View()) else Rendered(old(View()), true, render(level - 1))
    {
      hide Rendered, WithBlocks, DropIn, Strip, CommentPorts;
      var mainOrig, dropOrig := main, drop;
      ghost var before := View();
      for level := 0 to 3
        invariant View() == if level == 0 then before else Rendered(before, include_, render(level - 1))
        invariant failures == old(failures) && (!include_ ==> drop == dropOrig)
        invariant forall l: nat | l < level :: !accepts(Rendered(before, include_, render(l)))
      {
        var r := render(level);
        RenderedIs(before, include_, r);
        var bare := StripBlocks(mainOrig);
        bare := CommentPorts(bare);
        var newMain;
        if include_ {
          var unmade := Fails();
          if unmade {
            return DropFailed(level);
          }
          var ok := WriteDrop(DropIn(r));
          if !ok {
            return DropFailed(level);
          }
          newMain := bare;
        } else {
          newMain := WithBlocks(bare, Lines(HEADER + r.global), Lines(r.match_));
        }
        var ok := WriteMain(newMain);
        if !ok {
          RenderedDrop(before, include_, render, level);
          RollBack(include_, mainOrig, dropOrig);
          return MainFailed(level);
        }
        if accepts(View()) {
          return Applied(level);
        }
      }
      RenderedDrop(before, include_, render, 2);
      RollBack(include_, mainOrig, dropOrig);
      res := Rejected;
    }

    /** Remove: the drop-in goes, the blocks and comments go, and sshd's refusal, if there is an sshd to
        ask, puts the main file back. */
    method Remove(include_: bool, hasSSHD: bool, accepts: Files -> bool) returns (ok: bool)
      modifies this
      ensures failures >= old(failures)
      ensures drop == old(drop) || (include_ && drop == Missing)
      ensures include_ && failures == old(failures) ==> drop == Missing
      ensures ok ==> main == Restored(old(main)) && (hasSSHD ==> accepts(View()))
      ensures !ok && failures == old(failures) ==> main == old(main) && hasSSHD && !accepts(View().(main := Restored(old(main))))
      ensures !ok ==> main == old(main) || main == Restored(old(main)) || main <= old(main)
    {
      var data := main;
      if include_ {
        var bad := Fails();
        if !bad { drop := Missing; }
      }
      var bare := StripBlocks(data);
      var wrote := WriteMain(UncommentPorts(bare));
      if !wrote {
        return false;
      }
      if hasSSHD && !accepts(View()) {
        OverwriteMain(data);
        return false;
      }
      ok := true;
    }
  }

  /** The files when the write of the main file is due at a level: the drop-in is that level's already. */
  function Reached(f: Files, include_: bool, render: nat -> Rendering, level: nat): Files
  {
    Files(if level == 0 then f.main else Rendered(f, include_, render(level - 1)).main, Rendered(f, include_, render(level)).drop)
  }

  /** What a rollback from some files leaves: the original, if none of its writes failed, and otherwise
      in each file what was there or a part of the original. */
  predicate RolledBack(orig: Files, was: Files, include_: bool, now: Files, failed: int)
  {
    && (failed == 0 ==> now == orig)
    && PutBack(was.main, orig.main, now.main)
    && (if include_ then DropPutBack(was.drop, orig.drop, now.drop) else now.drop == orig.drop)
  }

  lemma RenderedDrop(f: Files, include_: bool, render: nat -> Rendering, level: nat)
    ensures forall r :: Rendered(f, include_, r).drop == if include_ then Present(DropIn(r)) else f.drop
    ensures Reached(f, include_, render, level).main == if level == 0 then f.main else Rendered(f, include_, render(level - 1)).main
  {
  }

  lemma RenderedIs(f: Files, include_: bool, r: Rendering)
    ensures Rendered(f, include_, r)
         == if include_ then Files(CommentPorts(Strip(f.main)), Present(DropIn(r)))
            else f.(main := WithBlocks(CommentPorts(Strip(f.main)), Lines(HEADER + r.global), Lines(r.match_)))
  {
  }

  // What a rendering holds.

  /** Every line of a list stands in its text, whole and in its place. */
  lemma LineStands(ls: seq<Text>, i: nat)
    requires i < |ls|
    ensures Lines(ls) == Lines(ls[..i]) + (ls[i] + "\n" + Lines(ls[i + 1..]))
  {
    assert ls == ls[..i] + ls[i..];
    LinesOfBoth(ls[..i], ls[i..]);
    assert ls[i..][1..] == ls[i + 1..];
  }

  /** The drop-in is the header, the global lines, an empty line, and the Match lines, in this order and
      nothing else; so every global line stands before every Match line. */
  lemma DropInHolds(r: Rendering)
    ensures DropIn(r) == Lines(HEADER) + Lines(r.global) + "\n" + Lines(r.match_)
  {
    hide Lines;
    LinesOfBoth(HEADER + r.global + [""], r.match_);
    LinesOfBoth(HEADER + r.global, [""]);
    LinesOfBoth(HEADER, r.global);
    assert HEADER + r.global + [""] + r.match_ == (HEADER + r.global + [""]) + r.match_;
    EmptyLineOnly();
  }

  lemma EmptyLineOnly()
    ensures Lines([""]) == "\n"
  {
    assert [""][1..] == [];
    assert Lines([]) == "";
  }

  /** Inline, the managed global lines come first, then the text itself, then the managed Match lines, each
      group between its markers. */
  lemma InlineHolds(f: Files, r: Rendering)
    ensures Rendered(f, false, r).main
         == Lines([BEGIN_GLOBAL] + HEADER + r.global + [END_GLOBAL]) + Ended(CommentPorts(Strip(f.main)))
            + Lines([BEGIN_MATCH] + r.match_ + [END_MATCH])
    ensures Rendered(f, false, r).drop == f.drop
  {
    hide Lines, Strip, CommentPorts, Ended, MarkBegin, MarkEnd;
    BlockIsLines(BEGIN_GLOBAL, HEADER + r.global, END_GLOBAL);
    BlockIsLines(BEGIN_MATCH, r.match_, END_MATCH);
    assert [BEGIN_GLOBAL] + HEADER + r.global == [BEGIN_GLOBAL] + (HEADER + r.global);
    Regroup(Block(BEGIN_GLOBAL, Lines(HEADER + r.global), END_GLOBAL), Ended(CommentPorts(Strip(f.main))), Block(BEGIN_MATCH, Lines(r.match_), END_MATCH));
  }

  lemma BlockIsLines(begin: Text, body: seq<Text>, end: Text)
    ensures Lines([begin] + body + [end]) == Block(begin, Lines(body), end)
  {
    LinesOfBoth([begin] + body, [end]);
    LinesOfBoth([begin], body);
    OneLine(begin);
    OneLine(end);
    hide Lines;
  }

  lemma OneLine(l: Text)
    ensures Lines([l]) == l + "\n"
  {
    assert [l][1..] == [];
    assert Lines([]) == "";
    assert l + "\n" + "" == l + "\n";
  }

  /** As a drop-in, the main file keeps its own lines, with no active Port line and no managed block. */
  lemma MainHolds(f: Files, r: Rendering)
    ensures Rendered(f, true, r) == Files(CommentPorts(Strip(f.main)), Present(DropIn(r))) && NoPortLines(Rendered(f, true, r).main)
  {
    NoneActive(Strip(f.main));
    hide Strip, CommentPorts, NoPortLines, DropIn;
  }

  function Restored(main: Text): Text { UncommentPorts(Strip(main)) }

  /** The early returns on the way to the drop-in skip the rollback. From the second level on they leave
      the refused rendering of the level before in place, so the files are as before exactly if
      that rendering was there to begin with: on a main file without markers, if it has no active Port
      line and the drop-in already held that text. */
  lemma EarlyReturnRestores(f: Files, r: Rendering)
    ensures Rendered(f, true, r) == f <==> CommentPorts(Strip(f.main)) == f.main && f.drop == Present(DropIn(r))
    ensures Unmanaged(f.main) ==> (Rendered(f, true, r) == f <==> NoPortLines(f.main) && f.drop == Present(DropIn(r)))
  {
    if Unmanaged(f.main) {
      StripUnmanaged(f.main);
      CommentSame(f.main);
    }
    hide Strip, CommentPorts, NoPortLines, DropIn, Unmanaged;
  }

  /** For example, a first Apply on a system without a drop-in. */
  lemma EarlyReturnLoses(main: Text, r: Rendering)
    ensures Rendered(Files(main, Missing), true, r) != Files(main, Missing)
  {
  }

  // Whole runs.

  /** One successful Apply, seen from the main file. */
  datatype Op = Op(include_: bool, r: Rendering)

  function Configure(main: Text, op: Op): Text { Rendered(Files(main, Missing), op.include_, op.r).main }

  function Run(main: Text, ops: seq<Op>): Text
  {
    if ops == [] then main else Configure(Run(main, ops[..|ops| - 1]), ops[|ops| - 1])
  }

  predicate CanWrite(op: Op)
  {
    op.include_ || Writable(Lines(HEADER + op.r.global), Lines(op.r.match_))
  }

  predicate AnyInline(ops: seq<Op>) { exists i | 0 <= i < |ops| :: !ops[i].include_ }

  /** What an Apply does to the text under the managed blocks: it comments the Port lines and, inline,
      makes sure the text ends in a newline. */
  lemma ConfigureBare(main: Text, op: Op)
    requires Unmanaged(Strip(main)) && CanWrite(op)
    ensures var b, z := Strip(main), Configure(main, op);
            Strip(z) == (if op.include_ then CommentPorts(b) else Ended(CommentPorts(b))) && Unmanaged(Strip(z))
  {
    hide Index, Strip, Writable, MarkBegin, MarkEnd, WithBlocks, CommentPorts;
    var b := Strip(main);
    MarkersAre();
    CommentKeepsMarkers(b, BEGIN_GLOBAL);
    CommentKeepsMarkers(b, BEGIN_MATCH);
    if op.include_ {
      StripUnmanaged(CommentPorts(b));
    } else {
      StripWritten(CommentPorts(b), Lines(HEADER + op.r.global), Lines(op.r.match_));
    }
  }

  lemma CommentTerminated(s: Text)
    ensures Terminated(CommentPorts(s)) == Terminated(s)
  {
    hide Commented;
    EmptyLine();
    forall l: Text ensures (l != "" ==> Commented(l) != "") && ('\n' !in l ==> '\n' !in Commented(l)) {
      CommentedFacts(l);
    }
    MapTerminated(s, Commented);
  }

  /** Removing comments after commenting and ending a text. */
  lemma UncommentEnded(b: Text)
    ensures UncommentPorts(Ended(CommentPorts(b))) == UncommentPorts(b) + if Terminated(b) then "" else "\n"
  {
    CommentTerminated(b);
    CommentTwice(b);
    EmptyLine();
    if !Terminated(b) {
      MapNewline(CommentPorts(b), Uncommented);
    }
  }

  /** After any run, what Remove would leave. */
  lemma {:induction false} RunRestores(x: Text, ops: seq<Op>)
    requires Unmanaged(x) && forall i | 0 <= i < |ops| :: CanWrite(ops[i])
    ensures var z := Run(x, ops);
            && Unmanaged(Strip(z)) && (Terminated(Strip(z)) <==> Terminated(x) || AnyInline(ops))
            && Restored(z) == UncommentPorts(x) + if AnyInline(ops) && !Terminated(x) then "\n" else ""
    decreases |ops|
  {
    hide Unmanaged, Strip, CanWrite, CommentPorts, UncommentPorts, Configure;
    if ops == [] {
      StripUnmanaged(x);
    } else {
      var k := |ops| - 1;
      var front, op := ops[..k], ops[k];
      var y := Run(x, front);
      RunRestores(x, front);
      ConfigureBare(y, op);
      var b := Strip(y);
      assert AnyInline(ops) <==> AnyInline(front) || !op.include_ by {
        AnyInlineStep(ops);
      }
      CommentTerminated(b);
      if op.include_ {
        CommentTwice(b);
      } else {
        UncommentEnded(b);
      }
    }
  }

  lemma AnyInlineStep(ops: seq<Op>)
    requires ops != []
    ensures AnyInline(ops) <==> AnyInline(ops[..|ops| - 1]) || !ops[|ops| - 1].include_
  {
    var front := ops[..|ops| - 1];
    assert forall i | 0 <= i < |front| :: front[i] == ops[i];
    if AnyInline(ops) && ops[|ops| - 1].include_ {
      var i :| 0 <= i < |ops| && !ops[i].include_;
      assert !front[i].include_;
    }
  }

  /** Any number of Applies with any settings, then Remove: the original comes back byte for byte exactly
      if no line of it carried the port comment and, when some Apply worked inline, it was empty or
      ended in a newline. */
  lemma RemoveRestoresExactly(x: Text, ops: seq<Op>)
    requires Unmanaged(x) && forall i | 0 <= i < |ops| :: CanWrite(ops[i])
    ensures Restored(Run(x, ops)) == x <==> NoCommentLines(x) && (AnyInline(ops) ==> Terminated(x))
  {
    hide Run, Unmanaged, CanWrite, UncommentPorts, NoCommentLines, Restored, Strip;
    RunRestores(x, ops);
    UncommentSame(x);
    if AnyInline(ops) && !Terminated(x) {
      var u := UncommentPorts(x) + "\n";
      assert u[|u| - 1] == '\n';
    }
  }

  /** Applying the same settings again changes nothing. */
  lemma ApplyTwice(main: Text, op: Op)
    requires Unmanaged(Strip(main)) && CanWrite(op)
    ensures Configure(Configure(main, op), op) == Configure(main, op)
  {
    var b := Strip(main);
    var c := CommentPorts(b);
    ConfigureBare(main, op);
    CommentTwice(b);
    CommentEnded(c);
    hide Unmanaged, Strip, CanWrite, CommentPorts;
  }

  lemma CommentEnded(c: Text)
    ensures CommentPorts(Ended(c)) == Ended(CommentPorts(c))
    ensures Ended(Ended(c)) == Ended(c)
  {
    EmptyLine();
    CommentTerminated(c);
    if !Terminated(c) {
      MapNewline(c, Commented);
    }
  }

  /** The header never gets in the way of the global block. */
  lemma HeaderFits(global: seq<Text>)
    ensures Index(Lines(HEADER + global), END_GLOBAL) < 0 <==> Index(Lines(global), END_GLOBAL) < 0
  {
    hide Index, MarkBegin, MarkEnd;
    MarkersAre();
    LinesOfBoth(HEADER, global);
    HeaderChars();
    Foreign(Lines(HEADER), END_GLOBAL, '<');
    IndexLines(Lines(HEADER), Lines(global), END_GLOBAL);
  }

  lemma {:induction false} LinesOfBoth(a: seq<Text>, b: seq<Text>)
    ensures Lines(a + b) == Lines(a) + Lines(b)
  {
    if a == [] {
      assert a + b == b;
    } else {
      LinesOfBoth(a[1..], b);
      assert (a + b)[1..] == a[1..] + b;
      Regroup(a[0] + "\n", Lines(a[1..]), Lines(b));
    }
  }

  lemma {:induction false} NotInLines(ls: seq<Text>, c: char)
    requires c != '\n' && forall i | 0 <= i < |ls| :: c !in ls[i]
    ensures c !in Lines(ls)
  {
    if ls != [] {
      NotInLines(ls[1..], c);
      NotInPieces(ls[0], "\n", Lines(ls[1..]), c);
    }
  }

  lemma HeaderChars()
    ensures '<' !in Lines(HEADER)
  {
    HeaderLine0();
    HeaderLine1();
    hide Lines;
    NotInLines(HEADER, '<');
  }

  lemma HeaderLine0()
    ensures '<' !in HEADER[0]
  {
    NotInPieces("# Managed by SSH-VPN (sshfortress)", " \U{2014} https://github.com/", "SandBaad/SSH-VPN", '<');
  }

  lemma HeaderLine1()
    ensures '<' !in HEADER[1]
  {
    NotInPieces("# Edit /etc/sshfortress/", "config.yaml and run ", "`sshfortress apply` instead.", '<');
  }
}
