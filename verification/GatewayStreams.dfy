/** The two ways the gateway reads a client: peeking at a raw socket, and through a buffered reader.
    Both see one stream of bytes; how much of it is visible at each look is up to the network.
    Every call that fails or waits in vain is on record, so that what is reported can be held
    against what happened. */
module GatewayStreams {
  import opened Bytes
  import opened Search
  import opened GatewaySniff

  /** How a read ends: with bytes, in silence, at the end of the stream, with a line longer than the
      buffer, or with an error. */
  datatype Status = Done | TimedOut | Ended | Full | Broken

  /** The record of one connection: calls that failed, and waits that ended in silence. Nothing
      outside this class changes it. */
  class Network {
    ghost var faults: nat
    ghost var silences: nat

    constructor ()
      ensures faults == 0 && silences == 0
    {
      faults, silences := 0, 0;
    }

    /** Whether the call about to be made fails. */
    method Fails() returns (bad: bool)
      modifies this
      ensures faults == old(faults) + (if bad then 1 else 0) && silences == old(silences)
    {
      bad := *;
      if bad { faults := faults + 1; }
    }

    /** Whether nothing comes before the deadline. */
    method Silent() returns (quiet: bool)
      modifies this
      ensures silences == old(silences) + (if quiet then 1 else 0) && faults == old(faults)
    {
      quiet := *;
      if quiet { silences := silences + 1; }
    }

    /** Whether the deadline has passed when there is no patience left to look again. */
    method Late(patience: nat) returns (late: bool)
      modifies this
      ensures late <==> patience == 0
      ensures silences == old(silences) + (if late then 1 else 0) && faults == old(faults)
    {
      late := patience == 0;
      if late { silences := silences + 1; }
    }
  }

  /** Nothing went off the record. */
  twostate predicate Later(net: Network)
    reads net
  {
    old(net.faults) <= net.faults && old(net.silences) <= net.silences
  }

  /** No call failed and no wait ended in silence. */
  twostate predicate Untroubled(net: Network)
    reads net
  {
    net.faults == old(net.faults) && net.silences == old(net.silences)
  }

  /** A raw socket: everything the client will ever send that has not been read yet, and how many more
      looks the deadline allows. */
  class RawSocket {
    const net: Network
    var rest: seq<byte>
    var patience: nat

    constructor (net: Network, stream: seq<byte>)
      ensures this.net == net && rest == stream
    {
      this.net, rest, patience := net, stream, 0;
    }

    method SetDeadline(looks: nat)
      modifies this`patience
      ensures patience == looks
    {
      patience := looks;
    }

    /** Whether the deadline has passed. */
    method Late() returns (late: bool)
      modifies net
      ensures late <==> patience == 0
      ensures Later(net) && net.faults == old(net.faults) && (late <==> net.silences > old(net.silences))
    {
      late := net.Late(patience);
    }

    /** Shows at most max waiting bytes without consuming them, and at least one. */
    method Peek(max: nat) returns (st: Status, n: nat)
      requires max > 0
      modifies this`patience, net
      ensures Later(net) && patience == if old(patience) > 0 then old(patience) - 1 else 0
      ensures st == Done ==> 0 < n <= max && n <= |rest| && Untroubled(net)
      ensures st == Ended ==> rest == [] && Untroubled(net)
      ensures st == TimedOut ==> net.silences > old(net.silences)
      ensures st == Broken ==> net.faults > old(net.faults)
      ensures st != Full
    {
      n := 0;
      if patience > 0 {
        patience := patience - 1;
      }
      var quiet := net.Silent();
      if quiet {
        return TimedOut, 0;
      }
      var bad := net.Fails();
      if bad {
        st := Broken;
      } else if rest == [] {
        st := Ended;
      } else {
        n :| 0 < n <= |rest| && n <= max;
        st := Done;
      }
    }

    /** Reads exactly n waiting bytes or fails. */
    method ReadFull(n: nat) returns (ok: bool, data: seq<byte>)
      requires n <= |rest|
      modifies this`rest, net
      ensures Later(net) && net.silences == old(net.silences)
      ensures ok ==> data == old(rest)[..n] && rest == old(rest)[n..] && Untroubled(net)
      ensures !ok ==> net.faults > old(net.faults)
    {
      var bad := net.Fails();
      if bad {
        var k: nat :| k <= n;
        ok, data, rest := false, [], rest[k..];
      } else {
        ok, data, rest := true, rest[..n], rest[n..];
      }
    }
  }

  const BUFFER := 32768

  /** A buffered reader: reads ahead as it likes, but hands the bytes out in order. */
  class BufReader {
    const net: Network
    var rest: seq<byte>

    constructor (net: Network, stream: seq<byte>)
      ensures this.net == net && rest == stream
    {
      this.net, rest := net, stream;
    }

    /** The next want bytes, unconsumed; fewer only with an error. */
    method Peek(want: nat) returns (st: Status, b: seq<byte>)
      requires 0 < want <= BUFFER
      modifies net
      ensures Later(net)
      ensures |b| <= want && |b| <= |rest| && b == rest[..|b|]
      ensures st == Done <==> |b| == want
      ensures st == Done || st == Ended ==> Untroubled(net)
      ensures st == Ended ==> b == rest
      ensures st == TimedOut ==> net.silences > old(net.silences)
      ensures st == Broken ==> net.faults > old(net.faults)
      ensures st != Full
    {
      var early: bool := *;
      var k: nat;
      if early {
        k :| k < want && k <= |rest|;
        var quiet := net.Silent();
        if quiet {
          return TimedOut, rest[..k];
        }
        var bad := net.Fails();
        if bad {
          return Broken, rest[..k];
        }
      }
      if want <= |rest| {
        st, b := Done, rest[..want];
      } else {
        st, b := Ended, rest;
      }
    }

    /** Some of the waiting bytes, in order; the end only once they are all read. */
    method Read() returns (st: Status, b: seq<byte>)
      modifies this, net
      ensures Later(net)
      ensures old(rest) == b + rest
      ensures st == Done <==> b != []
      ensures st == Ended ==> rest == []
      ensures st == Done || st == Ended ==> Untroubled(net)
      ensures st != Done && st != Ended ==> net.faults > old(net.faults)
    {
      var bad := net.Fails();
      if bad {
        return Broken, [];
      }
      if rest == [] {
        return Ended, [];
      }
      var k: nat :| 0 < k <= |rest|;
      assert rest == rest[..k] + rest[k..];
      st, b, rest := Done, rest[..k], rest[k..];
    }

    /** The next line with its newline, or whatever could be read before an error. */
    method ReadLine() returns (st: Status, line: seq<byte>)
      modifies this, net
      ensures Later(net)
      ensures old(rest) == line + rest
      ensures st == Done ==> IndexFrom(old(rest), [10], 0) >= 0 && |line| == IndexFrom(old(rest), [10], 0) + 1
      ensures st == Ended ==> IndexFrom(old(rest), [10], 0) < 0 && |old(rest)| < BUFFER
      ensures st == Full ==> |old(rest)| >= BUFFER && (IndexFrom(old(rest), [10], 0) < 0 || IndexFrom(old(rest), [10], 0) >= BUFFER)
      ensures st == TimedOut ==> net.silences > old(net.silences)
      ensures st == Broken ==> net.faults > old(net.faults)
      ensures st == Done || st == Ended || st == Full ==> Untroubled(net)
    {
      hide IndexFrom;
      var i := IndexFrom(rest, [10], 0);
      var k: nat;
      var early: bool := *;
      if early {
        k :| k <= |rest|;
        assert rest == rest[..k] + rest[k..];
        var quiet := net.Silent();
        if quiet {
          st, line, rest := TimedOut, rest[..k], rest[k..];
          return;
        }
        var bad := net.Fails();
        if bad {
          st, line, rest := Broken, rest[..k], rest[k..];
          return;
        }
      }
      if 0 <= i < BUFFER {
        LineFits(rest, i);
        st, k := Done, i + 1;
      } else if |rest| >= BUFFER {
        st, k := Full, BUFFER;
      } else {
        st, k := Ended, |rest|;
      }
      assert rest == rest[..k] + rest[k..];
      line, rest := rest[..k], rest[k..];
    }
  }

  lemma LineFits(s: seq<byte>, i: nat)
    requires IndexFrom(s, [10], 0) == i
    ensures i < |s|
  {
    assert At(s, [10], i);
  }

  /** Peeks until the bytes decide or the deadline has passed. */
  method PeekClassify(c: RawSocket, patience: nat) returns (k: Kind, st: Status)
    modifies c`patience, c.net
    ensures Later(c.net)
    ensures st == Done ==> Decided(c.rest) && k == Verdict(c.rest) && Untroubled(c.net)
    ensures st == Ended ==> c.rest == [] && Untroubled(c.net)
    ensures st == TimedOut ==> c.net.silences > old(c.net.silences)
    ensures st == Broken ==> c.net.faults > old(c.net.faults)
    ensures st != Full
  {
    c.SetDeadline(patience);
    while true
      invariant Untroubled(c.net) && c.rest == old(c.rest)
      decreases c.patience
    {
      var s, n := c.Peek(16);
      if s != Done {
        return Unknown, s;
      }
      var more;
      k, more := ClassifyBytes(c.rest[..n]);
      if !more || n == 16 {
        if n == 16 {
          TenDecide(c.rest[..n]);
        }
        PrefixVerdict(c.rest, n);
        return k, Done;
      }
      var late := c.Late();
      if late {
        return k, TimedOut;
      }
    }
  }

  /** Asks the buffered reader for one byte more at a time until the bytes decide. Any error with some
      bytes at hand, the end of the stream included, counts as a timeout; behind says which it was. */
  method ClassifyReader(br: BufReader) returns (k: Kind, st: Status, behind: Status)
    modifies br.net
    ensures Later(br.net)
    ensures st == Done ==> Decided(br.rest) && k == Verdict(br.rest)
    ensures st == Ended ==> br.rest == [] && Untroubled(br.net)
    ensures st == TimedOut ==>
              match behind
              case TimedOut => br.net.silences > old(br.net.silences)
              case Ended => br.rest != [] && !Decided(br.rest) && Untroubled(br.net)
              case Broken => br.net.faults > old(br.net.faults)
              case _ => false
    ensures st == Broken ==> br.net.faults > old(br.net.faults)
    ensures st != Full
  {
    var want := 1;
    while true
      invariant 1 <= want <= 16 && Untroubled(br.net) && br.rest == old(br.rest)
      decreases 17 - want
    {
      var s, b := br.Peek(want);
      if |b| == 0 && s != Done {
        return Unknown, s, s;
      }
      var more;
      k, more := ClassifyBytes(b);
      if !more || |b| >= 16 {
        if |b| >= 16 {
          TenDecide(b);
        }
        PrefixVerdict(br.rest, |b|);
        return k, Done, s;
      }
      if s != Done {
        if s == Ended {
          EndedUndecided(br.rest);
        }
        return k, TimedOut, s;
      }
      want := |b| + 1;
    }
  }

  lemma EndedUndecided(s: seq<byte>)
    requires Classify(s).1
    ensures !Decided(s)
  {
    if |s| >= 10 {
      TenDecide(s);
    } else {
      assert s[..|s|] == s;
    }
  }
}
