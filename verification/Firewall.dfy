/** The firewall chain for VPN users: a policy compiled into rules that are tried in order. */
module Firewall {

  datatype Proto = TCP | UDP | Other

  datatype Packet = Packet(loopback: bool, proto: Proto, dport: int)

  datatype Verdict = Return | Reject

  /** The tests one rule makes: the loopback interface, a protocol, one port or up to fifteen of them. */
  datatype ProtoTest = AnyProto | Only(proto: Proto)
  datatype PortTest = AnyPort | DPort(port: int) | Multiport(ports: seq<int>)
  datatype Rule = Rule(lo: bool, proto: ProtoTest, ports: PortTest, verdict: Verdict)

  datatype Config = Config(blockLocal: bool, allowLocalPorts: seq<int>, udpgwEnabled: bool, udpgwPorts: seq<int>, blockSMTP: bool)

  const MAX_PORTS := 15

  predicate Matches(r: Rule, p: Packet)
  {
    && (r.lo ==> p.loopback)
    && (r.proto.Only? ==> p.proto == r.proto.proto)
    && match r.ports
       case AnyPort => true
       case DPort(port) => p.dport == port
       case Multiport(ports) => p.dport in ports
  }

  /** The first rule that matches decides; a packet that none matches leaves the chain. */
  function FirstMatch(rules: seq<Rule>, p: Packet): Verdict
  {
    if rules == [] then Return
    else if Matches(rules[0], p) then rules[0].verdict
    else FirstMatch(rules[1..], p)
  }

  function Allowed(cfg: Config): seq<int>
  {
    cfg.allowLocalPorts + if cfg.udpgwEnabled then cfg.udpgwPorts else []
  }

  /** The policy in plain words: with local services blocked, loopback traffic is rejected unless it is
      TCP to an allowed port or DNS; mail to port 25 is rejected if so configured; all else passes. */
  function Policy(cfg: Config, p: Packet): Verdict
  {
    if cfg.blockLocal && p.loopback then
      if (p.proto == TCP && p.dport in Allowed(cfg)) || (p.proto in {TCP, UDP} && p.dport == 53) then Return else Reject
    else if cfg.blockSMTP && p.proto == TCP && p.dport == 25 then Reject
    else Return
  }

  /** The ports of the multiport rules, in order. */
  function MultiPorts(rules: seq<Rule>): seq<int>
  {
    if rules == [] then []
    else (if rules[0].ports.Multiport? then rules[0].ports.ports else []) + MultiPorts(rules[1..])
  }

  /** What the multiport extension accepts. */
  predicate WellSized(r: Rule) { r.ports.Multiport? ==> 1 <= |r.ports.ports| <= MAX_PORTS }

  predicate LetsIn(r: Rule) { r.lo && r.proto == Only(TCP) && r.ports.Multiport? && r.verdict == Return }

  /** One rule lets in up to fifteen allowed ports, in order. */
  method PortRules(allowed: seq<int>) returns (rules: seq<Rule>)
    ensures forall k | 0 <= k < |rules| :: WellSized(rules[k]) && LetsIn(rules[k])
    ensures MultiPorts(rules) == allowed
  {
    hide MultiPorts;
    rules := [];
    assert MultiPorts([]) == [] by { NoRules(); }
    var i := 0;
    while i < |allowed|
      invariant 0 <= i
      invariant forall k | 0 <= k < |rules| :: WellSized(rules[k]) && LetsIn(rules[k])
      invariant MultiPorts(rules) == if i <= |allowed| then allowed[..i] else allowed
    {
      var end := if i + 15 < |allowed| then i + 15 else |allowed|;
      var ps := [];
      for k := i to end
        invariant ps == allowed[i..k]
      {
        ps := ps + [allowed[k]];
      }
      var r := Rule(true, Only(TCP), Multiport(ps), Return);
      MultiPortsMore(rules, r);
      assert allowed[..i] + ps == allowed[..end];
      assert allowed[..|allowed|] == allowed;
      rules := rules + [r];
      i := i + 15;
    }
    assert allowed[..|allowed|] == allowed;
  }

  /** Rules: the chain decides every packet as the policy does. */
  method Rules(cfg: Config) returns (rules: seq<Rule>)
    ensures forall p :: FirstMatch(rules, p) == Policy(cfg, p)
    ensures forall i | 0 <= i < |rules| :: WellSized(rules[i])
    ensures MultiPorts(rules) == if cfg.blockLocal then Allowed(cfg) else []
  {
    hide MultiPorts, FirstMatch, LetsIn, WellSized, Policy;
    rules := [];
    ghost var ports: seq<Rule> := [];
    if cfg.blockLocal {
      var allowed := cfg.allowLocalPorts;
      if cfg.udpgwEnabled {
        allowed := allowed + cfg.udpgwPorts;
      }
      assert allowed == Allowed(cfg);
      rules := PortRules(allowed);
      ports := rules;
      rules := rules + [Rule(true, Only(UDP), DPort(53), Return)]
                     + [Rule(true, Only(TCP), DPort(53), Return)]
                     + [Rule(true, AnyProto, AnyPort, Reject)];
      assert rules == ports + LocalRules();
    } else {
      NoRules();
    }
    ghost var before := rules;
    if cfg.blockSMTP {
      rules := rules + [Rule(false, Only(TCP), DPort(25), Reject)];
    }
    rules := rules + [Rule(false, AnyProto, AnyPort, Return)];
    assert rules == before + LastRules(cfg);
    RulesAre(cfg, ports, rules);
  }

  lemma NoRules()
    ensures MultiPorts([]) == []
  {
  }

  /** What a chain of this shape means. */
  lemma RulesAre(cfg: Config, ports: seq<Rule>, rules: seq<Rule>)
    requires forall k | 0 <= k < |ports| :: WellSized(ports[k]) && LetsIn(ports[k])
    requires MultiPorts(ports) == if cfg.blockLocal then Allowed(cfg) else []
    requires rules == (if cfg.blockLocal then ports + LocalRules() else []) + LastRules(cfg)
    ensures forall p :: FirstMatch(rules, p) == Policy(cfg, p)
    ensures forall i | 0 <= i < |rules| :: WellSized(rules[i])
    ensures MultiPorts(rules) == if cfg.blockLocal then Allowed(cfg) else []
  {
    hide MultiPorts, FirstMatch, LocalRules, LastRules, LetsIn, WellSized;
    FixedRules(cfg);
    if cfg.blockLocal {
      assert rules == ports + (LocalRules() + LastRules(cfg));
      MultiPortsAppend(ports, LocalRules() + LastRules(cfg));
      MultiPortsAppend(LocalRules(), LastRules(cfg));
      forall p ensures FirstMatch(rules, p) == Policy(cfg, p) {
        LetInOrOn(ports, LocalRules() + LastRules(cfg), p);
        LocalThenLast(cfg, p);
        LastOnly(cfg, p);
      }
    } else {
      assert rules == LastRules(cfg);
      forall p ensures FirstMatch(rules, p) == Policy(cfg, p) {
        LastOnly(cfg, p);
      }
    }
  }

  lemma FixedRules(cfg: Config)
    ensures MultiPorts(LocalRules()) == [] && MultiPorts(LastRules(cfg)) == []
    ensures forall r | r in LocalRules() || r in LastRules(cfg) :: WellSized(r)
  {
    NoPorts(LocalRules());
    NoPorts(LastRules(cfg));
  }

  lemma {:induction false} NoPorts(rules: seq<Rule>)
    requires forall i | 0 <= i < |rules| :: !rules[i].ports.Multiport?
    ensures MultiPorts(rules) == []
  {
    if rules != [] {
      NoPorts(rules[1..]);
    }
  }

  /** DNS is let in, and nothing else local. */
  function LocalRules(): seq<Rule>
  {
    [Rule(true, Only(UDP), DPort(53), Return), Rule(true, Only(TCP), DPort(53), Return), Rule(true, AnyProto, AnyPort, Reject)]
  }

  function LastRules(cfg: Config): seq<Rule>
  {
    (if cfg.blockSMTP then [Rule(false, Only(TCP), DPort(25), Reject)] else []) + [Rule(false, AnyProto, AnyPort, Return)]
  }

  lemma {:induction false} MultiPortsAppend(a: seq<Rule>, b: seq<Rule>)
    ensures MultiPorts(a + b) == MultiPorts(a) + MultiPorts(b)
  {
    if a == [] {
      assert a + b == b;
    } else {
      var first := if a[0].ports.Multiport? then a[0].ports.ports else [];
      MultiPortsAppend(a[1..], b);
      assert (a + b)[1..] == a[1..] + b;
      Regroup(first, MultiPorts(a[1..]), MultiPorts(b));
    }
  }

  lemma Regroup(a: seq<int>, b: seq<int>, d: seq<int>)
    ensures a + (b + d) == (a + b) + d
  {
  }

  lemma MultiPortsMore(a: seq<Rule>, r: Rule)
    requires r.ports.Multiport?
    ensures MultiPorts(a + [r]) == MultiPorts(a) + r.ports.ports
  {
    MultiPortsAppend(a, [r]);
    assert MultiPorts([r]) == r.ports.ports + [];
  }

  /** The multiport rules let in local TCP to any of their ports and leave the rest to what follows. */
  lemma {:induction false} LetInOrOn(rules: seq<Rule>, rest: seq<Rule>, p: Packet)
    requires forall k | 0 <= k < |rules| :: LetsIn(rules[k])
    ensures FirstMatch(rules + rest, p)
         == if p.loopback && p.proto == TCP && p.dport in MultiPorts(rules) then Return else FirstMatch(rest, p)
  {
    if rules == [] {
      assert rules + rest == rest;
    } else {
      LetInOrOn(rules[1..], rest, p);
      assert (rules + rest)[1..] == rules[1..] + rest;
      assert LetsIn(rules[0]);
    }
  }

  lemma LastOnly(cfg: Config, p: Packet)
    ensures FirstMatch(LastRules(cfg), p) == if cfg.blockSMTP && p.proto == TCP && p.dport == 25 then Reject else Return
  {
    var last := Rule(false, AnyProto, AnyPort, Return);
    assert FirstMatch([last], p) == Return;
    if cfg.blockSMTP {
      assert LastRules(cfg)[1..] == [last];
    } else {
      assert LastRules(cfg) == [last];
    }
  }

  lemma FirstOrOn(r: Rule, rest: seq<Rule>, p: Packet)
    ensures FirstMatch([r] + rest, p) == if Matches(r, p) then r.verdict else FirstMatch(rest, p)
  {
    assert ([r] + rest)[1..] == rest;
  }

  lemma LocalThenLast(cfg: Config, p: Packet)
    ensures FirstMatch(LocalRules() + LastRules(cfg), p)
         == if p.loopback then (if p.proto in {TCP, UDP} && p.dport == 53 then Return else Reject) else FirstMatch(LastRules(cfg), p)
  {
    hide LastRules, FirstMatch;
    var l := LastRules(cfg);
    var x, y, z := Rule(true, Only(UDP), DPort(53), Return), Rule(true, Only(TCP), DPort(53), Return), Rule(true, AnyProto, AnyPort, Reject);
    assert LocalRules() + l == [x] + ([y] + ([z] + l));
    FirstOrOn(z, l, p);
    FirstOrOn(y, [z] + l, p);
    FirstOrOn(x, [y] + ([z] + l), p);
  }
}
