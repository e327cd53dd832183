/**
 * What the tables do with a task's traffic once it is configured: each reserved port is served,
 * and nothing else is (net/filter/iptables/tables.go).
 */
module IptablesTraffic {
  import opened Wrappers
  import opened IptablesRequest
  import opened IptablesState
  import opened IptablesDriver
  import opened IptablesHashing
  import opened IptablesPackets

  // ---- What is planned for a port ----------------------------------------------------------

  /**
   * The interface found for an address. The task's own address shares the cache with those of the
   * host: it may be asked for as either.
   */
  ghost predicate Leads(h: Host, ip: string, address: string, iface: string) {
    h.interfaceByIP(address) == Some(iface) || (address == ip && h.routingInterfaceByIP(ip) == Some(iface))
  }

  ghost predicate CacheLeads(h: Host, ip: string, cache: map<string, string>) {
    forall a :: a in cache ==> Leads(h, ip, a, cache[a])
  }

  /** All the rules for a port are among the rules. */
  ghost predicate PortPlanned(h: Host, n: Names, ip: string, port: Port, rules: seq<Rule>) {
    match h.isLoopback(port.hostIP)
    case None => false
    case Some(false) =>
      exists iface ::
        Leads(h, ip, port.hostIP, iface) && forall r :: r in ForwardRules(n, port, iface, ip) ==> r in rules
    case Some(true) =>
      exists iface, dst ::
        && Leads(h, ip, port.hostIP, iface) && Leads(h, ip, ip, dst)
        && forall r :: r in LoopbackRules(n, port, iface, dst, ip) ==> r in rules
  }

  /** The rule is one of those for a port. */
  ghost predicate RuleForPort(h: Host, n: Names, ip: string, port: Port, r: Rule) {
    match h.isLoopback(port.hostIP)
    case None => false
    case Some(false) => exists iface :: Leads(h, ip, port.hostIP, iface) && r in ForwardRules(n, port, iface, ip)
    case Some(true) =>
      exists iface, dst ::
        Leads(h, ip, port.hostIP, iface) && Leads(h, ip, ip, dst) && r in LoopbackRules(n, port, iface, dst, ip)
  }

  /** What a plan holds: the rules of the ports of the labels, all of them and no others. */
  ghost predicate PlanHolds(h: Host, n: Names, ip: string, reserved: map<string, Port>, labels: seq<string>, plan: Plan)
  {
    && CacheLeads(h, ip, plan.cache)
    && (forall name :: name in labels && name in reserved ==> PortPlanned(h, n, ip, reserved[name], plan.rules))
    && (forall r :: r in plan.rules ==>
          exists name :: name in labels && name in reserved && RuleForPort(h, n, ip, reserved[name], r))
  }

  lemma {:induction false} PlanHoldsAll(h: Host, n: Names, ip: string, reserved: map<string, Port>, labels: seq<string>)
    requires PlanPorts(h, n, ip, reserved, labels).Success?
    ensures PlanHolds(h, n, ip, reserved, labels, PlanPorts(h, n, ip, reserved, labels).value)
  {
    if labels != [] {
      var front, last := labels[..|labels| - 1], labels[|labels| - 1];
      PlanHoldsAll(h, n, ip, reserved, front);
      assert labels == front + [last];
      if last in reserved {
        PlanPortHolds(h, n, ip, reserved, front, last, PlanPorts(h, n, ip, reserved, front).value);
      }
    }
  }

  lemma PlanPortHolds(h: Host, n: Names, ip: string, reserved: map<string, Port>, front: seq<string>, last: string,
      plan: Plan)
    requires PlanHolds(h, n, ip, reserved, front, plan) && last in reserved
    requires PlanPort(h, n, ip, plan, reserved[last]).Success?
    ensures PlanHolds(h, n, ip, reserved, front + [last], PlanPort(h, n, ip, plan, reserved[last]).value)
  {
    var port, next := reserved[last], PlanPort(h, n, ip, plan, reserved[last]).value;
    var more := PortAdds(h, n, ip, plan, port);
    forall name | name in front && name in reserved ensures PortPlanned(h, n, ip, reserved[name], next.rules) {
      StillPlanned(h, n, ip, reserved[name], plan.rules, more);
    }
    forall r | r in next.rules
      ensures exists name ::
                name in front + [last] && name in reserved && RuleForPort(h, n, ip, reserved[name], r)
    {
      if r in more {
        assert last in front + [last] && RuleForPort(h, n, ip, reserved[last], r);
      } else {
        var name :| name in front && name in reserved && RuleForPort(h, n, ip, reserved[name], r);
        assert name in front + [last];
      }
    }
  }

  /** What one port adds to a plan. */
  lemma PortAdds(h: Host, n: Names, ip: string, plan: Plan, port: Port) returns (more: seq<Rule>)
    requires CacheLeads(h, ip, plan.cache) && PlanPort(h, n, ip, plan, port).Success?
    ensures var next := PlanPort(h, n, ip, plan, port).value;
            && CacheLeads(h, ip, next.cache) && next.rules == plan.rules + more
            && PortPlanned(h, n, ip, port, next.rules) && forall r :: r in more ==> RuleForPort(h, n, ip, port, r)
  {
    var iface := Ask(plan.cache, port.hostIP, h.interfaceByIP).value;
    assert Leads(h, ip, port.hostIP, iface);
    if h.isLoopback(port.hostIP) == Some(false) {
      more := ForwardRules(n, port, iface, ip);
    } else {
      var dst := Ask(plan.cache[port.hostIP := iface], ip, h.routingInterfaceByIP).value;
      assert Leads(h, ip, ip, dst);
      more := LoopbackRules(n, port, iface, dst, ip);
    }
  }

  lemma StillPlanned(h: Host, n: Names, ip: string, port: Port, rules: seq<Rule>, more: seq<Rule>)
    requires PortPlanned(h, n, ip, port, rules)
    ensures PortPlanned(h, n, ip, port, rules + more)
  {
    match h.isLoopback(port.hostIP)
    case Some(false) =>
      var iface :| Leads(h, ip, port.hostIP, iface) && forall r :: r in ForwardRules(n, port, iface, ip) ==> r in rules;
      assert forall r :: r in ForwardRules(n, port, iface, ip) ==> r in rules + more;
    case Some(true) =>
      var iface, dst :| Leads(h, ip, port.hostIP, iface) && Leads(h, ip, ip, dst)
        && forall r :: r in LoopbackRules(n, port, iface, dst, ip) ==> r in rules;
      assert forall r :: r in LoopbackRules(n, port, iface, dst, ip) ==> r in rules + more;
  }

  // ---- When a plan can be made -------------------------------------------------------------

  /** The port's address is one of the host's and, if it is a loopback address, can be sent on to the task. */
  predicate Servable(h: Host, ip: string, port: Port) {
    && h.interfaceByIP(port.hostIP).Some? && h.isLoopback(port.hostIP).Some?
    && (h.isLoopback(port.hostIP).value ==>
          h.routingInterfaceByIP(ip).Some? && h.loopbackSupported(h.routingInterfaceByIP(ip).value))
  }

  /** What is cached is what would be answered, the task's address not being one of the host's. */
  ghost predicate CacheTrue(h: Host, ip: string, cache: map<string, string>) {
    forall a :: a in cache ==> (if a == ip then h.routingInterfaceByIP(ip) else h.interfaceByIP(a)) == Some(cache[a])
  }

  /** A plan can be made exactly if each reserved port of the labels can be served. */
  lemma {:induction false} PlannedIff(h: Host, n: Names, ip: string, reserved: map<string, Port>, labels: seq<string>)
    requires forall name :: name in reserved ==> reserved[name].hostIP != ip
    ensures PlanPorts(h, n, ip, reserved, labels).Success? <==>
            forall name :: name in labels && name in reserved ==> Servable(h, ip, reserved[name])
    ensures PlanPorts(h, n, ip, reserved, labels).Success? ==>
              CacheTrue(h, ip, PlanPorts(h, n, ip, reserved, labels).value.cache)
  {
    if labels != [] {
      var front, last := labels[..|labels| - 1], labels[|labels| - 1];
      PlannedIff(h, n, ip, reserved, front);
      assert labels == front + [last];
      assert forall name :: name in labels <==> name in front || name == last;
    }
  }

  // ---- What the kernel accepts -------------------------------------------------------------

  /** The chains of a plan's rules that are not the plan's own: built-in ones and those Setup makes. */
  function Provided(n: Names): set<Key> {
    {(n.nat_, n.output), (n.nat_, n.postrouting), (n.nat_, n.nomadPrerouting), (n.filter, n.nomadForward)}
  }

  /** Every rule is for a chain that is provided or that the plan makes. */
  ghost predicate ChainsPlanned(n: Names, plan: Plan) {
    && (forall c :: c in plan.chains ==> c in LoopbackChains(n))
    && (forall r :: r in plan.rules ==>
          r.position <= 1 && (RuleKey(r) in Provided(n) || Makes(plan.chains, RuleKey(r))))
  }

  ghost predicate Makes(cs: seq<Chain>, key: Key) {
    exists c :: c in cs && ChainKey(c) == key
  }

  lemma {:induction false} PlanMakesChains(h: Host, n: Names, ip: string, reserved: map<string, Port>,
      labels: seq<string>)
    requires PlanPorts(h, n, ip, reserved, labels).Success?
    ensures ChainsPlanned(n, PlanPorts(h, n, ip, reserved, labels).value)
  {
    if labels != [] {
      var front, last := labels[..|labels| - 1], labels[|labels| - 1];
      PlanMakesChains(h, n, ip, reserved, front);
      if last in reserved {
        PortMakesChains(h, n, ip, PlanPorts(h, n, ip, reserved, front).value, reserved[last]);
      }
    }
  }

  lemma PortMakesChains(h: Host, n: Names, ip: string, plan: Plan, port: Port)
    requires ChainsPlanned(n, plan) && PlanPort(h, n, ip, plan, port).Success?
    ensures ChainsPlanned(n, PlanPort(h, n, ip, plan, port).value)
  {
    var next, cs := PlanPort(h, n, ip, plan, port).value, LoopbackChains(n);
    forall key | Makes(plan.chains, key) ensures Makes(next.chains, key) {
      var c :| c in plan.chains && ChainKey(c) == key;
      assert c in next.chains;
    }
    if h.isLoopback(port.hostIP) == Some(true) {
      assert cs[0] in next.chains && cs[1] in next.chains;
      assert Makes(next.chains, (n.nat_, n.nomadOutput)) && Makes(next.chains, (n.nat_, n.nomadPostrouting));
    }
  }

  /** A plan is not refused by a kernel that has the built-in chains and those of Setup. */
  lemma PlanAccepted(h: Host, n: Names, ip: string, reserved: map<string, Port>, labels: seq<string>, t: Tables)
    requires PlanPorts(h, n, ip, reserved, labels).Success? && Provided(n) <= t.Keys
    requires n.nomadOutput != n.nomadPostrouting
    ensures var p := PlanPorts(h, n, ip, reserved, labels).value;
            AddAll(t, Firsts(ChainHash, p.chains), Firsts(RuleHash, p.rules)).Some?
  {
    var plan := PlanPorts(h, n, ip, reserved, labels).value;
    PlanMakesChains(h, n, ip, reserved, labels);
    var cs, rs := Firsts(ChainHash, plan.chains), Firsts(RuleHash, plan.rules);
    FirstsDistinct(RuleHash, plan.rules);
    forall c, d | c in plan.chains && d in plan.chains && ChainHash(c) == ChainHash(d) ensures c == d {
      SamePrefix(n.nat_, c.name, d.name);
    }
    NothingLostIff(ChainHash, plan.chains);
    ChainsByName(t, cs);
    forall r | r in rs ensures RuleKey(r) in EnsureChains(t, cs) && r.position <= 1 {
      assert r in plan.rules;
    }
    RulesAccepted(EnsureChains(t, cs), rs);
  }

  /** Nor is Setup by one that has the built-in chains. */
  lemma SetupAccepted(n: Names, t: Tables)
    requires PlainNames(n) && (n.nat_, n.prerouting) in t && (n.filter, n.forward) in t
    ensures AddAll(t, Firsts(ChainHash, SetupChains(n)), Firsts(RuleHash, SetupRules(n))).Some?
    ensures forall u :: AddAll(t, Firsts(ChainHash, SetupChains(n)), Firsts(RuleHash, SetupRules(n))) == Some(u) ==>
              t.Keys <= u.Keys && (n.nat_, n.nomadPrerouting) in u && (n.filter, n.nomadForward) in u
  {
    var cs, rs := SetupChains(n), Firsts(RuleHash, SetupRules(n));
    assert ChainHash(cs[0]) == Places(n)[4] && ChainHash(cs[1]) == Places(n)[5];
    FirstsKeepsAllIffDistinct(ChainHash, cs);
    FirstsDistinct(RuleHash, SetupRules(n));
    ChainsByName(t, cs);
    assert cs[0] in cs && cs[1] in cs;
    forall r | r in rs ensures RuleKey(r) in EnsureChains(t, cs) && r.position <= 1 {
      assert r in SetupRules(n);
    }
    RulesAccepted(EnsureChains(t, cs), rs);
    forall u | AddAll(t, cs, rs) == Some(u) ensures EnsureChains(t, cs).Keys == u.Keys {
      RulesByChain(EnsureChains(t, cs), rs, u);
    }
  }

  // ---- What is served ----------------------------------------------------------------------

  /** Connections from outside to the host's address and port go to the task's, and are let pass. */
  ghost predicate ServedFromOutside(n: Names, ip: string, port: Port, iface: string, u: Tables)
    requires port.to >= 0
  {
    && (forall p: Packet ::
          p.protocol == "tcp" && p.destination == port.hostIP && p.arrivesOn == iface && p.port == port.value ==>
            Does(u, (n.nat_, n.nomadPrerouting), p, Fate("DNAT", Some((ip, port.to)))))
    && (forall p: Packet ::
          p.protocol == "tcp" && p.destination == ip && p.state == "NEW" && p.port == port.to ==>
            Does(u, (n.filter, n.nomadForward), p, Fate("ACCEPT", None)))
  }

  /**
   * What the host sends from its loopback address to the port is seen by the driver's chains, goes
   * to the task, and takes on the address of the device on its way there.
   */
  ghost predicate ServedFromLoopback(n: Names, ip: string, port: Port, iface: string, dst: string, u: Tables)
    requires port.to >= 0
  {
    && (forall p: Packet ::
          p.protocol == "tcp" && p.source == port.hostIP && p.leavesBy == iface && p.port == port.value ==>
            Does(u, (n.nat_, n.nomadOutput), p, Fate("DNAT", Some((ip, port.to)))))
    && (forall p: Packet ::
          p.leavesBy == dst && p.sourceType == "LOCAL" && p.destinationType == "UNICAST" ==>
            Does(u, (n.nat_, n.nomadPostrouting), p, Fate("MASQUERADE", None)))
    && (forall p: Packet :: Does(u, (n.nat_, n.output), p, Fate(n.nomadOutput, None)))
    && (forall p: Packet :: Does(u, (n.nat_, n.postrouting), p, Fate(n.nomadPostrouting, None)))
  }

  ghost predicate Served(h: Host, n: Names, ip: string, port: Port, u: Tables)
    requires port.to >= 0
  {
    match h.isLoopback(port.hostIP)
    case None => false
    case Some(false) => exists iface :: Leads(h, ip, port.hostIP, iface) && ServedFromOutside(n, ip, port, iface, u)
    case Some(true) =>
      exists iface, dst ::
        Leads(h, ip, port.hostIP, iface) && Leads(h, ip, ip, dst) && ServedFromLoopback(n, ip, port, iface, dst, u)
  }

  /** The rule is on its chain. */
  predicate Present(u: Tables, r: Rule) {
    RuleKey(r) in u && r.spec in u[RuleKey(r)]
  }

  lemma OutsideServed(n: Names, ip: string, port: Port, iface: string, u: Tables)
    requires port.value >= 0 && port.to >= 0
    requires forall r :: r in ForwardRules(n, port, iface, ip) ==> Present(u, r)
    ensures ServedFromOutside(n, ip, port, iface, u)
  {
    var rs := ForwardRules(n, port, iface, ip);
    assert rs[0] in rs && rs[1] in rs;
    PreroutingMeans(n, port, iface, ip);
    ForwardMeans(n, port, iface, ip);
    assert Present(u, rs[0]) && Present(u, rs[1]);
  }

  lemma LoopbackServed(n: Names, ip: string, port: Port, iface: string, dst: string, u: Tables)
    requires port.value >= 0 && port.to >= 0
    requires forall r :: r in LoopbackRules(n, port, iface, dst, ip) ==> Present(u, r)
    ensures ServedFromLoopback(n, ip, port, iface, dst, u)
  {
    var rs := LoopbackRules(n, port, iface, dst, ip);
    assert rs[0] in rs && rs[1] in rs && rs[2] in rs && rs[3] in rs;
    OutputMeans(n, port, iface, dst, ip);
    MasqueradeMeans(n, port, iface, dst, ip);
    JumpMeans(n.nomadOutput);
    JumpMeans(n.nomadPostrouting);
    assert Present(u, rs[0]) && Present(u, rs[1]) && Present(u, rs[2]) && Present(u, rs[3]);
  }

  lemma PlannedIsServed(h: Host, n: Names, ip: string, port: Port, rules: seq<Rule>, u: Tables)
    requires PortPlanned(h, n, ip, port, rules) && port.value >= 0 && port.to >= 0
    requires forall r :: r in rules ==> Present(u, r)
    ensures Served(h, n, ip, port, u)
  {
    match h.isLoopback(port.hostIP)
    case Some(false) =>
      var iface :| Leads(h, ip, port.hostIP, iface) && forall r :: r in ForwardRules(n, port, iface, ip) ==> r in rules;
      OutsideServed(n, ip, port, iface, u);
    case Some(true) =>
      var iface, dst :| Leads(h, ip, port.hostIP, iface) && Leads(h, ip, ip, dst)
        && forall r :: r in LoopbackRules(n, port, iface, dst, ip) ==> r in rules;
      LoopbackServed(n, ip, port, iface, dst, u);
  }

  /** After a Configure that succeeded every reserved port of its labels is served. */
  lemma PortsServed(h: Host, n: Names, ip: string, reserved: map<string, Port>, labels: seq<string>, t: Tables,
      u: Tables)
    requires PlainNames(n) && PlainInput(h, ip, reserved) && PlanPorts(h, n, ip, reserved, labels).Success?
    requires var p := PlanPorts(h, n, ip, reserved, labels).value;
             AddAll(t, Firsts(ChainHash, p.chains), Firsts(RuleHash, p.rules)) == Some(u)
    ensures forall name :: name in labels && name in reserved ==> Served(h, n, ip, reserved[name], u)
  {
    var plan := PlanPorts(h, n, ip, reserved, labels).value;
    ConfiguredRulesPresent(h, n, ip, reserved, labels, t, u);
    PlanHoldsAll(h, n, ip, reserved, labels);
    forall name | name in labels && name in reserved ensures Served(h, n, ip, reserved[name], u) {
      PlannedIsServed(h, n, ip, reserved[name], plan.rules, u);
    }
  }

  // ---- And nothing else --------------------------------------------------------------------

  /** A connection from outside to the host's address and port, on an interface of that address. */
  ghost predicate IsFor(h: Host, ip: string, port: Port, p: Packet) {
    && h.isLoopback(port.hostIP) == Some(false) && Leads(h, ip, port.hostIP, p.arrivesOn)
    && p.destination == port.hostIP && p.protocol == "tcp" && p.port == port.value
  }

  /** A connection from the host's loopback address to the port, out through an interface of that address. */
  ghost predicate IsFromHere(h: Host, ip: string, port: Port, p: Packet) {
    && h.isLoopback(port.hostIP) == Some(true) && Leads(h, ip, port.hostIP, p.leavesBy)
    && p.source == port.hostIP && p.protocol == "tcp" && p.port == port.value
  }

  /** A new connection to the task's side of the port. */
  ghost predicate IsToTask(h: Host, ip: string, port: Port, p: Packet) {
    && h.isLoopback(port.hostIP) == Some(false) && p.destination == ip && p.protocol == "tcp" && p.state == "NEW"
    && p.port == port.to
  }

  /** The rule was not on the chain before. */
  predicate IsNew(t: Tables, u: Tables, key: Key, spec: Spec) {
    key in u && spec in u[key] && (key in t ==> spec !in t[key])
  }

  lemma NewRuleIsForPort(h: Host, n: Names, ip: string, reserved: map<string, Port>, labels: seq<string>, t: Tables,
      u: Tables, key: Key, spec: Spec)
    returns (name: string, r: Rule)
    requires PlanPorts(h, n, ip, reserved, labels).Success?
    requires var p := PlanPorts(h, n, ip, reserved, labels).value;
             AddAll(t, Firsts(ChainHash, p.chains), Firsts(RuleHash, p.rules)) == Some(u)
    requires IsNew(t, u, key, spec)
    ensures name in labels && name in reserved && RuleForPort(h, n, ip, reserved[name], r)
    ensures RuleKey(r) == key && r.spec == spec
  {
    var plan := PlanPorts(h, n, ip, reserved, labels).value;
    NewFromRequest(t, Firsts(ChainHash, plan.chains), Firsts(RuleHash, plan.rules), u, key, spec);
    FirstsDistinct(RuleHash, plan.rules);
    PlanHoldsAll(h, n, ip, reserved, labels);
    r :| r in plan.rules && RuleKey(r) == key && r.spec == spec;
    name :| name in labels && name in reserved && RuleForPort(h, n, ip, reserved[name], r);
  }

  lemma OutsideRuleTells(h: Host, n: Names, ip: string, port: Port, iface: string, r: Rule, p: Packet)
    requires NamesDistinct(n) && port.value >= 0 && port.to >= 0 && h.isLoopback(port.hostIP) == Some(false)
    requires Leads(h, ip, port.hostIP, iface) && r in ForwardRules(n, port, iface, ip) && Takes(r.spec, p)
    ensures RuleKey(r) == (n.nat_, n.nomadPrerouting) ==>
              IsFor(h, ip, port, p) && Means(r.spec, Fate("DNAT", Some((ip, port.to))))
    ensures RuleKey(r) == (n.filter, n.nomadForward) ==>
              IsToTask(h, ip, port, p) && Means(r.spec, Fate("ACCEPT", None))
    ensures RuleKey(r) != (n.nat_, n.nomadOutput)
  {
    var rs := ForwardRules(n, port, iface, ip);
    ChainsApart(n);
    if r == rs[0] {
      PreroutingMeans(n, port, iface, ip);
    } else {
      ForwardMeans(n, port, iface, ip);
    }
  }

  lemma LoopbackRuleTells(h: Host, n: Names, ip: string, port: Port, iface: string, dst: string, r: Rule, p: Packet)
    requires NamesDistinct(n) && port.value >= 0 && port.to >= 0 && h.isLoopback(port.hostIP) == Some(true)
    requires Leads(h, ip, port.hostIP, iface) && r in LoopbackRules(n, port, iface, dst, ip) && Takes(r.spec, p)
    ensures RuleKey(r) == (n.nat_, n.nomadOutput) ==>
              IsFromHere(h, ip, port, p) && Means(r.spec, Fate("DNAT", Some((ip, port.to))))
    ensures RuleKey(r) != (n.nat_, n.nomadPrerouting) && RuleKey(r) != (n.filter, n.nomadForward)
  {
    var rs := LoopbackRules(n, port, iface, dst, ip);
    ChainsApart(n);
    if r == rs[3] {
      OutputMeans(n, port, iface, dst, ip);
    }
  }

  /** What a port's rule on one of the task chains does, and to what. */
  lemma RuleTells(h: Host, n: Names, ip: string, port: Port, r: Rule, p: Packet)
    requires NamesDistinct(n) && port.value >= 0 && port.to >= 0 && RuleForPort(h, n, ip, port, r) && Takes(r.spec, p)
    ensures RuleKey(r) == (n.nat_, n.nomadPrerouting) ==>
              IsFor(h, ip, port, p) && Means(r.spec, Fate("DNAT", Some((ip, port.to))))
    ensures RuleKey(r) == (n.nat_, n.nomadOutput) ==>
              IsFromHere(h, ip, port, p) && Means(r.spec, Fate("DNAT", Some((ip, port.to))))
    ensures RuleKey(r) == (n.filter, n.nomadForward) ==>
              IsToTask(h, ip, port, p) && Means(r.spec, Fate("ACCEPT", None))
  {
    match h.isLoopback(port.hostIP)
    case Some(false) =>
      var iface :| Leads(h, ip, port.hostIP, iface) && r in ForwardRules(n, port, iface, ip);
      OutsideRuleTells(h, n, ip, port, iface, r, p);
    case Some(true) =>
      var iface, dst :| Leads(h, ip, port.hostIP, iface) && Leads(h, ip, ip, dst)
        && r in LoopbackRules(n, port, iface, dst, ip);
      LoopbackRuleTells(h, n, ip, port, iface, dst, r, p);
  }

  lemma ChainsApart(n: Names)
    requires NamesDistinct(n)
    ensures n.nat_ != n.filter && n.output != n.nomadPrerouting && n.postrouting != n.nomadPrerouting
    ensures n.nomadPostrouting != n.nomadPrerouting && n.nomadOutput != n.nomadPrerouting
    ensures n.output != n.nomadOutput && n.postrouting != n.nomadOutput && n.nomadOutput != n.nomadPostrouting
  {
    var nats := [n.prerouting, n.output, n.postrouting, n.nomadPrerouting, n.nomadOutput, n.nomadPostrouting];
    assert nats[1] != nats[3] && nats[2] != nats[3] && nats[3] != nats[5] && nats[3] != nats[4];
    assert nats[1] != nats[4] && nats[2] != nats[4] && nats[4] != nats[5];
  }

  /**
   * A rule that Configure added to one of the task chains takes only packets of a reserved port of
   * its labels, and does with them what that port is for. Ports that are not reserved add nothing.
   */
  lemma OnlyReservedServed(h: Host, n: Names, ip: string, reserved: map<string, Port>, labels: seq<string>, t: Tables,
      u: Tables, key: Key, spec: Spec, p: Packet)
    returns (name: string)
    requires NamesDistinct(n) && PlainInput(h, ip, reserved) && PlanPorts(h, n, ip, reserved, labels).Success?
    requires var plan := PlanPorts(h, n, ip, reserved, labels).value;
             AddAll(t, Firsts(ChainHash, plan.chains), Firsts(RuleHash, plan.rules)) == Some(u)
    requires IsNew(t, u, key, spec) && Takes(spec, p)
    ensures name in labels && name in reserved
    ensures key == (n.nat_, n.nomadPrerouting) ==>
              IsFor(h, ip, reserved[name], p) && Means(spec, Fate("DNAT", Some((ip, reserved[name].to))))
    ensures key == (n.nat_, n.nomadOutput) ==>
              IsFromHere(h, ip, reserved[name], p) && Means(spec, Fate("DNAT", Some((ip, reserved[name].to))))
    ensures key == (n.filter, n.nomadForward) ==>
              IsToTask(h, ip, reserved[name], p) && Means(spec, Fate("ACCEPT", None))
  {
    var r;
    name, r := NewRuleIsForPort(h, n, ip, reserved, labels, t, u, key, spec);
    RuleTells(h, n, ip, reserved[name], r, p);
  }

  /** No two reserved ports of the labels take one port of one address to different ports of the task. */
  predicate PortsAgree(reserved: map<string, Port>, labels: seq<string>, port: Port) {
    forall name :: name in labels && name in reserved ==>
      reserved[name].hostIP == port.hostIP && reserved[name].value == port.value ==> reserved[name].to == port.to
  }

  /**
   * What becomes of a connection to a reserved port, whichever rule of the chain it meets first: if
   * no rule there took it before and no other label has the port, it goes to the task's port. The
   * task's own address is not one of the host's.
   */
  lemma ConnectionSettled(h: Host, n: Names, ip: string, reserved: map<string, Port>, labels: seq<string>, t: Tables,
      u: Tables, name: string, p: Packet)
    requires NamesDistinct(n) && PlainNames(n) && PlainInput(h, ip, reserved)
    requires PlanPorts(h, n, ip, reserved, labels).Success?
    requires var plan := PlanPorts(h, n, ip, reserved, labels).value;
             AddAll(t, Firsts(ChainHash, plan.chains), Firsts(RuleHash, plan.rules)) == Some(u)
    requires name in labels && name in reserved && PortsAgree(reserved, labels, reserved[name])
    requires IsFor(h, ip, reserved[name], p) && reserved[name].hostIP != ip
    requires (n.nat_, n.nomadPrerouting) in t ==>
               forall spec :: spec in t[(n.nat_, n.nomadPrerouting)] ==> !Takes(spec, p)
    ensures (n.nat_, n.nomadPrerouting) in u
    ensures Settles(u[(n.nat_, n.nomadPrerouting)], p, Fate("DNAT", Some((ip, reserved[name].to))))
  {
    var key, port := (n.nat_, n.nomadPrerouting), reserved[name];
    var fate := Fate("DNAT", Some((ip, port.to)));
    PortsServed(h, n, ip, reserved, labels, t, u);
    assert Served(h, n, ip, port, u);
    var iface :| Leads(h, ip, port.hostIP, iface) && ServedFromOutside(n, ip, port, iface, u);
    assert p.arrivesOn == iface;
    assert Does(u, key, p, fate);
    forall spec | spec in u[key] && Takes(spec, p) ensures Means(spec, fate) {
      var other := OnlyReservedServed(h, n, ip, reserved, labels, t, u, key, spec, p);
    }
  }

  // ---- Setup and Configure -----------------------------------------------------------------

  /** After Setup everything that comes in and everything that passes through is seen by the driver's chains. */
  lemma SetupSteers(n: Names, t: Tables, u: Tables)
    requires n.nat_ + n.prerouting + Join(["-j", n.nomadPrerouting]) !=
             n.filter + n.forward + Join(["-j", n.nomadForward])
    requires AddAll(t, Firsts(ChainHash, SetupChains(n)), Firsts(RuleHash, SetupRules(n))) == Some(u)
    ensures forall p: Packet :: Does(u, (n.nat_, n.prerouting), p, Fate(n.nomadPrerouting, None))
    ensures forall p: Packet :: Does(u, (n.filter, n.forward), p, Fate(n.nomadForward, None))
  {
    var rs := SetupRules(n);
    assert HashDistinct(RuleHash, rs);
    FirstsKeepsAllIffDistinct(RuleHash, rs);
    AddedRulesPresent(t, Firsts(ChainHash, SetupChains(n)), rs, u);
    assert rs[0] in rs && rs[1] in rs;
    JumpMeans(n.nomadPrerouting);
    JumpMeans(n.nomadForward);
  }

  lemma DefaultSetupSteers(t: Tables, u: Tables)
    requires AddAll(t, Firsts(ChainHash, SetupChains(DEFAULT_NAMES)), Firsts(RuleHash, SetupRules(DEFAULT_NAMES))) ==
             Some(u)
    ensures forall p: Packet :: Does(u, ("nat", "PREROUTING"), p, Fate("NOMAD_VT_PRT", None))
    ensures forall p: Packet :: Does(u, ("filter", "FORWARD"), p, Fate("NOMAD_VT_FW", None))
  {
    var n := DEFAULT_NAMES;
    assert ["-j", n.nomadPrerouting][1..] == [n.nomadPrerouting] && ["-j", n.nomadForward][1..] == [n.nomadForward];
    JoinOne(n.nomadPrerouting);
    JoinOne(n.nomadForward);
    assert |n.nat_ + n.prerouting + Join(["-j", n.nomadPrerouting])| == 27;
    assert |n.filter + n.forward + Join(["-j", n.nomadForward])| == 26;
    SetupSteers(n, t, u);
  }

  /** What the rule does with the packet is what some reserved port of the labels is for. */
  ghost predicate ForReserved(h: Host, n: Names, ip: string, reserved: map<string, Port>, labels: seq<string>,
      key: Key, spec: Spec, p: Packet)
  {
    exists name ::
      && name in labels && name in reserved && reserved[name].to >= 0
      && (key == (n.nat_, n.nomadPrerouting) ==>
            IsFor(h, ip, reserved[name], p) && Means(spec, Fate("DNAT", Some((ip, reserved[name].to)))))
      && (key == (n.nat_, n.nomadOutput) ==>
            IsFromHere(h, ip, reserved[name], p) && Means(spec, Fate("DNAT", Some((ip, reserved[name].to)))))
      && (key == (n.filter, n.nomadForward) ==>
            IsToTask(h, ip, reserved[name], p) && Means(spec, Fate("ACCEPT", None)))
  }

  lemma NewIsForReserved(h: Host, n: Names, ip: string, reserved: map<string, Port>, labels: seq<string>, t: Tables,
      u: Tables)
    requires NamesDistinct(n) && PlainInput(h, ip, reserved) && PlanPorts(h, n, ip, reserved, labels).Success?
    requires var plan := PlanPorts(h, n, ip, reserved, labels).value;
             AddAll(t, Firsts(ChainHash, plan.chains), Firsts(RuleHash, plan.rules)) == Some(u)
    ensures forall key, spec, p :: IsNew(t, u, key, spec) && Takes(spec, p) ==>
              ForReserved(h, n, ip, reserved, labels, key, spec, p)
  {
    forall key, spec, p | IsNew(t, u, key, spec) && Takes(spec, p)
      ensures ForReserved(h, n, ip, reserved, labels, key, spec, p)
    {
      var name := OnlyReservedServed(h, n, ip, reserved, labels, t, u, key, spec, p);
    }
  }

  /** The call itself. */
  method ConfigureServes(f: VirtTables, reserved: map<string, Port>, labels: seq<string>, ip: string)
    returns (result: Result<Removal, Refusal>)
    requires NamesDistinct(f.names) && PlainNames(f.names) && PlainInput(f.host, ip, reserved)
    modifies f.ipt`tables, f.ipt`calls
    ensures old(f.ipt.Healthy()) && Provided(f.names) <= old(f.ipt.tables).Keys &&
            (forall name :: name in reserved ==> reserved[name].hostIP != ip) ==>
              (result.Success? <==>
               forall name :: name in labels && name in reserved ==> Servable(f.host, ip, reserved[name]))
    ensures result.Success? ==>
              forall name :: name in labels && name in reserved ==>
                Served(f.host, f.names, ip, reserved[name], f.ipt.tables)
    ensures result.Success? ==>
              forall key, spec, p :: IsNew(old(f.ipt.tables), f.ipt.tables, key, spec) && Takes(spec, p) ==>
                ForReserved(f.host, f.names, ip, reserved, labels, key, spec, p)
  {
    ghost var before := f.ipt.tables;
    ghost var plan;
    if PlanPorts(f.host, f.names, ip, reserved, labels).Success? && Provided(f.names) <= before.Keys {
      ChainsApart(f.names);
      PlanAccepted(f.host, f.names, ip, reserved, labels, before);
    }
    if forall name :: name in reserved ==> reserved[name].hostIP != ip {
      PlannedIff(f.host, f.names, ip, reserved, labels);
    }
    result, plan := f.Configure(Some(Some(reserved)), Some(labels), ip);
    if result.Success? {
      PortsServed(f.host, f.names, ip, reserved, labels, before, f.ipt.tables);
      NewIsForReserved(f.host, f.names, ip, reserved, labels, before, f.ipt.tables);
    }
  }
}
