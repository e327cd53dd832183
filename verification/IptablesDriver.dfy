/** The driver's filter: setup, Configure and Teardown (net/filter/iptables/tables.go). */
module IptablesDriver {
  import opened Wrappers
  import opened Text
  import opened IptablesRequest
  import opened IptablesState
  import opened IptablesRuns

  datatype Names = Names(
    nat_: string, filter: string,
    prerouting: string, forward: string, output: string, postrouting: string,
    nomadPrerouting: string, nomadForward: string, nomadOutput: string, nomadPostrouting: string)

  const DEFAULT_NAMES := Names("nat", "filter", "PREROUTING", "FORWARD", "OUTPUT", "POSTROUTING",
                               "NOMAD_VT_PRT", "NOMAD_VT_FW", "NOMAD_VT_OUT", "NOMAD_VT_PST")

  function LayoutOf(n: Names): Layout {
    Layout({(n.nat_, n.nomadPrerouting), (n.nat_, n.nomadOutput), (n.filter, n.nomadForward)},
           (n.nat_, n.nomadPostrouting),
           map[(n.nat_, n.prerouting) := ["-j", n.nomadPrerouting],
               (n.filter, n.forward) := ["-j", n.nomadForward],
               (n.nat_, n.output) := ["-j", n.nomadOutput],
               (n.nat_, n.postrouting) := ["-j", n.nomadPostrouting]])
  }

  /** No two of the chains the driver uses in a table share a name. */
  predicate NamesDistinct(n: Names) {
    var nats := [n.prerouting, n.output, n.postrouting, n.nomadPrerouting, n.nomadOutput, n.nomadPostrouting];
    && n.nat_ != n.filter && n.forward != n.nomadForward
    && forall i, j :: 0 <= i < j < |nats| ==> nats[i] != nats[j]
  }

  lemma LayoutValid(n: Names)
    requires NamesDistinct(n)
    ensures LayoutOf(n).Valid()
  {
    var nats := [n.prerouting, n.output, n.postrouting, n.nomadPrerouting, n.nomadOutput, n.nomadPostrouting];
    assert nats[0] == n.prerouting && nats[1] == n.output && nats[2] == n.postrouting
           && nats[3] == n.nomadPrerouting && nats[4] == n.nomadOutput && nats[5] == n.nomadPostrouting;
  }

  lemma DefaultNamesDistinct()
    ensures NamesDistinct(DEFAULT_NAMES)
  {
  }

  // ---- The kernel's side -------------------------------------------------------------------

  datatype Outcome = Done | NotExist | Failed

  /**
   * The iptables command. The k-th call fails, changing nothing, when faults(k); a call can
   * also be refused for what it asks.
   */
  class IPTables {
    const faults: nat -> bool
    var tables: Tables
    var calls: nat

    constructor (tables: Tables, faults: nat -> bool)
      ensures this.tables == tables && this.faults == faults && calls == 0
    {
      this.tables, this.faults, this.calls := tables, faults, 0;
    }

    /** No call fails from here on but for what it asks. */
    ghost predicate Healthy()
      reads this`calls
    {
      forall k :: k >= calls ==> !faults(k)
    }

    method Faulty() returns (fault: bool)
      modifies this`calls
      ensures fault == faults(old(calls)) && calls == old(calls) + 1
    {
      fault := faults(calls);
      calls := calls + 1;
    }

    method ChainExists(c: Chain) returns (exists_: bool, err: bool)
      modifies this`calls
      ensures calls > old(calls) && (old(Healthy()) ==> !err)
      ensures !err ==> exists_ == (ChainKey(c) in tables)
    {
      err := Faulty();
      exists_ := ChainKey(c) in tables;
    }

    method NewChain(c: Chain) returns (err: bool)
      modifies this`calls, this`tables
      ensures calls > old(calls) && (old(Healthy()) ==> (err <==> ChainKey(c) in old(tables)))
      ensures !err ==> ChainKey(c) !in old(tables)
      ensures tables == if err then old(tables) else old(tables)[ChainKey(c) := []]
    {
      err := Faulty();
      err := err || ChainKey(c) in tables;
      if !err {
        tables := tables[ChainKey(c) := []];
      }
    }

    method InsertUnique(r: Rule) returns (err: bool)
      requires r.position > 0
      modifies this`calls, this`tables
      ensures calls > old(calls) && (old(Healthy()) ==> (err <==> EnsureRule(old(tables), r).None?))
      ensures if err then tables == old(tables) else EnsureRule(old(tables), r) == Some(tables)
    {
      err := Faulty();
      if err || RuleKey(r) !in tables {
        return true;
      }
      var s := tables[RuleKey(r)];
      if r.spec in s {
        assert tables[RuleKey(r) := s] == tables;
        return;
      }
      if r.position > |s| + 1 {
        return true;
      }
      tables := tables[RuleKey(r) := s[..r.position - 1] + [r.spec] + s[r.position - 1..]];
    }

    method AppendUnique(r: Rule) returns (err: bool)
      requires r.position == 0
      modifies this`calls, this`tables
      ensures calls > old(calls) && (old(Healthy()) ==> (err <==> EnsureRule(old(tables), r).None?))
      ensures if err then tables == old(tables) else EnsureRule(old(tables), r) == Some(tables)
    {
      err := Faulty();
      if err || RuleKey(r) !in tables {
        return true;
      }
      var s := tables[RuleKey(r)];
      if r.spec in s {
        assert tables[RuleKey(r) := s] == tables;
        return;
      }
      tables := tables[RuleKey(r) := s + [r.spec]];
    }

    method DeleteIfExists(r: Rule) returns (outcome: Outcome)
      modifies this`calls, this`tables
      ensures calls > old(calls) && (old(Healthy()) ==> !outcome.Failed?)
      ensures tables == if outcome.Failed? then old(tables) else DropRule(old(tables), r)
    {
      var fault := Faulty();
      if fault {
        return Failed;
      }
      if RuleKey(r) !in tables {
        return NotExist;
      }
      tables := tables[RuleKey(r) := Without(tables[RuleKey(r)], r.spec)];
      return Done;
    }
  }

  // ---- Planning a request ------------------------------------------------------------------

  datatype Port = Port(hostIP: string, value: int, to: int)

  datatype Refusal =
    | NoResources | NoConfig | NoInterface | BadAddress | LoopbackNotEnabled | CommandFailed

  /** The answers of the host to the driver's questions. */
  datatype Host = Host(
    interfaceByIP: string -> Option<string>,
    routingInterfaceByIP: string -> Option<string>,
    isLoopback: string -> Option<bool>, // None: the address does not parse
    loopbackSupported: string -> bool)

  datatype Plan = Plan(cache: map<string, string>, chains: seq<Chain>, rules: seq<Rule>)

  function Destination(ip: string, port: Port): string {
    ip + ":" + Itoa(port.to)
  }

  function LoopbackChains(n: Names): seq<Chain> {
    [Chain(n.nat_, n.nomadOutput), Chain(n.nat_, n.nomadPostrouting)]
  }

  function LoopbackRules(n: Names, port: Port, iface: string, dst: string, ip: string): seq<Rule> {
    [Rule(n.nat_, n.output, 1, ["-j", n.nomadOutput], false),
     Rule(n.nat_, n.postrouting, 1, ["-j", n.nomadPostrouting], false),
     Rule(n.nat_, n.nomadPostrouting, 0,
          ["-o", dst, "-m", "addrtype", "--src-type", "LOCAL", "--dst-type", "UNICAST", "-j", "MASQUERADE"], false),
     Rule(n.nat_, n.nomadOutput, 0,
          ["-s", port.hostIP, "-o", iface, "-p", "tcp", "-m", "tcp", "--dport", Itoa(port.value),
           "-j", "DNAT", "--to-destination", Destination(ip, port)], true)]
  }

  function ForwardRules(n: Names, port: Port, iface: string, ip: string): seq<Rule> {
    [Rule(n.nat_, n.nomadPrerouting, 0,
          ["-d", port.hostIP, "-i", iface, "-p", "tcp", "-m", "tcp", "--dport", Itoa(port.value),
           "-j", "DNAT", "--to-destination", Destination(ip, port)], true),
     Rule(n.filter, n.nomadForward, 0,
          ["-d", ip, "-p", "tcp", "-m", "state", "--state", "NEW", "-m", "tcp", "--dport", Itoa(port.to), "-j",
           "ACCEPT"], true)]
  }

  function SetupChains(n: Names): seq<Chain> {
    [Chain(n.nat_, n.nomadPrerouting), Chain(n.filter, n.nomadForward)]
  }

  function SetupRules(n: Names): seq<Rule> {
    [Rule(n.nat_, n.prerouting, 1, ["-j", n.nomadPrerouting], false),
     Rule(n.filter, n.forward, 1, ["-j", n.nomadForward], false)]
  }

  /** A question asked through the cache. */
  function Ask(cache: map<string, string>, key: string, question: string -> Option<string>): Option<string> {
    if key in cache then Some(cache[key]) else question(key)
  }

  /** The plan with one more port: a forward, or for a loopback address a redirection on output. */
  function PlanPort(h: Host, n: Names, ip: string, plan: Plan, port: Port): Result<Plan, Refusal> {
    var iface := Ask(plan.cache, port.hostIP, h.interfaceByIP);
    if iface.None? then Failure(NoInterface)
    else
      var cache := plan.cache[port.hostIP := iface.value];
      var loopback := h.isLoopback(port.hostIP);
      if loopback.None? then Failure(BadAddress)
      else if !loopback.value then
        Success(Plan(cache, plan.chains, plan.rules + ForwardRules(n, port, iface.value, ip)))
      else
        var dst := Ask(cache, ip, h.routingInterfaceByIP);
        if dst.None? then Failure(NoInterface)
        else if !h.loopbackSupported(dst.value) then Failure(LoopbackNotEnabled)
        else Success(Plan(cache[ip := dst.value], plan.chains + LoopbackChains(n),
                          plan.rules + LoopbackRules(n, port, iface.value, dst.value, ip)))
  }

  /** Labels without a reserved port are passed over. */
  function PlanPorts(h: Host, n: Names, ip: string, reserved: map<string, Port>,
      labels: seq<string>): Result<Plan, Refusal>
  {
    if labels == [] then Success(Plan(map[], [], []))
    else
      var last := labels[|labels| - 1];
      var before := PlanPorts(h, n, ip, reserved, labels[..|labels| - 1]);
      if before.Failure? || last !in reserved then before else PlanPort(h, n, ip, before.value, reserved[last])
  }

  lemma {:induction false} PlansShaped(h: Host, n: Names, ip: string, reserved: map<string, Port>, labels: seq<string>)
    requires NamesDistinct(n)
    ensures var p := PlanPorts(h, n, ip, reserved, labels);
            p.Success? ==> Shaped(LayoutOf(n), p.value.chains, p.value.rules)
  {
    if labels != [] {
      var last := labels[|labels| - 1];
      PlansShaped(h, n, ip, reserved, labels[..|labels| - 1]);
      var before := PlanPorts(h, n, ip, reserved, labels[..|labels| - 1]);
      if before.Success? && last in reserved {
        PlanPortShaped(h, n, ip, before.value, reserved[last]);
      }
    }
  }

  lemma PlanPortShaped(h: Host, n: Names, ip: string, plan: Plan, port: Port)
    requires NamesDistinct(n) && Shaped(LayoutOf(n), plan.chains, plan.rules)
    ensures var p := PlanPort(h, n, ip, plan, port);
            p.Success? ==> Shaped(LayoutOf(n), p.value.chains, p.value.rules)
  {
    var iface := Ask(plan.cache, port.hostIP, h.interfaceByIP);
    if iface.Some? {
      var cache := plan.cache[port.hostIP := iface.value];
      var dst := Ask(cache, ip, h.routingInterfaceByIP);
      var cs, rs := LoopbackChains(n), if dst.Some? then LoopbackRules(n, port, iface.value, dst.value, ip) else [];
      var fs := ForwardRules(n, port, iface.value, ip);
      if dst.Some? {
        LoopbackShaped(n, port, iface.value, dst.value, ip);
      }
      ForwardShaped(n, port, iface.value, ip);
      ShapedTogether(LayoutOf(n), plan.chains, cs, plan.rules, rs);
      ShapedTogether(LayoutOf(n), plan.chains, [], plan.rules, fs);
      assert plan.chains + [] == plan.chains;
    }
  }

  lemma ShapedTogether(l: Layout, cs: seq<Chain>, ds: seq<Chain>, rs: seq<Rule>, qs: seq<Rule>)
    ensures Shaped(l, cs, rs) && Shaped(l, ds, qs) ==> Shaped(l, cs + ds, rs + qs)
  {
  }

  /** Every rule is a jump, a permanent rule or a task rule of the layout. */
  ghost predicate Shaped(l: Layout, cs: seq<Chain>, rs: seq<Rule>) {
    && (forall c :: c in cs ==> ChainKey(c) in l.Owned())
    && (forall r :: r in rs ==> IsJump(l, r) || IsPermanent(l, r) || IsTaskRule(l, r))
  }

  lemma LoopbackShaped(n: Names, port: Port, iface: string, dst: string, ip: string)
    requires NamesDistinct(n)
    ensures Shaped(LayoutOf(n), LoopbackChains(n), LoopbackRules(n, port, iface, dst, ip))
  {
    DistinctKeys(n);
  }

  lemma ForwardShaped(n: Names, port: Port, iface: string, ip: string)
    ensures Shaped(LayoutOf(n), [], ForwardRules(n, port, iface, ip))
  {
  }

  lemma SetupShaped(n: Names)
    requires NamesDistinct(n)
    ensures Shaped(LayoutOf(n), SetupChains(n), SetupRules(n))
  {
    DistinctKeys(n);
  }

  lemma DistinctKeys(n: Names)
    requires NamesDistinct(n)
    ensures var l := LayoutOf(n);
            && l.jumps[(n.nat_, n.prerouting)] == ["-j", n.nomadPrerouting]
            && l.jumps[(n.filter, n.forward)] == ["-j", n.nomadForward]
            && l.jumps[(n.nat_, n.output)] == ["-j", n.nomadOutput]
            && l.jumps[(n.nat_, n.postrouting)] == ["-j", n.nomadPostrouting]
  {
    var nats := [n.prerouting, n.output, n.postrouting, n.nomadPrerouting, n.nomadOutput, n.nomadPostrouting];
    assert nats[0] != nats[1] && nats[1] != nats[2] && nats[0] != nats[2];
  }

  lemma FirstsShaped(l: Layout, cs: seq<Chain>, rs: seq<Rule>)
    requires Shaped(l, cs, rs)
    ensures RequestShape(l, Firsts(ChainHash, cs), Firsts(RuleHash, rs))
  {
    FirstsDistinct(ChainHash, cs);
    FirstsDistinct(RuleHash, rs);
  }

  // ---- Adding and removing -----------------------------------------------------------------

  method ApplyChains(ipt: IPTables, cs: seq<Chain>) returns (err: bool, ghost applied: nat)
    modifies ipt`tables, ipt`calls
    ensures applied <= |cs| && (!err ==> applied == |cs|)
    ensures ipt.tables == EnsureChains(old(ipt.tables), cs[..applied])
    ensures ipt.calls >= old(ipt.calls) && (old(ipt.Healthy()) ==> !err)
  {
    applied := 0;
    for i := 0 to |cs|
      invariant applied == i && ipt.tables == EnsureChains(old(ipt.tables), cs[..i]) && ipt.calls >= old(ipt.calls)
    {
      var present;
      present, err := ipt.ChainExists(cs[i]);
      if err {
        return;
      }
      if !present {
        err := ipt.NewChain(cs[i]);
        if err {
          return;
        }
      }
      assert cs[..i + 1] == cs[..i] + [cs[i]];
      EnsureChainsAppend(old(ipt.tables), cs[..i], [cs[i]]);
      applied := i + 1;
    }
    err := false;
  }

  method ApplyRules(ipt: IPTables, rs: seq<Rule>) returns (err: bool, ghost applied: nat)
    modifies ipt`tables, ipt`calls
    ensures applied <= |rs| && (!err ==> applied == |rs|)
    ensures EnsureRules(old(ipt.tables), rs[..applied]) == Some(ipt.tables)
    ensures old(ipt.Healthy()) ==> (err <==> EnsureRules(old(ipt.tables), rs).None?)
  {
    applied := 0;
    for i := 0 to |rs|
      invariant applied == i && EnsureRules(old(ipt.tables), rs[..i]) == Some(ipt.tables) && ipt.calls >= old(ipt.calls)
    {
      ghost var before := ipt.tables;
      if rs[i].position > 0 {
        err := ipt.InsertUnique(rs[i]);
      } else {
        err := ipt.AppendUnique(rs[i]);
      }
      if err {
        if EnsureRule(before, rs[i]).None? {
          FailureStays(old(ipt.tables), rs, i, before);
        }
        return;
      }
      assert rs[..i + 1] == rs[..i] + [rs[i]];
      EnsureRulesAppend(old(ipt.tables), rs[..i], [rs[i]]);
      applied := i + 1;
    }
    assert rs[..|rs|] == rs;
    err := false;
  }

  /** Removal goes on past errors and reports them at the end; the rules that failed are the ones left. */
  method RemoveRules(ipt: IPTables, rs: seq<Rule>) returns (err: bool, ghost gone: seq<Rule>)
    modifies ipt`tables, ipt`calls
    ensures ipt.tables == DropRules(old(ipt.tables), gone) && multiset(gone) <= multiset(rs)
    ensures !err <==> gone == rs
    ensures old(ipt.Healthy()) ==> !err
  {
    err, gone := false, [];
    for i := 0 to |rs|
      invariant ipt.tables == DropRules(old(ipt.tables), gone) && multiset(gone) <= multiset(rs[..i])
      invariant if err then |gone| < i else gone == rs[..i]
      invariant ipt.calls >= old(ipt.calls) && (old(ipt.Healthy()) ==> !err)
    {
      var outcome := ipt.DeleteIfExists(rs[i]);
      assert rs[..i + 1] == rs[..i] + [rs[i]];
      if outcome.Failed? {
        err := true;
      } else {
        DropRulesAppend(old(ipt.tables), gone, [rs[i]]);
        gone := gone + [rs[i]];
      }
    }
    assert rs[..|rs|] == rs;
  }

  // ---- Removal data ------------------------------------------------------------------------

  function ParsedAll(entries: seq<seq<string>>): (r: seq<Rule>)
    ensures |r| == |entries| && forall i :: 0 <= i < |r| ==> r[i] == Parsed(entries[i])
  {
    seq(|entries|, i requires 0 <= i < |entries| => Parsed(entries[i]))
  }

  function Unflagged(r: Rule): Rule {
    r.(removable := false)
  }

  /** What was stored for removal comes back as the same rules on the same chains. */
  lemma RemovalRoundTrip(l: Layout, cs: seq<Chain>, rs: seq<Rule>, t: Tables)
    requires RequestShape(l, cs, rs)
    ensures var back := Firsts(RuleHash, ParsedAll(Instructions(Removables(rs))));
            DropRules(t, back) == DropRules(t, Removables(rs))
  {
    var mine := Removables(rs);
    var back := ParsedAll(Instructions(mine));
    RemovablesIn(rs);
    RemovablesDistinct(rs);
    forall i | 0 <= i < |mine| ensures back[i] == Unflagged(mine[i]) && RuleHash(back[i]) == RuleHash(mine[i]) {
      assert mine[i] in mine;
      ParsedInstruction(mine[i]);
    }
    FirstsKeepsAllIffDistinct(RuleHash, back);
    UnflaggedDrops(t, back, mine);
  }

  lemma {:induction false} RemovablesDistinct(rs: seq<Rule>)
    requires HashDistinct(RuleHash, rs)
    ensures HashDistinct(RuleHash, Removables(rs))
  {
    if rs != [] {
      var n := |rs| - 1;
      RemovablesDistinct(rs[..n]);
      RemovablesIn(rs[..n]);
      forall r | r in Removables(rs[..n]) ensures RuleHash(r) != RuleHash(rs[n]) {
        var i :| 0 <= i < n && rs[..n][i] == r;
      }
    }
  }

  lemma {:induction false} UnflaggedDrops(t: Tables, back: seq<Rule>, rs: seq<Rule>)
    requires |back| == |rs| && forall i :: 0 <= i < |rs| ==> back[i] == Unflagged(rs[i])
    ensures DropRules(t, back) == DropRules(t, rs)
    decreases |rs|
  {
    if rs != [] {
      UnflaggedDrops(DropRule(t, rs[0]), back[1..], rs[1..]);
    }
  }

  /** The stored rules as a hash set; their own stamps are all zero. */
  method RulesFrom(entries: seq<seq<string>>) returns (m: StampedSet<Rule>)
    ensures SetOf(m, Firsts(RuleHash, ParsedAll(entries)))
  {
    m := map[];
    for i := 0 to |entries|
      invariant SetOf(m, Firsts(RuleHash, ParsedAll(entries[..i])))
    {
      var rule := Parsed(entries[i]);
      assert ParsedAll(entries[..i + 1])[..i] == ParsedAll(entries[..i]);
      SetOfInsert(m, Firsts(RuleHash, ParsedAll(entries[..i])), rule);
      if RuleHash(rule) !in m {
        m := m[RuleHash(rule) := Stamped(rule, 0)];
      }
    }
    assert entries[..|entries|] == entries;
  }

  /** The set holds exactly the given rules, each under its hash. */
  ghost predicate SetOf(m: StampedSet<Rule>, rs: seq<Rule>) {
    && HashDistinct(RuleHash, rs)
    && (forall i :: 0 <= i < |rs| ==> RuleHash(rs[i]) in m && m[RuleHash(rs[i])].item == rs[i])
    && (forall key :: key in m ==> Holds(RuleHash, rs, key))
  }

  lemma SetOfInsert(m: StampedSet<Rule>, rs: seq<Rule>, x: Rule)
    requires SetOf(m, rs)
    ensures RuleHash(x) in m <==> Holds(RuleHash, rs, RuleHash(x))
    ensures RuleHash(x) !in m ==> SetOf(m[RuleHash(x) := Stamped(x, 0)], rs + [x])
  {
    if RuleHash(x) !in m {
      forall key | key in m || key == RuleHash(x) ensures Holds(RuleHash, rs + [x], key) {
        HoldsAppend(RuleHash, rs, x, key);
      }
    }
  }

  /** Listing such a set gives its rules in some order. */
  lemma ListedInSomeOrder(m: StampedSet<Rule>, rs: seq<Rule>, members: seq<Stamped<Rule>>, keys: seq<string>)
    requires SetOf(m, rs) && |keys| == |members| && AllDifferent(keys)
    requires forall key :: key in keys <==> key in m
    requires forall i :: 0 <= i < |members| ==> keys[i] in m && members[i] == m[keys[i]]
    ensures multiset(Items(members)) == multiset(rs)
    ensures Firsts(RuleHash, Items(members)) == Items(members)
  {
    var items := Items(members);
    forall i | 0 <= i < |items| ensures RuleHash(items[i]) == keys[i] && items[i] in rs {
      assert Holds(RuleHash, rs, keys[i]);
    }
    forall x | x in rs ensures x in items {
      var i :| 0 <= i < |keys| && keys[i] == RuleHash(x);
      assert items[i] == x;
    }
    FirstsKeepsAllIffDistinct(RuleHash, items);
    SameMembersSameMultiset(items, rs);
  }

  lemma Alone<T>(s: seq<T>)
    ensures [] + s == s
  {
  }

  // ---- The filter --------------------------------------------------------------------------

  datatype Removal = Removal(data: Option<seq<seq<string>>>)

  class VirtTables {
    const ipt: IPTables
    const names: Names
    const host: Host

    constructor (ipt: IPTables, names: Names, host: Host)
      ensures this.ipt == ipt && this.names == names && this.host == host
    {
      this.ipt, this.names, this.host := ipt, names, host;
    }

    /** Chains first, then rules; a failure leaves exactly a beginning of them applied. */
    method AddParts(cs: seq<Chain>, rs: seq<Rule>) returns (err: bool, ghost c: nat, ghost k: nat)
      modifies ipt`tables, ipt`calls
      ensures && c <= |cs| && k <= |rs| && (k > 0 ==> c == |cs|)
              && EnsureRules(EnsureChains(old(ipt.tables), cs[..c]), rs[..k]) == Some(ipt.tables)
      ensures !err ==> AddAll(old(ipt.tables), cs, rs) == Some(ipt.tables)
      ensures old(ipt.Healthy()) ==> (err <==> AddAll(old(ipt.tables), cs, rs).None?)
    {
      k := 0;
      err, c := ApplyChains(ipt, cs);
      if err {
        return;
      }
      assert cs[..|cs|] == cs;
      err, k := ApplyRules(ipt, rs);
      assert rs[..|rs|] == rs;
    }

    method Add(req: Request) returns (err: bool, ghost c: nat, ghost k: nat)
      requires req.Valid()
      modifies ipt`tables, ipt`calls
      ensures var cs, rs := Firsts(ChainHash, req.chains.ins), Firsts(RuleHash, req.rules.ins);
              && c <= |cs| && k <= |rs| && (k > 0 ==> c == |cs|)
              && EnsureRules(EnsureChains(old(ipt.tables), cs[..c]), rs[..k]) == Some(ipt.tables)
              && PartApplied(old(ipt.tables), cs, rs, ipt.tables)
              && (!err ==> AddAll(old(ipt.tables), cs, rs) == Some(ipt.tables))
              && (old(ipt.Healthy()) ==> (err <==> AddAll(old(ipt.tables), cs, rs).None?))
    {
      var cs := req.ChainSlice();
      var rs := req.RuleSlice();
      ghost var before := ipt.tables;
      err, c, k := AddParts(cs, rs);
      assert AddAll(before, cs[..c], rs[..k]) == Some(ipt.tables);
    }

    /** A request of given chains and rules, applied. */
    method AddItems(cs: seq<Chain>, rs: seq<Rule>) returns (err: bool)
      modifies ipt`tables, ipt`calls
      ensures !err ==> AddAll(old(ipt.tables), Firsts(ChainHash, cs), Firsts(RuleHash, rs)) == Some(ipt.tables)
      ensures PartApplied(old(ipt.tables), Firsts(ChainHash, cs), Firsts(RuleHash, rs), ipt.tables)
      ensures old(ipt.Healthy()) ==>
                (err <==> AddAll(old(ipt.tables), Firsts(ChainHash, cs), Firsts(RuleHash, rs)).None?)
    {
      var req := new Request();
      req.InsertChains(cs);
      req.InsertRules(rs);
      Alone(cs);
      Alone(rs);
      assert req.chains.ins == cs && req.rules.ins == rs;
      ghost var c, k;
      err, c, k := Add(req);
    }

    method Setup() returns (err: bool)
      modifies ipt`tables, ipt`calls
      ensures !err ==>
                AddAll(old(ipt.tables), Firsts(ChainHash, SetupChains(names)), Firsts(RuleHash, SetupRules(names)))
                       == Some(ipt.tables)
      ensures PartApplied(old(ipt.tables), Firsts(ChainHash, SetupChains(names)), Firsts(RuleHash, SetupRules(names)),
                          ipt.tables)
      ensures old(ipt.Healthy()) ==>
                (err <==> AddAll(old(ipt.tables), Firsts(ChainHash, SetupChains(names)),
                                 Firsts(RuleHash, SetupRules(names))).None?)
    {
      err := AddItems(SetupChains(names), SetupRules(names));
    }

    /** Withdraws the stored rules, in whatever order the hash set yields them. */
    method Teardown(removal: Option<Removal>) returns (err: bool, ghost gone: seq<Rule>)
      modifies ipt`tables, ipt`calls
      ensures removal.None? || removal.value.data.None? ==> !err && ipt.tables == old(ipt.tables)
      ensures removal.Some? && removal.value.data.Some? ==>
                && ipt.tables == DropRules(old(ipt.tables), gone)
                && multiset(gone) <= multiset(Firsts(RuleHash, ParsedAll(removal.value.data.value)))
      ensures !err && removal.Some? && removal.value.data.Some? ==>
                ipt.tables == DropRules(old(ipt.tables), Firsts(RuleHash, ParsedAll(removal.value.data.value)))
      ensures old(ipt.Healthy()) ==> !err
    {
      if removal.None? || removal.value.data.None? {
        return false, [];
      }
      var stored := RulesFrom(removal.value.data.value);
      ghost var wanted := Firsts(RuleHash, ParsedAll(removal.value.data.value));
      var members;
      ghost var keys;
      members, keys := Members(stored);
      ListedInSomeOrder(stored, wanted, members, keys);
      var req := new Request();
      req.InsertRules(Items(members));
      Alone(Items(members));
      var rs := req.RuleSlice();
      err, gone := RemoveRules(ipt, rs);
      RemovalOrderIrrelevant(old(ipt.tables), rs, wanted);
    }

    /**
     * Builds the request for the reserved ports and applies it. Success hands back the rules to
     * remove later; a refusal before the request is applied leaves the tables alone.
     */
    method Configure(resources: Option<Option<map<string, Port>>>, labels: Option<seq<string>>, ip: string)
      returns (result: Result<Removal, Refusal>, ghost plan: Plan)
      modifies ipt`tables, ipt`calls
      ensures resources.None? ==> result == Failure(NoResources)
      ensures resources.Some? && labels.None? ==> result == Failure(NoConfig)
      ensures resources.Some? && labels.Some? && resources.value.None? ==> result == Success(Removal(None))
      ensures resources.None? || labels.None? || resources.value.None? ==> ipt.tables == old(ipt.tables)
      ensures resources.Some? && labels.Some? && resources.value.Some? ==>
                var planned := PlanPorts(host, names, ip, resources.value.value, labels.value);
                if planned.Failure? then result == Failure(planned.error) && ipt.tables == old(ipt.tables)
                else
                  && plan == planned.value
                  && PartApplied(old(ipt.tables), Firsts(ChainHash, plan.chains), Firsts(RuleHash, plan.rules),
                                 ipt.tables)
                  && (old(ipt.Healthy()) ==>
                        (result == Failure(CommandFailed) <==>
                         AddAll(old(ipt.tables), Firsts(ChainHash, plan.chains), Firsts(RuleHash, plan.rules)).None?))
                  && (result == Failure(CommandFailed) ||
                      (result == Success(Removal(Some(Instructions(Removables(Firsts(RuleHash, plan.rules))))))
                       && AddAll(old(ipt.tables), Firsts(ChainHash, plan.chains),
                                 Firsts(RuleHash, plan.rules)) == Some(ipt.tables)))
    {
      plan := Plan(map[], [], []);
      if resources.None? {
        return Failure(NoResources), plan;
      }
      if labels.None? {
        return Failure(NoConfig), plan;
      }
      if resources.value.None? {
        return Success(Removal(None)), plan;
      }
      var req := new Request();
      var refusal;
      refusal, plan := BuildRequest(req, resources.value.value, labels.value, ip);
      if refusal.Some? {
        return Failure(refusal.value), plan;
      }
      ghost var c, k;
      var err;
      err, c, k := Add(req);
      if err {
        return Failure(CommandFailed), plan;
      }
      var data := req.RemovalInstructions();
      return Success(Removal(Some(data))), plan;
    }

    /** The rules of one port, with the interfaces found for the ports before it. */
    method BuildPort(req: Request, port: Port, ip: string, cache0: map<string, string>, ghost plan: Plan)
      returns (refusal: Option<Refusal>, cache: map<string, string>)
      requires req.Valid() && req.chains.ins == plan.chains && req.rules.ins == plan.rules && cache0 == plan.cache
      modifies req, req.chains, req.rules
      ensures req.Valid()
      ensures var next := PlanPort(host, names, ip, plan, port);
              if next.Failure? then refusal == Some(next.error)
              else refusal == None && next.value == Plan(cache, req.chains.ins, req.rules.ins)
    {
      cache := cache0;
      if port.hostIP !in cache {
        var iface := host.interfaceByIP(port.hostIP);
        if iface.None? {
          return Some(NoInterface), cache;
        }
        cache := cache[port.hostIP := iface.value];
      }
      var iface := cache[port.hostIP];
      assert plan.cache[port.hostIP := iface] == cache;
      var loopback := host.isLoopback(port.hostIP);
      if loopback.None? {
        return Some(BadAddress), cache;
      }
      if loopback.value {
        refusal, cache := BuildLoopback(req, port, iface, ip, cache);
      } else {
        req.InsertRules(ForwardRules(names, port, iface, ip));
        refusal := None;
      }
    }

    /** A port on a loopback address goes through the interface that leads to the task. */
    method BuildLoopback(req: Request, port: Port, iface: string, ip: string, cache0: map<string, string>)
      returns (refusal: Option<Refusal>, cache: map<string, string>)
      requires req.Valid()
      modifies req, req.chains, req.rules
      ensures req.Valid()
      ensures var dst := Ask(cache0, ip, host.routingInterfaceByIP);
              if dst.None? then refusal == Some(NoInterface)
              else if !host.loopbackSupported(dst.value) then refusal == Some(LoopbackNotEnabled)
              else
                && refusal == None && cache == cache0[ip := dst.value]
                && req.chains.ins == old(req.chains.ins) + LoopbackChains(names)
                && req.rules.ins == old(req.rules.ins) + LoopbackRules(names, port, iface, dst.value, ip)
    {
      cache := cache0;
      if ip !in cache {
        var dst := host.routingInterfaceByIP(ip);
        if dst.None? {
          return Some(NoInterface), cache;
        }
        cache := cache[ip := dst.value];
      }
      var dst := cache[ip];
      if !host.loopbackSupported(dst) {
        return Some(LoopbackNotEnabled), cache;
      }
      assert cache0[ip := dst] == cache;
      req.InsertChains(LoopbackChains(names));
      req.InsertRules(LoopbackRules(names, port, iface, dst, ip));
      refusal := None;
    }

    /** The loop over the configured ports. */
    method BuildRequest(req: Request, reserved: map<string, Port>, labels: seq<string>, ip: string)
      returns (refusal: Option<Refusal>, ghost plan: Plan)
      requires req.Valid() && req.chains.ins == [] && req.rules.ins == []
      modifies req, req.chains, req.rules
      ensures req.Valid()
      ensures var planned := PlanPorts(host, names, ip, reserved, labels);
              if planned.Failure? then refusal == Some(planned.error)
              else
                && refusal == None && plan == planned.value
                && req.chains.ins == plan.chains && req.rules.ins == plan.rules
    {
      var cache: map<string, string> := map[];
      plan := Plan(map[], [], []);
      for i := 0 to |labels|
        invariant req.Valid() && plan == Plan(cache, req.chains.ins, req.rules.ins)
        invariant PlanPorts(host, names, ip, reserved, labels[..i]) == Success(plan)
      {
        PlanStep(host, names, ip, reserved, labels, i);
        if labels[i] !in reserved {
          continue;
        }
        refusal, cache := BuildPort(req, reserved[labels[i]], ip, cache, plan);
        if refusal.Some? {
          PlanFails(host, names, ip, reserved, labels, i + 1);
          return;
        }
        plan := Plan(cache, req.chains.ins, req.rules.ins);
      }
      assert labels[..|labels|] == labels;
      refusal := None;
    }
  }

  lemma PlanStep(h: Host, n: Names, ip: string, reserved: map<string, Port>, labels: seq<string>, i: nat)
    requires i < |labels|
    ensures PlanPorts(h, n, ip, reserved, labels[..i + 1]) ==
            var before := PlanPorts(h, n, ip, reserved, labels[..i]);
            if before.Failure? || labels[i] !in reserved then before
            else PlanPort(h, n, ip, before.value, reserved[labels[i]])
  {
    assert labels[..i + 1][..i] == labels[..i];
  }

  /** A refusal at some port is the refusal of the whole. */
  lemma {:induction false} PlanFails(h: Host, n: Names, ip: string, reserved: map<string, Port>, labels: seq<string>,
      i: nat)
    requires i <= |labels| && PlanPorts(h, n, ip, reserved, labels[..i]).Failure?
    ensures PlanPorts(h, n, ip, reserved, labels) == PlanPorts(h, n, ip, reserved, labels[..i])
    decreases |labels| - i
  {
    if i == |labels| {
      assert labels[..i] == labels;
    } else {
      PlanStep(h, n, ip, reserved, labels, i);
      PlanFails(h, n, ip, reserved, labels, i + 1);
    }
  }

  // ---- The filter's runs -------------------------------------------------------------------

  /**
   * A successful Configure is a configuring step of the run, and a successful Teardown of what
   * it handed back is that task's releasing step: the two calls do what the runs are made of.
   */
  lemma ConfigureIsStep(n: Names, h: Host, ip: string, reserved: map<string, Port>, labels: seq<string>,
      orig: Tables, w: World, task: nat, tables: Tables)
    requires NamesDistinct(n) && PlanPorts(h, n, ip, reserved, labels).Success?
    requires var p := PlanPorts(h, n, ip, reserved, labels).value;
             && Unused(orig, w.live, Firsts(RuleHash, p.rules))
             && AddAll(w.tables, Firsts(ChainHash, p.chains), Firsts(RuleHash, p.rules)) == Some(tables)
    ensures var p := PlanPorts(h, n, ip, reserved, labels).value; var l := LayoutOf(n);
            var rs := Firsts(RuleHash, p.rules);
            Step(l, orig, w, Configure(task, Firsts(ChainHash, p.chains), rs),
                 World(tables, Gained(Original(orig, l.permanentChain), w.permanent, SpecsAt(rs, l.permanentChain)),
                       w.live + [Installed(Some(task), Removables(rs))]))
  {
    PlansShaped(h, n, ip, reserved, labels);
    var p := PlanPorts(h, n, ip, reserved, labels).value;
    FirstsShaped(LayoutOf(n), p.chains, p.rules);
  }

  lemma PartShaped(l: Layout, orig: Tables, live: seq<Installed>, cs: seq<Chain>, rs: seq<Rule>, c: nat, k: nat)
    requires RequestShape(l, cs, rs) && Unused(orig, live, rs) && c <= |cs| && k <= |rs|
    ensures RequestShape(l, cs[..c], rs[..k]) && Unused(orig, live, rs[..k])
  {
    assert forall x :: x in cs[..c] ==> x in cs;
    assert forall r :: r in rs[..k] ==> r in rs;
  }

  /** A Configure that failed while its request was applied is a step too, of what it left. */
  lemma FailedConfigureIsStep(n: Names, h: Host, ip: string, reserved: map<string, Port>, labels: seq<string>,
      orig: Tables, w: World, tables: Tables)
    returns (c: nat, k: nat)
    requires NamesDistinct(n) && PlanPorts(h, n, ip, reserved, labels).Success?
    requires var p := PlanPorts(h, n, ip, reserved, labels).value;
             && Unused(orig, w.live, Firsts(RuleHash, p.rules))
             && PartApplied(w.tables, Firsts(ChainHash, p.chains), Firsts(RuleHash, p.rules), tables)
    ensures var p := PlanPorts(h, n, ip, reserved, labels).value; var l := LayoutOf(n);
            var cs, rs := Firsts(ChainHash, p.chains), Firsts(RuleHash, p.rules);
            && c <= |cs| && k <= |rs|
            && Step(l, orig, w, Abandon(cs[..c], rs[..k]),
                    World(tables,
                          Gained(Original(orig, l.permanentChain), w.permanent, SpecsAt(rs[..k], l.permanentChain)),
                          w.live + [Installed(None, Removables(rs[..k]))]))
  {
    PlansShaped(h, n, ip, reserved, labels);
    var p := PlanPorts(h, n, ip, reserved, labels).value;
    var cs, rs := Firsts(ChainHash, p.chains), Firsts(RuleHash, p.rules);
    FirstsShaped(LayoutOf(n), p.chains, p.rules);
    c, k :| c <= |cs| && k <= |rs| && AddAll(w.tables, cs[..c], rs[..k]) == Some(tables);
    PartShaped(LayoutOf(n), orig, w.live, cs, rs, c, k);
  }

  /** Setup, whether it succeeds or fails at some point, and whenever it is called, is a step. */
  lemma SetupIsStep(n: Names, orig: Tables, w: World, tables: Tables) returns (c: nat, k: nat)
    requires NamesDistinct(n)
    requires PartApplied(w.tables, Firsts(ChainHash, SetupChains(n)), Firsts(RuleHash, SetupRules(n)), tables)
    ensures var cs, rs := Firsts(ChainHash, SetupChains(n)), Firsts(RuleHash, SetupRules(n));
            && c <= |cs| && k <= |rs|
            && Step(LayoutOf(n), orig, w, Setup(cs[..c], rs[..k]), World(tables, w.permanent, w.live))
  {
    var l, cs, rs := LayoutOf(n), Firsts(ChainHash, SetupChains(n)), Firsts(RuleHash, SetupRules(n));
    c, k :| c <= |cs| && k <= |rs| && AddAll(w.tables, cs[..c], rs[..k]) == Some(tables);
    LayoutValid(n);
    SetupShaped(n);
    FirstsShaped(l, SetupChains(n), SetupRules(n));
    SetupRulesAreJumps(n, k);
    PartShaped(l, orig, w.live, cs, rs, c, k);
  }

  lemma TeardownIsStep(n: Names, h: Host, ip: string, reserved: map<string, Port>, labels: seq<string>,
      orig: Tables, w: World, i: nat)
    requires NamesDistinct(n) && PlanPorts(h, n, ip, reserved, labels).Success?
    requires i < |w.live| && w.live[i].owner.Some?
    requires var p := PlanPorts(h, n, ip, reserved, labels).value;
             w.live[i].rules == Removables(Firsts(RuleHash, p.rules))
    ensures var p := PlanPorts(h, n, ip, reserved, labels).value;
            var data := Instructions(Removables(Firsts(RuleHash, p.rules)));
            Step(LayoutOf(n), orig, w, Teardown(w.live[i].owner.value, w.live[i].rules),
                 World(DropRules(w.tables, Firsts(RuleHash, ParsedAll(data))), w.permanent,
                       w.live[..i] + w.live[i + 1..]))
  {
    PlansShaped(h, n, ip, reserved, labels);
    var p := PlanPorts(h, n, ip, reserved, labels).value;
    FirstsShaped(LayoutOf(n), p.chains, p.rules);
    RemovalRoundTrip(LayoutOf(n), Firsts(ChainHash, p.chains), Firsts(RuleHash, p.rules), w.tables);
  }

  lemma SetupRulesAreJumps(n: Names, k: nat)
    requires NamesDistinct(n) && k <= |Firsts(RuleHash, SetupRules(n))|
    ensures var rs := Firsts(RuleHash, SetupRules(n));
            && (forall r :: r in rs ==> !r.removable)
            && Removables(rs[..k]) == [] && SpecsAt(rs[..k], LayoutOf(n).permanentChain) == []
  {
    var rs, nats := Firsts(RuleHash, SetupRules(n)),
      [n.prerouting, n.output, n.postrouting, n.nomadPrerouting, n.nomadOutput, n.nomadPostrouting];
    assert nats[0] != nats[5];
    FirstsDistinct(RuleHash, SetupRules(n));
    assert forall r :: r in SetupRules(n) ==> !r.removable && RuleKey(r) != LayoutOf(n).permanentChain;
    assert forall r :: r in rs ==> !r.removable && RuleKey(r) != LayoutOf(n).permanentChain;
    assert forall r :: r in rs[..k] ==> r in rs;
    RemovablesIn(rs[..k]);
    assert |Removables(rs[..k])| > 0 ==> Removables(rs[..k])[0] in Removables(rs[..k]);
    NoneAt(rs[..k], LayoutOf(n).permanentChain);
  }

  /** A run may begin before setup, and is tracked once setup has succeeded or failed. */
  lemma SetupTracks(n: Names, orig: Tables, tables: Tables)
    requires NamesDistinct(n)
    requires PartApplied(orig, Firsts(ChainHash, SetupChains(n)), Firsts(RuleHash, SetupRules(n)), tables)
    ensures Tracks(LayoutOf(n), orig, World(tables, [], []))
  {
    LayoutValid(n);
    NothingTracks(LayoutOf(n), orig);
    var c, k := SetupIsStep(n, orig, World(orig, [], []), tables);
    SetupStepTracks(LayoutOf(n), orig, World(orig, [], []), Firsts(ChainHash, SetupChains(n))[..c],
                    Firsts(RuleHash, SetupRules(n))[..k], World(tables, [], []));
  }
}
