/**
 * The rules of a plan keep apart under their hash: what runs together in general does not for
 * the rules the driver builds (net/filter/iptables/rules.go, tables.go).
 */
module IptablesHashing {
  import opened Wrappers
  import opened Text
  import opened IptablesRequest
  import opened IptablesState
  import opened IptablesRuns
  import opened IptablesDriver

  // ---- Taking joined text apart ------------------------------------------------------------

  predicate NoDash(s: string) {
    forall i :: 0 <= i < |s| ==> s[i] != '-'
  }

  /** Text up to the first dash. */
  lemma {:induction false} FirstDash(a: string, x: string, b: string, y: string)
    requires NoDash(a) && NoDash(b) && a + x == b + y
    requires x != [] && y != [] && x[0] == '-' && y[0] == '-'
    ensures a == b && x == y
  {
    if a == [] || b == [] {
      assert (a + x)[0] == (b + y)[0];
      assert [] + x == x && [] + y == y;
    } else {
      assert a == [a[0]] + a[1..] && b == [b[0]] + b[1..];
      assert (a + x)[1..] == a[1..] + x && (b + y)[1..] == b[1..] + y;
      assert (a + x)[0] == a[0] && (b + y)[0] == b[0];
      FirstDash(a[1..], x, b[1..], y);
    }
  }

  predicate EndsBeforeDigits(x: string) {
    x != [] && !IsDigit(x[|x| - 1])
  }

  /** The digits at the end of a text. */
  lemma {:induction false} LastDigits(x: string, s: string, y: string, t: string)
    requires EndsBeforeDigits(x) && EndsBeforeDigits(y) && AllDigits(s) && AllDigits(t) && x + s == y + t
    ensures x == y && s == t
    decreases |s|
  {
    var all := x + s;
    if s == [] || t == [] {
      assert all[|all| - 1] == (y + t)[|all| - 1];
      assert x + [] == x && y + [] == y;
    } else {
      assert s == s[..|s| - 1] + [s[|s| - 1]] && t == t[..|t| - 1] + [t[|t| - 1]];
      assert all[..|all| - 1] == x + s[..|s| - 1] == y + t[..|t| - 1];
      assert all[|all| - 1] == s[|s| - 1] == t[|t| - 1];
      LastDigits(x, s[..|s| - 1], y, t[..|t| - 1]);
    }
  }

  lemma SamePrefix(p: string, a: string, b: string)
    requires p + a == p + b
    ensures a == b
  {
    assert a == (p + a)[|p|..] && b == (p + b)[|p|..];
  }

  lemma SameSuffix(a: string, b: string, s: string)
    requires a + s == b + s
    ensures a == b
  {
    assert |a| == |b|;
    assert a == (a + s)[..|a|] && b == (b + s)[..|b|];
  }

  lemma {:induction false} JoinSplits(parts: seq<string>, i: nat)
    requires i <= |parts|
    ensures Join(parts) == Join(parts[..i]) + Join(parts[i..])
  {
    if i == 0 {
      assert parts[..0] == [] && parts[0..] == parts;
    } else {
      assert parts[..i][1..] == parts[1..][..i - 1] && parts[1..][i - 1..] == parts[i..];
      JoinSplits(parts[1..], i - 1);
    }
  }

  lemma JoinOne(part: string)
    ensures Join([part]) == part
  {
    assert [part][1..] == [];
  }

  /** One word of a list: what is joined before it, the word, what is joined after it. */
  lemma JoinAround(parts: seq<string>, i: nat)
    requires i < |parts|
    ensures Join(parts) == Join(parts[..i]) + (parts[i] + Join(parts[i + 1..]))
  {
    JoinSplits(parts, i);
    assert parts[i..][1..] == parts[i + 1..];
  }

  lemma JoinEnds(parts: seq<string>)
    requires parts != [] && EndsBeforeDigits(parts[|parts| - 1])
    ensures EndsBeforeDigits(Join(parts))
  {
    var last := parts[|parts| - 1];
    JoinSplits(parts, |parts| - 1);
    assert parts[|parts| - 1..] == [last];
    JoinOne(last);
  }

  // ---- The rules of a plan -----------------------------------------------------------------

  /** The six places the driver's rules go to, as their hash begins. */
  function Places(n: Names): seq<string> {
    [n.nat_ + n.output, n.nat_ + n.postrouting, n.nat_ + n.nomadPostrouting, n.nat_ + n.nomadOutput,
     n.nat_ + n.nomadPrerouting, n.filter + n.nomadForward]
  }

  /** The places differ as they are run together, and none has a dash. */
  predicate PlainNames(n: Names) {
    && (forall i :: 0 <= i < 6 ==> NoDash(Places(n)[i]))
    && (forall i, j :: 0 <= i < j < 6 ==> Places(n)[i] != Places(n)[j])
  }

  /** An address has no dash and the port numbers are not negative. */
  predicate PlainPort(p: Port) {
    NoDash(p.hostIP) && p.value >= 0 && p.to >= 0
  }

  /** The rule of each kind for a port. */
  function RuleOf(n: Names, p: Port, iface: string, dst: string, ip: string, k: nat): Rule
    requires k < 6
  {
    if k < 4 then LoopbackRules(n, p, iface, dst, ip)[k] else ForwardRules(n, p, iface, ip)[k - 4]
  }

  ghost predicate OfKind(n: Names, ip: string, r: Rule, k: nat) {
    k < 6 && exists p, iface, dst :: PlainPort(p) && r == RuleOf(n, p, iface, dst, ip, k)
  }

  ghost predicate Planned(n: Names, ip: string, r: Rule) {
    exists k :: OfKind(n, ip, r, k)
  }

  lemma PlaceOf(n: Names, p: Port, iface: string, dst: string, ip: string, k: nat)
    requires k < 6
    ensures var r := RuleOf(n, p, iface, dst, ip, k);
            && r.table + r.chain == Places(n)[k] && r.spec != [] && r.spec[0] != "" && r.spec[0][0] == '-'
  {
  }

  lemma HashBegins(r: Rule)
    requires r.spec != [] && r.spec[0] != ""
    ensures RuleHash(r) == (r.table + r.chain) + Join(r.spec) && Join(r.spec) != [] && Join(r.spec)[0] == r.spec[0][0]
  {
  }

  lemma OnePlace(n: Names, k: nat, m: nat)
    requires PlainNames(n) && k < 6 && m < 6 && Places(n)[k] == Places(n)[m]
    ensures k == m
  {
  }

  /** Rules of a plan that hash alike are of one kind and read alike from their first option on. */
  lemma SameKind(n: Names, ip: string, r: Rule, k: nat, q: Rule, m: nat)
    requires PlainNames(n) && OfKind(n, ip, r, k) && OfKind(n, ip, q, m) && RuleHash(r) == RuleHash(q)
    ensures k == m && Join(r.spec) == Join(q.spec)
  {
    var p, i, d :| PlainPort(p) && r == RuleOf(n, p, i, d, ip, k);
    var p', i', d' :| PlainPort(p') && q == RuleOf(n, p', i', d', ip, m);
    PlaceOf(n, p, i, d, ip, k);
    PlaceOf(n, p', i', d', ip, m);
    HashBegins(r);
    HashBegins(q);
    assert NoDash(Places(n)[k]) && NoDash(Places(n)[m]);
    FirstDash(Places(n)[k], Join(r.spec), Places(n)[m], Join(q.spec));
    OnePlace(n, k, m);
  }

  // ---- Specifications of one kind ----------------------------------------------------------

  /** Two lists that differ in one word at most. */
  lemma OneWordApart(a: Spec, b: Spec, i: nat)
    requires i < |a| == |b| && a[..i] == b[..i] && a[i + 1..] == b[i + 1..] && Join(a) == Join(b)
    ensures a == b
  {
    JoinAround(a, i);
    JoinAround(b, i);
    var before, after := Join(a[..i]), Join(a[i + 1..]);
    SamePrefix(before, a[i] + after, b[i] + after);
    SameSuffix(a[i], b[i], after);
    forall k | 0 <= k < |a| ensures a[k] == b[k] {
      assert k < i ==> a[..i][k] == b[..i][k];
      assert k > i ==> a[i + 1..][k - i - 1] == b[i + 1..][k - i - 1];
    }
  }

  /**
   * A forwarding specification: an option and an address, an option and an interface, fixed
   * words, a port, fixed words, and a destination that ends in a port.
   */
  function ForwardSpec(first: string, host: string, second: string, iface: string, middle: Spec, port: string,
      ending: Spec, destination: string): Spec
  {
    [first, host, second, iface] + middle + [port] + ending + [destination]
  }

  lemma {:induction false} JoinTogether(a: seq<string>, b: seq<string>)
    ensures Join(a + b) == Join(a) + Join(b)
  {
    JoinSplits(a + b, |a|);
    assert (a + b)[..|a|] == a && (a + b)[|a|..] == b;
  }

  lemma JoinForward(first: string, host: string, second: string, iface: string, middle: Spec, port: string,
      ending: Spec, destination: string)
    ensures Join(ForwardSpec(first, host, second, iface, middle, port, ending, destination)) ==
            first + (host + (second + (((iface + Join(middle)) + port) + Join(ending)))) + destination
  {
    var start := [first, host, second, iface];
    JoinTogether(start + middle + [port] + ending, [destination]);
    JoinTogether(start + middle + [port], ending);
    JoinTogether(start + middle, [port]);
    JoinTogether(start, middle);
    JoinOne(destination);
    JoinOne(port);
    JoinFour(first, host, second, iface);
    RegroupForward(first, host, second, iface, Join(middle), port, Join(ending), destination);
  }

  lemma JoinFour(a: string, b: string, c: string, d: string)
    ensures Join([a, b, c, d]) == a + (b + (c + d))
  {
    assert [a, b, c, d][1..] == [b, c, d] && [b, c, d][1..] == [c, d] && [c, d][1..] == [d];
    JoinOne(d);
    assert Join([c, d]) == c + d;
    assert Join([b, c, d]) == b + (c + d);
  }

  lemma RegroupForward(a: string, b: string, c: string, d: string, e: string, f: string, g: string, h: string)
    ensures (a + (b + (c + d))) + e + f + g + h == a + (b + (c + (((d + e) + f) + g))) + h
  {
  }

  /** Two forwarding specifications that join alike are the same. */
  lemma ForwardsApart(first: string, second: string, middle: Spec, ending: Spec, ip: string,
      host: string, iface: string, port: string, to: string, host': string, iface': string, port': string, to': string)
    requires NoDash(host) && NoDash(host') && AllDigits(port) && AllDigits(port') && AllDigits(to) && AllDigits(to')
    requires second != "" && second[0] == '-' && middle != [] && EndsBeforeDigits(middle[|middle| - 1])
    requires Join(ForwardSpec(first, host, second, iface, middle, port, ending, ip + ":" + to)) ==
             Join(ForwardSpec(first, host', second, iface', middle, port', ending, ip + ":" + to'))
    ensures host == host' && iface == iface' && port == port' && to == to'
  {
    var a, b, c := Join(middle), Join(ending), ip + ":";
    JoinForward(first, host, second, iface, middle, port, ending, c + to);
    JoinForward(first, host', second, iface', middle, port', ending, c + to');
    var x, y := host + (second + (((iface + a) + port) + b)), host' + (second + (((iface' + a) + port') + b));
    ToDestination(first, x, c, to, y, to');
    JoinEnds(middle);
    var rest, rest' := ((iface + a) + port) + b, ((iface' + a) + port') + b;
    FirstDash(host, second + rest, host', second + rest');
    SamePrefix(second, rest, rest');
    SameSuffix((iface + a) + port, (iface' + a) + port', b);
    LastDigits(iface + a, port, iface' + a, port');
    SameSuffix(iface, iface', a);
  }

  lemma ToDestination(first: string, x: string, c: string, to: string, y: string, to': string)
    requires first + x + (c + to) == first + y + (c + to') && EndsBeforeDigits(c) && AllDigits(to) && AllDigits(to')
    ensures x == y && to == to'
  {
    assert first + x + (c + to) == (first + x + c) + to && first + y + (c + to') == (first + y + c) + to';
    LastDigits(first + x + c, to, first + y + c, to');
    SameSuffix(first + x, first + y, c);
    SamePrefix(first, x, y);
  }

  // ---- One rule for one hash ---------------------------------------------------------------

  const MIDDLE: Spec := ["-p", "tcp", "-m", "tcp", "--dport"]
  const ENDING: Spec := ["-j", "DNAT", "--to-destination"]

  lemma OutputIsForward(n: Names, p: Port, iface: string, dst: string, ip: string)
    ensures RuleOf(n, p, iface, dst, ip, 3) ==
            Rule(n.nat_, n.nomadOutput, 0,
                 ForwardSpec("-s", p.hostIP, "-o", iface, MIDDLE, Itoa(p.value), ENDING, Destination(ip, p)), true)
  {
  }

  lemma PreroutingIsForward(n: Names, p: Port, iface: string, dst: string, ip: string)
    ensures RuleOf(n, p, iface, dst, ip, 4) ==
            Rule(n.nat_, n.nomadPrerouting, 0,
                 ForwardSpec("-d", p.hostIP, "-i", iface, MIDDLE, Itoa(p.value), ENDING, Destination(ip, p)), true)
  {
  }

  lemma MiddleEnds()
    ensures EndsBeforeDigits(MIDDLE[|MIDDLE| - 1])
  {
  }

  lemma ForwardKindApart(n: Names, ip: string, p: Port, iface: string, dst: string, p': Port, iface': string,
      dst': string, k: nat)
    requires PlainPort(p) && PlainPort(p') && 3 <= k <= 4
    requires Join(RuleOf(n, p, iface, dst, ip, k).spec) == Join(RuleOf(n, p', iface', dst', ip, k).spec)
    ensures RuleOf(n, p, iface, dst, ip, k) == RuleOf(n, p', iface', dst', ip, k)
  {
    MiddleEnds();
    if k == 3 {
      OutputIsForward(n, p, iface, dst, ip);
      OutputIsForward(n, p', iface', dst', ip);
      ForwardsApart("-s", "-o", MIDDLE, ENDING, ip, p.hostIP, iface, Itoa(p.value), Itoa(p.to),
                    p'.hostIP, iface', Itoa(p'.value), Itoa(p'.to));
    } else {
      PreroutingIsForward(n, p, iface, dst, ip);
      PreroutingIsForward(n, p', iface', dst', ip);
      ForwardsApart("-d", "-i", MIDDLE, ENDING, ip, p.hostIP, iface, Itoa(p.value), Itoa(p.to),
                    p'.hostIP, iface', Itoa(p'.value), Itoa(p'.to));
    }
  }

  lemma OtherKindApart(n: Names, ip: string, p: Port, iface: string, dst: string, p': Port, iface': string,
      dst': string, k: nat)
    requires k < 3 || k == 5
    requires Join(RuleOf(n, p, iface, dst, ip, k).spec) == Join(RuleOf(n, p', iface', dst', ip, k).spec)
    ensures RuleOf(n, p, iface, dst, ip, k) == RuleOf(n, p', iface', dst', ip, k)
  {
    var r, q := RuleOf(n, p, iface, dst, ip, k), RuleOf(n, p', iface', dst', ip, k);
    if k == 2 {
      OneWordApart(r.spec, q.spec, 1);
    } else if k == 5 {
      OneWordApart(r.spec, q.spec, 11);
    }
  }

  /** Rules the driver plans for addresses and ports hash alike only if they are equal. */
  lemma PlannedApart(n: Names, ip: string, r: Rule, q: Rule)
    requires PlainNames(n) && Planned(n, ip, r) && Planned(n, ip, q) && RuleHash(r) == RuleHash(q)
    ensures r == q
  {
    var k :| OfKind(n, ip, r, k);
    var m :| OfKind(n, ip, q, m);
    SameKind(n, ip, r, k, q, m);
    var p, i, d :| PlainPort(p) && r == RuleOf(n, p, i, d, ip, k);
    var p', i', d' :| PlainPort(p') && q == RuleOf(n, p', i', d', ip, k);
    if 3 <= k <= 4 {
      ForwardKindApart(n, ip, p, i, d, p', i', d', k);
    } else {
      OtherKindApart(n, ip, p, i, d, p', i', d', k);
    }
  }

  // ---- Plans -------------------------------------------------------------------------------

  /** Interfaces are found for addresses only, the task has an address, and reserved ports have port numbers. */
  ghost predicate PlainInput(h: Host, ip: string, reserved: map<string, Port>) {
    && NoDash(ip)
    && (forall a :: h.interfaceByIP(a).Some? ==> NoDash(a))
    && (forall name :: name in reserved ==> reserved[name].value >= 0 && reserved[name].to >= 0)
  }

  /** Only addresses are looked up. */
  ghost predicate CachePlain(cache: map<string, string>) {
    forall a :: a in cache ==> NoDash(a)
  }

  lemma RulesPlanned(n: Names, p: Port, iface: string, dst: string, ip: string)
    requires PlainPort(p)
    ensures forall r :: r in LoopbackRules(n, p, iface, dst, ip) || r in ForwardRules(n, p, iface, ip) ==>
              Planned(n, ip, r)
  {
    forall r | r in LoopbackRules(n, p, iface, dst, ip) ensures Planned(n, ip, r) {
      var k :| 0 <= k < 4 && LoopbackRules(n, p, iface, dst, ip)[k] == r;
      assert r == RuleOf(n, p, iface, dst, ip, k);
      assert OfKind(n, ip, r, k);
    }
    forall r | r in ForwardRules(n, p, iface, ip) ensures Planned(n, ip, r) {
      var k :| 0 <= k < 2 && ForwardRules(n, p, iface, ip)[k] == r;
      assert r == RuleOf(n, p, iface, dst, ip, k + 4);
      assert OfKind(n, ip, r, k + 4);
    }
  }

  lemma {:induction false} PlanRulesPlanned(h: Host, n: Names, ip: string, reserved: map<string, Port>,
      labels: seq<string>)
    requires PlainInput(h, ip, reserved) && PlanPorts(h, n, ip, reserved, labels).Success?
    ensures var plan := PlanPorts(h, n, ip, reserved, labels).value;
            CachePlain(plan.cache) && forall r :: r in plan.rules ==> Planned(n, ip, r)
  {
    if labels != [] {
      var front, last := labels[..|labels| - 1], labels[|labels| - 1];
      PlanRulesPlanned(h, n, ip, reserved, front);
      var plan := PlanPorts(h, n, ip, reserved, front).value;
      if last in reserved {
        var port := reserved[last];
        var iface := Ask(plan.cache, port.hostIP, h.interfaceByIP);
        var dst := Ask(plan.cache[port.hostIP := iface.value], ip, h.routingInterfaceByIP);
        RulesPlanned(n, port, iface.value, if dst.Some? then dst.value else "", ip);
      }
    }
  }

  /** No rule of a plan is lost in the request's hash set. */
  lemma PlansLoseNothing(h: Host, n: Names, ip: string, reserved: map<string, Port>, labels: seq<string>)
    requires PlainNames(n) && PlainInput(h, ip, reserved) && PlanPorts(h, n, ip, reserved, labels).Success?
    ensures var rules := PlanPorts(h, n, ip, reserved, labels).value.rules;
            && (forall r :: r in rules ==> r in Firsts(RuleHash, rules))
            && (forall r :: r in rules && r.removable ==> r in Removables(Firsts(RuleHash, rules)))
  {
    var rules := PlanPorts(h, n, ip, reserved, labels).value.rules;
    PlanRulesPlanned(h, n, ip, reserved, labels);
    forall r, q | r in rules && q in rules && RuleHash(r) == RuleHash(q) ensures r == q {
      PlannedApart(n, ip, r, q);
    }
    NothingLostIff(RuleHash, rules);
    RemovablesIn(Firsts(RuleHash, rules));
  }

  /** After a request that succeeded, every rule that was planned is on its chain. */
  lemma ConfiguredRulesPresent(h: Host, n: Names, ip: string, reserved: map<string, Port>, labels: seq<string>,
      t: Tables, u: Tables)
    requires PlainNames(n) && PlainInput(h, ip, reserved) && PlanPorts(h, n, ip, reserved, labels).Success?
    requires var p := PlanPorts(h, n, ip, reserved, labels).value;
             AddAll(t, Firsts(ChainHash, p.chains), Firsts(RuleHash, p.rules)) == Some(u)
    ensures forall r :: r in PlanPorts(h, n, ip, reserved, labels).value.rules ==>
              RuleKey(r) in u && r.spec in u[RuleKey(r)]
  {
    var p := PlanPorts(h, n, ip, reserved, labels).value;
    PlansLoseNothing(h, n, ip, reserved, labels);
    AddedRulesPresent(t, Firsts(ChainHash, p.chains), Firsts(RuleHash, p.rules), u);
  }

  lemma DefaultNamesPlain()
    ensures PlainNames(DEFAULT_NAMES)
  {
    DefaultPlacesApart();
    assert NoDash("nat") && NoDash("filter") && NoDash("OUTPUT") && NoDash("POSTROUTING");
    assert NoDash("NOMAD_VT_PST") && NoDash("NOMAD_VT_OUT") && NoDash("NOMAD_VT_PRT") && NoDash("NOMAD_VT_FW");
    JoinedNoDash();
  }

  lemma JoinedNoDash()
    ensures forall a, b :: NoDash(a) && NoDash(b) ==> NoDash(a + b)
  {
  }

  lemma DefaultPlacesApart()
    ensures forall i, j :: 0 <= i < j < 6 ==> Places(DEFAULT_NAMES)[i] != Places(DEFAULT_NAMES)[j]
  {
    var p := Places(DEFAULT_NAMES);
    assert |p[0]| == 9 && |p[1]| == 14 && |p[5]| == 17 && |p[2]| == |p[3]| == |p[4]| == 15;
    assert p[2][12] == 'P' && p[3][12] == 'O' && p[4][12] == 'P' && p[2][13] == 'S' && p[4][13] == 'R';
  }

  /**
   * With the default names: a successful Configure keeps the invariant of the run, every rule
   * planned from the ports is on its chain, and every removable one of them is kept for teardown.
   */
  lemma DefaultConfigure(h: Host, ip: string, reserved: map<string, Port>, labels: seq<string>,
      orig: Tables, w: World, task: nat, tables: Tables)
    returns (w': World)
    requires Tracks(LayoutOf(DEFAULT_NAMES), orig, w) && PlainInput(h, ip, reserved)
    requires PlanPorts(h, DEFAULT_NAMES, ip, reserved, labels).Success?
    requires var p := PlanPorts(h, DEFAULT_NAMES, ip, reserved, labels).value;
             && Unused(orig, w.live, Firsts(RuleHash, p.rules))
             && AddAll(w.tables, Firsts(ChainHash, p.chains), Firsts(RuleHash, p.rules)) == Some(tables)
    ensures w'.tables == tables && Tracks(LayoutOf(DEFAULT_NAMES), orig, w')
    ensures |w'.live| == |w.live| + 1 && w'.live[..|w.live|] == w.live && w'.live[|w.live|].owner == Some(task)
    ensures forall r :: r in PlanPorts(h, DEFAULT_NAMES, ip, reserved, labels).value.rules ==>
              && RuleKey(r) in tables && r.spec in tables[RuleKey(r)]
              && (r.removable ==> r in w'.live[|w.live|].rules)
  {
    var l, p := LayoutOf(DEFAULT_NAMES), PlanPorts(h, DEFAULT_NAMES, ip, reserved, labels).value;
    var cs, rs := Firsts(ChainHash, p.chains), Firsts(RuleHash, p.rules);
    DefaultNamesDistinct();
    DefaultNamesPlain();
    ConfigureIsStep(DEFAULT_NAMES, h, ip, reserved, labels, orig, w, task, tables);
    w' := World(tables, Gained(Original(orig, l.permanentChain), w.permanent, SpecsAt(rs, l.permanentChain)),
                w.live + [Installed(Some(task), Removables(rs))]);
    ConfigureTracks(l, orig, w, Some(task), cs, rs, w');
    ConfiguredRulesPresent(h, DEFAULT_NAMES, ip, reserved, labels, w.tables, tables);
    PlansLoseNothing(h, DEFAULT_NAMES, ip, reserved, labels);
  }
}
