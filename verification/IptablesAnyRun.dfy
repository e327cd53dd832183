/**
 * Runs in which the same rules may be applied again, by a retry or by another task: setups and
 * configurings, whole or cut short, and removals, whole or in part, in any order and of any rules.
 */
module IptablesAnyRun {
  import opened Wrappers
  import opened IptablesRequest
  import opened IptablesState
  import opened IptablesRuns
  import opened IptablesDriver

  function RulesOf(e: Event): seq<Rule> {
    match e
    case Setup(cs, rs) => rs
    case Configure(task, cs, rs) => rs
    case Abandon(cs, rs) => rs
    case Teardown(task, order) => order
  }

  function ChainsOf(e: Event): seq<Chain> {
    match e
    case Setup(cs, rs) => cs
    case Configure(task, cs, rs) => cs
    case Abandon(cs, rs) => cs
    case Teardown(task, order) => []
  }

  /** What the call did to the tables, with nothing asked of the rules. */
  ghost predicate Happens(t: Tables, e: Event, u: Tables) {
    if e.Teardown? then u == DropRules(t, e.order) else AddAll(t, ChainsOf(e), RulesOf(e)) == Some(u)
  }

  ghost predicate Happen(t: Tables, es: seq<Event>, ts: seq<Tables>, u: Tables) {
    && |ts| == |es| + 1 && ts[0] == t && ts[|es|] == u
    && forall i :: 0 <= i < |es| ==> Happens(ts[i], es[i], ts[i + 1])
  }

  predicate Names(rs: seq<Rule>, key: Key, x: Spec) {
    exists r :: r in rs && RuleKey(r) == key && r.spec == x
  }

  predicate OnChain(t: Tables, key: Key, x: Spec) {
    key in t && x in t[key]
  }

  function Times(s: seq<Spec>, x: Spec): nat {
    multiset(s)[x]
  }

  /** The rule is on the chain once at most. */
  predicate Once(t: Tables, key: Key, x: Spec) {
    key in t ==> Times(t[key], x) <= 1
  }

  // ---- One chain ---------------------------------------------------------------------------

  lemma TimesInserted(s: seq<Spec>, i: nat, y: Spec, x: Spec)
    requires i <= |s|
    ensures Times(s[..i] + [y] + s[i..], x) == Times(s, x) + if x == y then 1 else 0
  {
    assert s == s[..i] + s[i..];
  }

  lemma TimesAppended(s: seq<Spec>, y: Spec, x: Spec)
    ensures Times(s + [y], x) == Times(s, x) + if x == y then 1 else 0
  {
  }

  lemma OneEffect(s: seq<Spec>, r: Rule, x: Spec)
    requires Effect(s, r).Some? && Times(s, x) <= 1
    ensures Times(Effect(s, r).value, x) == if x in s || r.spec == x then 1 else 0
  {
    if r.position == 0 {
      TimesAppended(s, r.spec, x);
    } else if r.position <= |s| + 1 {
      TimesInserted(s, r.position - 1, r.spec, x);
    }
  }

  lemma {:induction false} EffectsOnce(s: seq<Spec>, rs: seq<Rule>, key: Key, x: Spec)
    requires Effects(s, rs, key).Some? && Times(s, x) <= 1
    ensures Times(Effects(s, rs, key).value, x) == if x in s || Names(rs, key, x) then 1 else 0
    decreases |rs|
  {
    if rs != [] {
      assert rs == [rs[0]] + rs[1..];
      if RuleKey(rs[0]) != key {
        EffectsOnce(s, rs[1..], key, x);
      } else {
        OneEffect(s, rs[0], x);
        EffectsOnce(Effect(s, rs[0]).value, rs[1..], key, x);
      }
    }
  }

  lemma {:induction false} TimesWithout(s: seq<Spec>, y: Spec, x: Spec)
    ensures Times(Without(s, y), x) == Times(s, x) - if x == y && x in s then 1 else 0
  {
    if s != [] {
      assert s == [s[0]] + s[1..];
      if s[0] != y {
        TimesWithout(s[1..], y, x);
      }
    }
  }

  lemma {:induction false} DropsOnce(s: seq<Spec>, rs: seq<Rule>, key: Key, x: Spec)
    requires Times(s, x) <= 1
    ensures Times(Drops(s, rs, key), x) == if x in s && !Names(rs, key, x) then 1 else 0
    decreases |rs|
  {
    if rs != [] {
      assert rs == [rs[0]] + rs[1..];
      if RuleKey(rs[0]) != key {
        DropsOnce(s, rs[1..], key, x);
      } else {
        TimesWithout(s, rs[0].spec, x);
        DropsOnce(Without(s, rs[0].spec), rs[1..], key, x);
      }
    }
  }

  // ---- One call ----------------------------------------------------------------------------

  /** A call leaves a rule it names there if it applied it and gone if it removed it, and other rules as they were. */
  lemma EventDecides(t: Tables, e: Event, u: Tables, key: Key, x: Spec)
    requires Happens(t, e, u) && Once(t, key, x)
    ensures Once(u, key, x)
    ensures OnChain(u, key, x) <==> if Names(RulesOf(e), key, x) then !e.Teardown? else OnChain(t, key, x)
  {
    var rs := RulesOf(e);
    if e.Teardown? {
      DropsByChain(t, rs);
      if key in t {
        DropsOnce(t[key], rs, key, x);
      }
    } else {
      AddAllKeys(t, ChainsOf(e), rs, u);
      AddAllAt(t, ChainsOf(e), rs, u, key);
      if key in u {
        EffectsOnce(if key in t then t[key] else [], rs, key, x);
      }
    }
  }

  // ---- Whole runs --------------------------------------------------------------------------

  /** The last call that names the rule applied it; or none names it and it was there before. */
  ghost predicate LeftApplied(es: seq<Event>, key: Key, x: Spec, before: bool) {
    || (exists i :: LastNamed(es, key, x, i) && !es[i].Teardown?)
    || (before && forall i :: 0 <= i < |es| ==> !Names(RulesOf(es[i]), key, x))
  }

  /** Call i names the rule, and none after it does. */
  ghost predicate LastNamed(es: seq<Event>, key: Key, x: Spec, i: int) {
    && 0 <= i < |es| && Names(RulesOf(es[i]), key, x)
    && forall j :: i < j < |es| ==> !Names(RulesOf(es[j]), key, x)
  }

  lemma LeftAppliedNext(es: seq<Event>, e: Event, key: Key, x: Spec, before: bool)
    ensures LeftApplied(es + [e], key, x, before) <==>
              if Names(RulesOf(e), key, x) then !e.Teardown? else LeftApplied(es, key, x, before)
  {
    var all := es + [e];
    assert all[|es|] == e && forall i :: 0 <= i < |es| ==> all[i] == es[i];
    if Names(RulesOf(e), key, x) {
      assert LastNamed(all, key, x, |es|);
    } else {
      assert forall i :: LastNamed(all, key, x, i) <==> LastNamed(es, key, x, i);
    }
  }

  /**
   * Over every run, retries, failures and other tasks' calls included, the last call that names a
   * rule decides whether it is on its chain, and no rule gets there twice.
   */
  lemma {:induction false} LastCallDecides(t: Tables, es: seq<Event>, ts: seq<Tables>, u: Tables, key: Key, x: Spec)
    requires Happen(t, es, ts, u) && Once(t, key, x)
    ensures Once(u, key, x)
    ensures OnChain(u, key, x) <==> LeftApplied(es, key, x, OnChain(t, key, x))
    decreases |es|
  {
    if es != [] {
      var n := |es| - 1;
      assert es == es[..n] + [es[n]];
      assert Happen(t, es[..n], ts[..n + 1], ts[n]);
      LastCallDecides(t, es[..n], ts[..n + 1], ts[n], key, x);
      EventDecides(ts[n], es[n], u, key, x);
      LeftAppliedNext(es[..n], es[n], key, x, OnChain(t, key, x));
    }
  }

  /** What a failed call left stays exactly until a call that removes it, unless it is applied again after that. */
  lemma LeftoverStaysIff(t: Tables, cs: seq<Chain>, ys: seq<Rule>, es: seq<Event>, ts: seq<Tables>, u: Tables, r: Rule)
    requires Happen(t, [Abandon(cs, ys)] + es, ts, u) && r in ys && Once(t, RuleKey(r), r.spec)
    ensures OnChain(u, RuleKey(r), r.spec) <==> LeftApplied(es, RuleKey(r), r.spec, true)
  {
    var all, key, x := [Abandon(cs, ys)] + es, RuleKey(r), r.spec;
    assert all[0] == Abandon(cs, ys) && all[1..] == es;
    assert forall i :: 0 <= i < |es| ==> all[i + 1] == es[i];
    forall i | 0 <= i < |es| ensures Happens(ts[1..][i], es[i], ts[1..][i + 1]) {
      assert Happens(ts[i + 1], all[i + 1], ts[i + 2]);
    }
    assert Happens(ts[0], all[0], ts[1]);
    EventDecides(t, all[0], ts[1], key, x);
    LastCallDecides(ts[1], es, ts[1..], u, key, x);
  }

  /** A retry of what failed takes it over: after its teardown nothing of it is left. */
  lemma RetryTakesOver(t: Tables, ys: seq<Rule>, ds: seq<Chain>, a: Tables, task: nat, cs: seq<Chain>, rs: seq<Rule>,
      b: Tables, order: seq<Rule>, u: Tables, r: Rule)
    requires Happens(t, Abandon(ds, ys), a) && Happens(a, Configure(task, cs, rs), b)
    requires Happens(b, Teardown(task, order), u)
    requires r in order && Once(t, RuleKey(r), r.spec)
    ensures !OnChain(u, RuleKey(r), r.spec)
  {
    EventDecides(t, Abandon(ds, ys), a, RuleKey(r), r.spec);
    EventDecides(a, Configure(task, cs, rs), b, RuleKey(r), r.spec);
    EventDecides(b, Teardown(task, order), u, RuleKey(r), r.spec);
  }

  /** Runs of calls that do not name a chain, among chains or in rules, leave it alone. */
  lemma {:induction false} OthersUntouched(t: Tables, es: seq<Event>, ts: seq<Tables>, u: Tables, key: Key)
    requires Happen(t, es, ts, u)
    requires forall e :: e in es ==> forall r :: r in RulesOf(e) ==> RuleKey(r) != key
    requires forall e :: e in es ==> forall c :: c in ChainsOf(e) ==> ChainKey(c) != key
    ensures At(u, key) == At(t, key)
    decreases |es|
  {
    if es != [] {
      var n := |es| - 1;
      assert es == es[..n] + [es[n]] && es[n] in es;
      assert Happen(t, es[..n], ts[..n + 1], ts[n]);
      OthersUntouched(t, es[..n], ts[..n + 1], ts[n], key);
      OtherUntouched(ts[n], es[n], u, key);
    }
  }

  lemma OtherUntouched(t: Tables, e: Event, u: Tables, key: Key)
    requires Happens(t, e, u)
    requires forall r :: r in RulesOf(e) ==> RuleKey(r) != key
    requires forall c :: c in ChainsOf(e) ==> ChainKey(c) != key
    ensures At(u, key) == At(t, key)
  {
    if e.Teardown? {
      DropsByChain(t, e.order);
      if key in t {
        NoDrops(t[key], e.order, key);
      }
    } else {
      AddAllKeys(t, ChainsOf(e), RulesOf(e), u);
      AddAllAt(t, ChainsOf(e), RulesOf(e), u, key);
      if key in t {
        NoEffects(t[key], RulesOf(e), key);
      }
    }
  }

  /** The steps of the runs with unused rules are such calls. */
  lemma StepHappens(l: Layout, orig: Tables, w: World, e: Event, w': World)
    requires Step(l, orig, w, e, w')
    ensures Happens(w.tables, e, w'.tables)
  {
  }

  // ---- A run -------------------------------------------------------------------------------

  /** A configuring fails and leaves a rule; another task's rule comes and goes, and the first is still there. */
  lemma LeftBehind(chain: Chain, mine: Rule, other: Rule) returns (ts: seq<Tables>)
    requires RuleKey(mine) == RuleKey(other) == ChainKey(chain) && mine.position == other.position == 0
    requires mine.spec != other.spec
    ensures Happen(map[], [Abandon([chain], [mine]), Configure(1, [chain], [other]), Teardown(1, [other])], ts,
                   map[ChainKey(chain) := [mine.spec]])
  {
    var key := ChainKey(chain);
    var u, both := map[key := [mine.spec]], map[key := [mine.spec, other.spec]];
    OneRuleApplied(map[], chain, mine, [], [mine.spec]);
    OneRuleApplied(u, chain, other, [mine.spec], [mine.spec, other.spec]);
    assert [mine.spec, other.spec][1..] == [other.spec] && [other.spec][1..] == [];
    assert Without([other.spec], other.spec) == [];
    OneRuleDropped(both, other, [mine.spec]);
    assert map[][key := [mine.spec]] == u && u[key := [mine.spec, other.spec]] == both && both[key := [mine.spec]] == u;
    ts := [map[], u, both, u];
  }

  /** Then the rule left is configured by some task, and goes with that task. */
  lemma TakenOver(chain: Chain, mine: Rule) returns (ts: seq<Tables>)
    requires RuleKey(mine) == ChainKey(chain) && mine.position == 0
    ensures Happen(map[ChainKey(chain) := [mine.spec]], [Configure(2, [chain], [mine]), Teardown(2, [mine])], ts,
                   map[ChainKey(chain) := []])
  {
    var key := ChainKey(chain);
    var u, v := map[key := [mine.spec]], map[key := []];
    OneRuleApplied(u, chain, mine, [mine.spec], [mine.spec]);
    OneRuleDropped(u, mine, []);
    assert u[key := [mine.spec]] == u && u[key := []] == v;
    ts := [u, u, v];
  }

  lemma OneRuleApplied(t: Tables, chain: Chain, r: Rule, had: seq<Spec>, has: seq<Spec>)
    requires RuleKey(r) == ChainKey(chain) && r.position == 0
    requires At(t, RuleKey(r)) == Some(had) || (RuleKey(r) !in t && had == [])
    requires has == if r.spec in had then had else had + [r.spec]
    ensures AddAll(t, [chain], [r]) == Some(t[RuleKey(r) := has])
  {
    var t' := EnsureChain(t, chain);
    assert [chain][1..] == [] && [r][1..] == [];
    assert EnsureChains(t, [chain]) == EnsureChains(t', []) == t';
    assert EnsureRules(t', [r]) == EnsureRules(EnsureRule(t', r).value, []);
    assert EnsureRule(t', r).value == t[RuleKey(r) := has];
  }

  lemma OneRuleDropped(t: Tables, r: Rule, has: seq<Spec>)
    requires RuleKey(r) in t && has == Without(t[RuleKey(r)], r.spec)
    ensures DropRules(t, [r]) == t[RuleKey(r) := has]
  {
    assert [r][1..] == [];
    assert DropRules(t, [r]) == DropRules(DropRule(t, r), []);
  }

  // ---- The driver's calls ------------------------------------------------------------------

  /** What any setup or configuring leaves, however far it came, is what a call of these runs does. */
  lemma PartHappens(t: Tables, cs: seq<Chain>, rs: seq<Rule>, u: Tables) returns (e: Event)
    requires PartApplied(t, cs, rs, u)
    ensures e.Abandon? && ChainsOf(e) <= cs && RulesOf(e) <= rs && Happens(t, e, u)
  {
    var c, k :| 0 <= c <= |cs| && 0 <= k <= |rs| && AddAll(t, cs[..c], rs[..k]) == Some(u);
    e := Abandon(cs[..c], rs[..k]);
  }

  lemma RetriedAndTorn(n: Names, h: Host, reserved: map<string, Port>, labels: seq<string>, ip: string,
      t: Tables, a: Tables, b: Tables, u: Tables)
    requires NamesDistinct(n) && PlanPorts(h, n, ip, reserved, labels).Success?
    requires var p := PlanPorts(h, n, ip, reserved, labels).value;
             var cs, rs := Firsts(ChainHash, p.chains), Firsts(RuleHash, p.rules);
             && PartApplied(t, cs, rs, a) && AddAll(a, cs, rs) == Some(b)
             && u == DropRules(b, Firsts(RuleHash, ParsedAll(Instructions(Removables(rs)))))
    ensures var mine := Removables(Firsts(RuleHash, PlanPorts(h, n, ip, reserved, labels).value.rules));
            forall r :: r in mine && Once(t, RuleKey(r), r.spec) ==> !OnChain(u, RuleKey(r), r.spec)
  {
    var p := PlanPorts(h, n, ip, reserved, labels).value;
    var cs, rs := Firsts(ChainHash, p.chains), Firsts(RuleHash, p.rules);
    PlansShaped(h, n, ip, reserved, labels);
    FirstsShaped(LayoutOf(n), p.chains, p.rules);
    RemovalRoundTrip(LayoutOf(n), cs, rs, b);
    var left := PartHappens(t, cs, rs, a);
    forall r | r in Removables(rs) && Once(t, RuleKey(r), r.spec) ensures !OnChain(u, RuleKey(r), r.spec) {
      RetryTakesOver(t, left.rs, left.cs, a, 0, cs, rs, b, Removables(rs), u, r);
    }
  }

  /**
   * A Configure that fails, is called once more with success, and is then torn down: nothing of
   * it is left, whatever of it the failed call had applied.
   */
  method RetryAndTeardown(vt: VirtTables, reserved: map<string, Port>, labels: seq<string>, ip: string)
    returns (torn: bool, ghost plan: Plan)
    requires NamesDistinct(vt.names)
    modifies vt.ipt`tables, vt.ipt`calls
    ensures torn ==> PlanPorts(vt.host, vt.names, ip, reserved, labels) == Success(plan)
    ensures torn ==>
              var mine, before := Removables(Firsts(RuleHash, plan.rules)), old(vt.ipt.tables);
              forall r :: r in mine && Once(before, RuleKey(r), r.spec) ==> !OnChain(vt.ipt.tables, RuleKey(r), r.spec)
  {
    ghost var t := vt.ipt.tables;
    var first, second;
    first, plan := vt.Configure(Some(Some(reserved)), Some(labels), ip);
    if first != Failure(CommandFailed) {
      return false, plan;
    }
    ghost var a := vt.ipt.tables;
    second, plan := vt.Configure(Some(Some(reserved)), Some(labels), ip);
    if second.Failure? {
      return false, plan;
    }
    ghost var b := vt.ipt.tables;
    var err;
    ghost var gone;
    err, gone := vt.Teardown(Some(second.value));
    torn := !err;
    if torn {
      RetriedAndTorn(vt.names, vt.host, reserved, labels, ip, t, a, b, vt.ipt.tables);
    }
  }
}
