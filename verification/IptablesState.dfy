/**
 * The packet filter as the driver sees it: chains of rule specifications, and what adding and
 * removing the rules of a request does to them (net/filter/iptables/tables.go).
 */
module IptablesState {
  import opened Wrappers
  import opened IptablesRequest

  type Key = (string, string)

  type Tables = map<Key, seq<Spec>>

  function RuleKey(r: Rule): Key {
    (r.table, r.chain)
  }

  function ChainKey(c: Chain): Key {
    (c.table, c.name)
  }

  // ---- Adding ------------------------------------------------------------------------------

  function EnsureChain(t: Tables, c: Chain): Tables {
    if ChainKey(c) in t then t else t[ChainKey(c) := []]
  }

  function EnsureChains(t: Tables, cs: seq<Chain>): Tables
    decreases |cs|
  {
    if cs == [] then t else EnsureChains(EnsureChain(t, cs[0]), cs[1..])
  }

  /** One rule on one chain: nothing if it is there, else inserted at its position or appended. */
  function Effect(s: seq<Spec>, r: Rule): Option<seq<Spec>> {
    if r.spec in s then Some(s)
    else if r.position == 0 then Some(s + [r.spec])
    else if r.position <= |s| + 1 then Some(s[..r.position - 1] + [r.spec] + s[r.position - 1..])
    else None
  }

  function EnsureRule(t: Tables, r: Rule): Option<Tables> {
    if RuleKey(r) !in t then None
    else match Effect(t[RuleKey(r)], r) case None => None case Some(s) => Some(t[RuleKey(r) := s])
  }

  function EnsureRules(t: Tables, rs: seq<Rule>): Option<Tables>
    decreases |rs|
  {
    if rs == [] then Some(t)
    else match EnsureRule(t, rs[0]) case None => None case Some(u) => EnsureRules(u, rs[1..])
  }

  /** A request applied whole: chains first, then rules; None when the kernel refuses a rule. */
  function AddAll(t: Tables, cs: seq<Chain>, rs: seq<Rule>): Option<Tables> {
    EnsureRules(EnsureChains(t, cs), rs)
  }

  /** A beginning of a request was applied: chains first, and rules only after all chains. */
  ghost predicate PartApplied(t: Tables, cs: seq<Chain>, rs: seq<Rule>, u: Tables) {
    exists c, k ::
      0 <= c <= |cs| && 0 <= k <= |rs| && (k > 0 ==> c == |cs|) && AddAll(t, cs[..c], rs[..k]) == Some(u)
  }

  /** The rules of a request seen by one chain. */
  function Effects(s: seq<Spec>, rs: seq<Rule>, key: Key): Option<seq<Spec>>
    decreases |rs|
  {
    if rs == [] then Some(s)
    else if RuleKey(rs[0]) != key then Effects(s, rs[1..], key)
    else match Effect(s, rs[0]) case None => None case Some(s') => Effects(s', rs[1..], key)
  }

  /** Chains do not interfere: each changes by the rules that name it, and no chain comes or goes. */
  lemma {:induction false} RulesByChain(t: Tables, rs: seq<Rule>, u: Tables)
    requires EnsureRules(t, rs) == Some(u)
    ensures u.Keys == t.Keys
    ensures forall key :: key in t ==> Effects(t[key], rs, key) == Some(u[key])
    ensures forall r :: r in rs ==> RuleKey(r) in t
    decreases |rs|
  {
    if rs != [] {
      var t' := EnsureRule(t, rs[0]).value;
      RulesByChain(t', rs[1..], u);
      assert t'.Keys == t.Keys;
      assert rs == [rs[0]] + rs[1..];
    }
  }

  lemma {:induction false} ChainsByName(t: Tables, cs: seq<Chain>)
    ensures forall key :: key in t ==> key in EnsureChains(t, cs) && EnsureChains(t, cs)[key] == t[key]
    ensures forall key :: key in EnsureChains(t, cs) && key !in t ==>
              EnsureChains(t, cs)[key] == [] && exists c :: c in cs && ChainKey(c) == key
    ensures forall c :: c in cs ==> ChainKey(c) in EnsureChains(t, cs)
    decreases |cs|
  {
    if cs != [] {
      ChainsByName(EnsureChain(t, cs[0]), cs[1..]);
      assert cs == [cs[0]] + cs[1..];
    }
  }

  lemma {:induction false} EnsureRulesAppend(t: Tables, a: seq<Rule>, b: seq<Rule>)
    ensures EnsureRules(t, a + b) == match EnsureRules(t, a) case None => None case Some(u) => EnsureRules(u, b)
    decreases |a|
  {
    if a == [] {
      assert a + b == b;
    } else {
      assert (a + b)[1..] == a[1..] + b;
      match EnsureRule(t, a[0])
      case None =>
      case Some(u) => EnsureRulesAppend(u, a[1..], b);
    }
  }

  /** A rule that cannot be added makes the whole request fail. */
  lemma FailureStays(t: Tables, rs: seq<Rule>, i: nat, u: Tables)
    requires i < |rs| && EnsureRules(t, rs[..i]) == Some(u) && EnsureRule(u, rs[i]).None?
    ensures EnsureRules(t, rs) == None
  {
    var rest := rs[i..];
    assert rs == rs[..i] + rest && rest[0] == rs[i];
    EnsureRulesAppend(t, rs[..i], rest);
  }

  lemma {:induction false} EnsureChainsAppend(t: Tables, a: seq<Chain>, b: seq<Chain>)
    ensures EnsureChains(t, a + b) == EnsureChains(EnsureChains(t, a), b)
    decreases |a|
  {
    if a == [] {
      assert a + b == b;
    } else {
      assert (a + b)[1..] == a[1..] + b;
      EnsureChainsAppend(EnsureChain(t, a[0]), a[1..], b);
    }
  }

  function At(t: Tables, key: Key): Option<seq<Spec>> {
    if key in t then Some(t[key]) else None
  }

  /** One chain across a request: created empty if asked for, then changed by its own rules. */
  lemma AddAllAt(t: Tables, cs: seq<Chain>, rs: seq<Rule>, u: Tables, key: Key)
    requires AddAll(t, cs, rs) == Some(u)
    ensures key in t ==> At(u, key) == Effects(t[key], rs, key)
    ensures key !in t && key in u ==> Effects([], rs, key) == Some(u[key]) && exists c :: c in cs && ChainKey(c) == key
    ensures key !in u ==> forall r :: r in rs ==> RuleKey(r) != key
  {
    ChainsByName(t, cs);
    RulesByChain(EnsureChains(t, cs), rs, u);
  }

  lemma AddAllKeys(t: Tables, cs: seq<Chain>, rs: seq<Rule>, u: Tables)
    requires AddAll(t, cs, rs) == Some(u)
    ensures t.Keys <= u.Keys && forall key :: key in u ==> key in t || exists c :: c in cs && ChainKey(c) == key
  {
    ChainsByName(t, cs);
    RulesByChain(EnsureChains(t, cs), rs, u);
  }

  // ---- Adding twice ------------------------------------------------------------------------

  lemma {:induction false} PresentRulesChangeNothing(t: Tables, rs: seq<Rule>)
    requires forall r :: r in rs ==> RuleKey(r) in t && r.spec in t[RuleKey(r)]
    ensures EnsureRules(t, rs) == Some(t)
    decreases |rs|
  {
    if rs != [] {
      assert rs[0] in rs;
      assert t[RuleKey(rs[0]) := t[RuleKey(rs[0])]] == t;
      PresentRulesChangeNothing(t, rs[1..]);
    }
  }

  lemma {:induction false} EffectsKeep(s: seq<Spec>, rs: seq<Rule>, key: Key, x: Spec)
    requires Effects(s, rs, key).Some?
    ensures x in s || (exists r :: r in rs && RuleKey(r) == key && r.spec == x) ==> x in Effects(s, rs, key).value
    decreases |rs|
  {
    if rs != [] {
      assert rs == [rs[0]] + rs[1..];
      if RuleKey(rs[0]) != key {
        EffectsKeep(s, rs[1..], key, x);
      } else {
        EffectsKeep(Effect(s, rs[0]).value, rs[1..], key, x);
      }
    }
  }

  /** The kernel takes rules for chains that are there, appended or put first. */
  lemma {:induction false} RulesAccepted(t: Tables, rs: seq<Rule>)
    requires forall r :: r in rs ==> RuleKey(r) in t && r.position <= 1
    ensures EnsureRules(t, rs).Some?
    decreases |rs|
  {
    if rs != [] {
      assert rs[0] in rs;
      RulesAccepted(EnsureRule(t, rs[0]).value, rs[1..]);
    }
  }

  /** What a chain has gained is from a rule that names it. */
  lemma {:induction false} EffectsOnly(s: seq<Spec>, rs: seq<Rule>, key: Key, x: Spec)
    requires Effects(s, rs, key).Some? && x in Effects(s, rs, key).value && x !in s
    ensures exists r :: r in rs && RuleKey(r) == key && r.spec == x
    decreases |rs|
  {
    if rs != [] {
      assert rs == [rs[0]] + rs[1..];
      if RuleKey(rs[0]) != key {
        EffectsOnly(s, rs[1..], key, x);
      } else if x in Effect(s, rs[0]).value {
        assert rs[0].spec == x;
      } else {
        EffectsOnly(Effect(s, rs[0]).value, rs[1..], key, x);
      }
    }
  }

  lemma NewFromRequest(t: Tables, cs: seq<Chain>, rs: seq<Rule>, u: Tables, key: Key, x: Spec)
    requires AddAll(t, cs, rs) == Some(u) && key in u && x in u[key] && (key in t ==> x !in t[key])
    ensures exists r :: r in rs && RuleKey(r) == key && r.spec == x
  {
    AddAllAt(t, cs, rs, u, key);
    EffectsOnly(if key in t then t[key] else [], rs, key, x);
  }

  lemma {:induction false} PresentChainsChangeNothing(t: Tables, cs: seq<Chain>)
    requires forall c :: c in cs ==> ChainKey(c) in t
    ensures EnsureChains(t, cs) == t
    decreases |cs|
  {
    if cs != [] {
      assert cs[0] in cs;
      PresentChainsChangeNothing(t, cs[1..]);
    }
  }

  /** After a request that succeeded its rules are on their chains. */
  lemma AddedRulesPresent(t: Tables, cs: seq<Chain>, rs: seq<Rule>, u: Tables)
    requires AddAll(t, cs, rs) == Some(u)
    ensures forall r :: r in rs ==> RuleKey(r) in u && r.spec in u[RuleKey(r)]
  {
    var t' := EnsureChains(t, cs);
    RulesByChain(t', rs, u);
    forall r | r in rs ensures RuleKey(r) in u && r.spec in u[RuleKey(r)] {
      EffectsKeep(t'[RuleKey(r)], rs, RuleKey(r), r.spec);
    }
  }

  /** Applying a request that succeeded once more changes nothing. */
  lemma AddTwiceIsAddOnce(t: Tables, cs: seq<Chain>, rs: seq<Rule>, u: Tables)
    requires AddAll(t, cs, rs) == Some(u)
    ensures AddAll(u, cs, rs) == Some(u)
  {
    var t' := EnsureChains(t, cs);
    ChainsByName(t, cs);
    RulesByChain(t', rs, u);
    PresentChainsChangeNothing(u, cs);
    AddedRulesPresent(t, cs, rs, u);
    PresentRulesChangeNothing(u, rs);
  }

  // ---- Removing ----------------------------------------------------------------------------

  /** Deletes the first occurrence, if any. */
  function Without(s: seq<Spec>, x: Spec): seq<Spec> {
    if s == [] then [] else if s[0] == x then s[1..] else [s[0]] + Without(s[1..], x)
  }

  function DropRule(t: Tables, r: Rule): Tables {
    if RuleKey(r) in t then t[RuleKey(r) := Without(t[RuleKey(r)], r.spec)] else t
  }

  function DropRules(t: Tables, rs: seq<Rule>): Tables
    decreases |rs|
  {
    if rs == [] then t else DropRules(DropRule(t, rs[0]), rs[1..])
  }

  lemma {:induction false} DropRulesAppend(t: Tables, a: seq<Rule>, b: seq<Rule>)
    ensures DropRules(t, a + b) == DropRules(DropRules(t, a), b)
    decreases |a|
  {
    if a == [] {
      assert a + b == b;
    } else {
      assert (a + b)[1..] == a[1..] + b;
      DropRulesAppend(DropRule(t, a[0]), a[1..], b);
    }
  }

  lemma {:induction false} WithoutCommutes(s: seq<Spec>, x: Spec, y: Spec)
    ensures Without(Without(s, x), y) == Without(Without(s, y), x)
  {
    if s != [] && s[0] != x && s[0] != y {
      WithoutCommutes(s[1..], x, y);
      var a, b := Without(s[1..], x), Without(s[1..], y);
      assert ([s[0]] + a)[1..] == a && ([s[0]] + b)[1..] == b;
    } else if s != [] && x != y {
      var other := if s[0] == x then y else x;
      assert ([s[0]] + Without(s[1..], other))[1..] == Without(s[1..], other);
    }
  }

  lemma DropCommutes(t: Tables, a: Rule, b: Rule)
    ensures DropRule(DropRule(t, a), b) == DropRule(DropRule(t, b), a)
  {
    if RuleKey(a) == RuleKey(b) && RuleKey(a) in t {
      WithoutCommutes(t[RuleKey(a)], a.spec, b.spec);
    }
  }

  lemma {:induction false} DropMoves(t: Tables, rs: seq<Rule>, i: nat)
    requires i < |rs|
    ensures DropRules(t, rs) == DropRules(DropRule(t, rs[i]), rs[..i] + rs[i + 1..])
    decreases |rs|
  {
    if i == 0 {
      assert rs[..0] + rs[1..] == rs[1..];
    } else {
      DropMoves(DropRule(t, rs[0]), rs[1..], i - 1);
      DropCommutes(t, rs[0], rs[i]);
      var rest := rs[..i] + rs[i + 1..];
      assert rest[1..] == rs[1..][..i - 1] + rs[1..][i..];
    }
  }

  /** The order in which rules are removed does not matter. */
  lemma {:induction false} RemovalOrderIrrelevant(t: Tables, rs: seq<Rule>, qs: seq<Rule>)
    requires multiset(rs) == multiset(qs)
    ensures DropRules(t, rs) == DropRules(t, qs)
    decreases |rs|
  {
    SameLength(rs, qs);
    if rs != [] {
      assert rs[0] in multiset(qs);
      var i :| 0 <= i < |qs| && qs[i] == rs[0];
      DropMoves(t, qs, i);
      SameWithoutOne(rs, qs, i);
      RemovalOrderIrrelevant(DropRule(t, rs[0]), rs[1..], qs[..i] + qs[i + 1..]);
    }
  }

  lemma WithoutAt<T>(a: seq<T>, i: nat)
    requires i < |a|
    ensures multiset(a[..i] + a[i + 1..]) == multiset(a) - multiset{a[i]}
  {
    assert a == a[..i] + ([a[i]] + a[i + 1..]);
  }

  lemma SameWithoutOne<T>(a: seq<T>, b: seq<T>, i: nat)
    requires multiset(a) == multiset(b) && i < |b| && a != [] && a[0] == b[i]
    ensures multiset(a[1..]) == multiset(b[..i] + b[i + 1..])
  {
    WithoutAt(a, 0);
    WithoutAt(b, i);
    assert a[..0] + a[1..] == a[1..];
  }

  function Drops(s: seq<Spec>, rs: seq<Rule>, key: Key): seq<Spec>
    decreases |rs|
  {
    if rs == [] then s
    else if RuleKey(rs[0]) == key then Drops(Without(s, rs[0].spec), rs[1..], key)
    else Drops(s, rs[1..], key)
  }

  lemma {:induction false} WithoutTakes(s: seq<Spec>, x: Spec)
    ensures multiset(Without(s, x)) <= multiset(s)
  {
    if s != [] {
      assert s == [s[0]] + s[1..];
      WithoutTakes(s[1..], x);
    }
  }

  lemma {:induction false} DropsTake(s: seq<Spec>, rs: seq<Rule>, key: Key)
    ensures multiset(Drops(s, rs, key)) <= multiset(s)
    decreases |rs|
  {
    if rs != [] && RuleKey(rs[0]) == key {
      WithoutTakes(s, rs[0].spec);
      DropsTake(Without(s, rs[0].spec), rs[1..], key);
    } else if rs != [] {
      DropsTake(s, rs[1..], key);
    }
  }

  /** Removing rules, whichever, takes rules away and never adds any, and no chain comes or goes. */
  lemma RemovalOnlyTakes(t: Tables, rs: seq<Rule>)
    ensures DropRules(t, rs).Keys == t.Keys
    ensures forall key :: key in t ==> multiset(DropRules(t, rs)[key]) <= multiset(t[key])
  {
    DropsByChain(t, rs);
    forall key | key in t ensures multiset(DropRules(t, rs)[key]) <= multiset(t[key]) {
      DropsTake(t[key], rs, key);
    }
  }

  lemma {:induction false} DropsByChain(t: Tables, rs: seq<Rule>)
    ensures DropRules(t, rs).Keys == t.Keys
    ensures forall key :: key in t ==> DropRules(t, rs)[key] == Drops(t[key], rs, key)
    decreases |rs|
  {
    if rs != [] {
      DropsByChain(DropRule(t, rs[0]), rs[1..]);
      assert DropRule(t, rs[0]).Keys == t.Keys;
    }
  }
}
