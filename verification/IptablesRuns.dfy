/**
 * Whole runs: the driver's setup, and tasks configuring and tearing down their port forwards, in
 * any order on the shared chains. Setup and configuring may fail at any point.
 */
module IptablesRuns {
  import opened Wrappers
  import opened IptablesRequest
  import opened IptablesState

  // ---- The driver's chains -----------------------------------------------------------------

  /**
   * How the driver lays out its chains: those whose rules come and go with tasks, the one that
   * holds permanent rules, and the built-in chains with the jump each of them gets.
   */
  datatype Layout = Layout(taskChains: set<Key>, permanentChain: Key, jumps: map<Key, Spec>) {
    ghost predicate Valid() {
      permanentChain !in taskChains && permanentChain !in jumps && jumps.Keys !! taskChains
    }

    function Owned(): set<Key> {
      taskChains + {permanentChain}
    }
  }

  predicate IsJump(l: Layout, r: Rule) {
    RuleKey(r) in l.jumps && r.spec == l.jumps[RuleKey(r)] && r.position == 1 && !r.removable
  }

  predicate IsPermanent(l: Layout, r: Rule) {
    RuleKey(r) == l.permanentChain && r.position == 0 && !r.removable
  }

  predicate IsTaskRule(l: Layout, r: Rule) {
    RuleKey(r) in l.taskChains && r.position == 0 && r.removable
  }

  /** The form of every request the driver makes; its members come out of hash sets. */
  ghost predicate RequestShape(l: Layout, cs: seq<Chain>, rs: seq<Rule>) {
    && (forall c :: c in cs ==> ChainKey(c) in l.Owned())
    && (forall r :: r in rs ==> IsJump(l, r) || IsPermanent(l, r) || IsTaskRule(l, r))
    && HashDistinct(RuleHash, rs)
  }

  // ---- Bookkeeping -------------------------------------------------------------------------

  /** Removable rules of one call, and the task to tear them down; none for what a failed call left. */
  datatype Installed = Installed(owner: Option<nat>, rules: seq<Rule>)

  /** The tables, the permanent rules gained, and what is installed in the order it was. */
  datatype World = World(tables: Tables, permanent: seq<Spec>, live: seq<Installed>)

  datatype Event =
    | Setup(cs: seq<Chain>, rs: seq<Rule>)
    | Configure(task: nat, cs: seq<Chain>, rs: seq<Rule>)
    | Abandon(cs: seq<Chain>, rs: seq<Rule>)
    | Teardown(task: nat, order: seq<Rule>)

  function SpecsAt(rs: seq<Rule>, key: Key): seq<Spec> {
    if rs == [] then [] else (if RuleKey(rs[0]) == key then [rs[0].spec] else []) + SpecsAt(rs[1..], key)
  }

  /** What is installed on a chain. */
  function LiveSpecs(live: seq<Installed>, key: Key): seq<Spec> {
    if live == [] then [] else SpecsAt(live[0].rules, key) + LiveSpecs(live[1..], key)
  }

  function Original(orig: Tables, key: Key): seq<Spec> {
    if key in orig then orig[key] else []
  }

  /** The new ones among specs, each once. */
  function Gained(have: seq<Spec>, gained: seq<Spec>, specs: seq<Spec>): seq<Spec>
    decreases |specs|
  {
    if specs == [] then gained
    else if specs[0] in have || specs[0] in gained then Gained(have, gained, specs[1..])
    else Gained(have, gained + [specs[0]], specs[1..])
  }

  /** The task's removable rules are on none of the chains they are meant for. */
  ghost predicate Unused(orig: Tables, live: seq<Installed>, rs: seq<Rule>) {
    forall r :: r in rs && r.removable ==>
      r.spec !in Original(orig, RuleKey(r)) && r.spec !in LiveSpecs(live, RuleKey(r))
  }

  /** Chains and rules are applied, and the removable rules belong to the owner. */
  ghost predicate Applies(l: Layout, orig: Tables, w: World, owner: Option<nat>, cs: seq<Chain>, rs: seq<Rule>,
      w': World)
  {
    && RequestShape(l, cs, rs) && Unused(orig, w.live, rs)
    && AddAll(w.tables, cs, rs) == Some(w'.tables)
    && w'.permanent == Gained(Original(orig, l.permanentChain), w.permanent, SpecsAt(rs, l.permanentChain))
    && w'.live == w.live + [Installed(owner, Removables(rs))]
  }

  /**
   * Setup and Abandon are given what was applied: all of a request, or the part of it that was
   * when the call failed. The rules a task removes are those it installed, in any order.
   */
  ghost predicate Step(l: Layout, orig: Tables, w: World, e: Event, w': World) {
    match e
    case Setup(cs, rs) =>
      Removables(rs) == [] && Applies(l, orig, w, None, cs, rs, w'.(live := w.live + [Installed(None, [])]))
      && w'.live == w.live
    case Configure(task, cs, rs) => Applies(l, orig, w, Some(task), cs, rs, w')
    case Abandon(cs, rs) => Applies(l, orig, w, None, cs, rs, w')
    case Teardown(task, order) =>
      exists i :: 0 <= i < |w.live| && w.live[i].owner == Some(task)
        && multiset(order) == multiset(w.live[i].rules)
        && w' == World(DropRules(w.tables, order), w.permanent, w.live[..i] + w.live[i + 1..])
  }

  ghost predicate Steps(l: Layout, orig: Tables, w: World, es: seq<Event>, ws: seq<World>, w': World) {
    && |ws| == |es| + 1 && ws[0] == w && ws[|es|] == w'
    && forall i :: 0 <= i < |es| ==> Step(l, orig, ws[i], es[i], ws[i + 1])
  }

  // ---- The invariant -----------------------------------------------------------------------

  /** What a driver chain has gained: the permanent rules, or what is installed, in order. */
  function Added(l: Layout, w: World, key: Key): seq<Spec> {
    if key == l.permanentChain then w.permanent else LiveSpecs(w.live, key)
  }

  /** A driver chain holds what it had and then what it gained, and those do not overlap. */
  ghost predicate ChainHolds(now: Option<seq<Spec>>, had: seq<Spec>, added: seq<Spec>) {
    && Clean(had, added)
    && match now case Some(s) => s == had + added case None => had == [] && added == []
  }

  /** A built-in chain is as it was, but for its own jump at the front if it lacked that. */
  ghost predicate BuiltInHolds(now: Option<seq<Spec>>, had: seq<Spec>, jump: Spec) {
    now == Some(had) || (jump !in had && now == Some([jump] + had))
  }

  ghost predicate Tracks(l: Layout, orig: Tables, w: World) {
    && l.Valid()
    && orig.Keys <= w.tables.Keys <= orig.Keys + l.Owned()
    && (forall key :: key in l.Owned() ==> ChainHolds(At(w.tables, key), Original(orig, key), Added(l, w, key)))
    && (forall key :: key in l.jumps && key in orig ==> BuiltInHolds(At(w.tables, key), orig[key], l.jumps[key]))
    && (forall key :: key in orig && key !in l.jumps && key !in l.Owned() ==> w.tables[key] == orig[key])
    && (forall x :: x in w.live ==> AllTaskRules(l, x.rules))
  }

  ghost predicate AllTaskRules(l: Layout, rs: seq<Rule>) {
    forall r :: r in rs ==> IsTaskRule(l, r)
  }

  /** added has no duplicates and nothing in common with had. */
  ghost predicate Clean(had: seq<Spec>, added: seq<Spec>) {
    AllDifferent(added) && forall x :: x in added ==> x !in had
  }

  // ---- One chain under a request -----------------------------------------------------------

  /** A built-in chain: at most its own jump is added, at the front. */
  lemma {:induction false} JumpsAtMostOnce(l: Layout, s: seq<Spec>, rs: seq<Rule>, key: Key)
    requires key in l.jumps && forall r :: r in rs && RuleKey(r) == key ==> IsJump(l, r)
    ensures Effects(s, rs, key) == Some(s) || (l.jumps[key] !in s && Effects(s, rs, key) == Some([l.jumps[key]] + s))
    decreases |rs|
  {
    if rs != [] {
      assert rs[0] in rs;
      if RuleKey(rs[0]) != key {
        JumpsAtMostOnce(l, s, rs[1..], key);
      } else {
        var s' := Effect(s, rs[0]).value;
        assert l.jumps[key] !in s ==> s' == s[..0] + [l.jumps[key]] + s[0..] == [l.jumps[key]] + s;
        assert l.jumps[key] in s';
        JumpsAtMostOnce(l, s', rs[1..], key);
      }
    }
  }

  /** A chain of permanent rules gains each new one once. */
  lemma {:induction false} PermanentsGained(had: seq<Spec>, gained: seq<Spec>, rs: seq<Rule>, key: Key)
    requires forall r :: r in rs && RuleKey(r) == key ==> r.position == 0
    requires Clean(had, gained)
    ensures Effects(had + gained, rs, key) == Some(had + Gained(had, gained, SpecsAt(rs, key)))
    ensures Clean(had, Gained(had, gained, SpecsAt(rs, key)))
    decreases |rs|
  {
    if rs != [] {
      assert rs[0] in rs;
      var x := rs[0].spec;
      if RuleKey(rs[0]) != key {
        assert SpecsAt(rs, key) == SpecsAt(rs[1..], key);
        PermanentsGained(had, gained, rs[1..], key);
      } else {
        assert SpecsAt(rs, key)[1..] == SpecsAt(rs[1..], key);
        if x in had + gained {
          PermanentsGained(had, gained, rs[1..], key);
        } else {
          assert (had + gained) + [x] == had + (gained + [x]);
          PermanentsGained(had, gained + [x], rs[1..], key);
        }
      }
    }
  }

  /** A chain of task rules gains exactly the request's rules for it, at the end. */
  lemma TaskRulesAppended(had: seq<Spec>, lives: seq<Spec>, rs: seq<Rule>, key: Key)
    requires forall r :: r in rs && RuleKey(r) == key ==> r.position == 0 && r.spec !in had && r.spec !in lives
    requires HashDistinct(RuleHash, rs) && Clean(had, lives)
    ensures Effects(had + lives, rs, key) == Some(had + (lives + SpecsAt(rs, key)))
    ensures Clean(had, lives + SpecsAt(rs, key))
  {
    PermanentsGained(had, lives, rs, key);
    SpecsDifferent(rs, key);
    forall x | x in SpecsAt(rs, key) ensures x !in had && x !in lives {
      SpecsFromRules(rs, key, x);
    }
    AllGained(had, lives, SpecsAt(rs, key));
  }

  lemma {:induction false} SpecsFromRules(rs: seq<Rule>, key: Key, x: Spec)
    ensures x in SpecsAt(rs, key) <==> exists r :: r in rs && RuleKey(r) == key && r.spec == x
  {
    if rs != [] {
      SpecsFromRules(rs[1..], key, x);
      assert rs == [rs[0]] + rs[1..];
    }
  }

  /** Rules of one chain with different hashes have different specifications. */
  lemma {:induction false} SpecsDifferent(rs: seq<Rule>, key: Key)
    requires HashDistinct(RuleHash, rs)
    ensures AllDifferent(SpecsAt(rs, key))
  {
    if rs != [] {
      assert forall i :: 0 <= i < |rs| - 1 ==> rs[1..][i] == rs[i + 1];
      SpecsDifferent(rs[1..], key);
      forall r | r in rs[1..] && RuleKey(r) == key && RuleKey(rs[0]) == key ensures r.spec != rs[0].spec {
        var i :| 0 <= i < |rs[1..]| && rs[1..][i] == r;
        assert RuleHash(rs[i + 1]) != RuleHash(rs[0]);
      }
      SpecsFromRules(rs[1..], key, rs[0].spec);
    }
  }

  lemma {:induction false} AllGained(had: seq<Spec>, gained: seq<Spec>, specs: seq<Spec>)
    requires AllDifferent(specs) && forall x :: x in specs ==> x !in had && x !in gained
    ensures Gained(had, gained, specs) == gained + specs
    decreases |specs|
  {
    if specs != [] {
      assert specs == [specs[0]] + specs[1..];
      forall x | x in specs[1..] ensures x !in had && x !in gained + [specs[0]] {
        var i :| 0 <= i < |specs[1..]| && specs[1..][i] == x;
        assert specs[i + 1] == x;
      }
      AllGained(had, gained + [specs[0]], specs[1..]);
      assert (gained + [specs[0]]) + specs[1..] == gained + specs;
    }
  }

  // ---- One chain under a removal -----------------------------------------------------------

  lemma {:induction false} WithoutAppend(a: seq<Spec>, b: seq<Spec>, x: Spec)
    ensures x !in a ==> Without(a + b, x) == a + Without(b, x)
    ensures x in a ==> Without(a + b, x) == Without(a, x) + b
  {
    if a == [] {
      assert a + b == b;
    } else {
      assert (a + b)[1..] == a[1..] + b;
      WithoutAppend(a[1..], b, x);
    }
  }

  /** Removing a stretch's own rules takes out that stretch and leaves what surrounds it. */
  lemma {:induction false} StretchRemoved(before: seq<Spec>, rs: seq<Rule>, after: seq<Spec>, key: Key)
    requires forall x :: x in SpecsAt(rs, key) ==> x !in before
    ensures Drops(before + SpecsAt(rs, key) + after, rs, key) == before + after
    decreases |rs|
  {
    if rs == [] {
      assert before + [] + after == before + after;
    } else if RuleKey(rs[0]) != key {
      assert SpecsAt(rs, key) == SpecsAt(rs[1..], key);
      StretchRemoved(before, rs[1..], after, key);
    } else {
      var x, rest := rs[0].spec, SpecsAt(rs[1..], key);
      assert SpecsAt(rs, key) == [x] + rest;
      assert before + SpecsAt(rs, key) + after == before + ([x] + (rest + after));
      WithoutAppend(before, [x] + (rest + after), x);
      assert ([x] + (rest + after))[1..] == rest + after;
      assert before + (rest + after) == before + rest + after;
      StretchRemoved(before, rs[1..], after, key);
    }
  }

  lemma {:induction false} LiveSplit(a: seq<Installed>, b: seq<Installed>, key: Key)
    ensures LiveSpecs(a + b, key) == LiveSpecs(a, key) + LiveSpecs(b, key)
  {
    if a == [] {
      assert a + b == b;
    } else {
      LiveSplit(a[1..], b, key);
      assert (a + b)[1..] == a[1..] + b;
    }
  }

  // ---- Steps keep the invariant ------------------------------------------------------------

  lemma ConfigureTracks(l: Layout, orig: Tables, w: World, owner: Option<nat>, cs: seq<Chain>, rs: seq<Rule>, w': World)
    requires Tracks(l, orig, w) && Applies(l, orig, w, owner, cs, rs, w')
    ensures Tracks(l, orig, w')
  {
    RemovablesIn(rs);
    assert AllTaskRules(l, Removables(rs));
    var t, u := w.tables, w'.tables;
    AddAllKeys(t, cs, rs, u);
    assert orig.Keys <= u.Keys <= orig.Keys + l.Owned();
    forall key | key in l.Owned() ensures ChainHolds(At(u, key), Original(orig, key), Added(l, w', key)) {
      assert ChainHolds(At(t, key), Original(orig, key), Added(l, w, key));
      OwnedConfigured(l, orig, w, Installed(owner, Removables(rs)), cs, rs, w', key);
    }
    forall key | key in l.jumps && key in orig ensures BuiltInHolds(At(u, key), orig[key], l.jumps[key]) {
      assert BuiltInHolds(At(t, key), orig[key], l.jumps[key]);
      AddAllAt(t, cs, rs, u, key);
      BuiltInConfigured(l, t[key], orig[key], rs, key);
    }
    forall key | key in orig && key !in l.jumps && key !in l.Owned() ensures u[key] == orig[key] {
      AddAllAt(t, cs, rs, u, key);
      NoEffects(t[key], rs, key);
    }
  }

  lemma OwnedConfigured(l: Layout, orig: Tables, w: World, x: Installed, cs: seq<Chain>, rs: seq<Rule>, w': World,
      key: Key)
    requires l.Valid() && key in l.Owned() && ChainHolds(At(w.tables, key), Original(orig, key), Added(l, w, key))
    requires RequestShape(l, cs, rs) && Unused(orig, w.live, rs) && AddAll(w.tables, cs, rs) == Some(w'.tables)
    requires w'.permanent == Gained(Original(orig, l.permanentChain), w.permanent, SpecsAt(rs, l.permanentChain))
    requires w'.live == w.live + [x] && x.rules == Removables(rs)
    ensures ChainHolds(At(w'.tables, key), Original(orig, key), Added(l, w', key))
  {
    var had := Original(orig, key);
    AddAllAt(w.tables, cs, rs, w'.tables, key);
    assert key !in w'.tables ==> SpecsAt(rs, key) == [] by {
      if key !in w'.tables {
        NoneAt(rs, key);
      }
    }
    assert had + Added(l, w, key) == [] ==> had + Added(l, w, key) == [];
    if key == l.permanentChain {
      PermanentsGained(had, w.permanent, rs, key);
    } else {
      LiveGrows(w.live, x, key);
      TaskRulesOnly(l, cs, rs, key);
      RemovablesAt(rs, key);
      TaskRulesAppended(had, LiveSpecs(w.live, key), rs, key);
    }
  }

  lemma TaskRulesOnly(l: Layout, cs: seq<Chain>, rs: seq<Rule>, key: Key)
    requires l.Valid() && RequestShape(l, cs, rs) && key in l.Owned()
    ensures forall r :: r in rs && RuleKey(r) == key ==> r.position == 0 && (key in l.taskChains ==> r.removable)
  {
    forall r | r in rs && RuleKey(r) == key ensures r.position == 0 && (key in l.taskChains ==> r.removable) {
      assert IsJump(l, r) || IsPermanent(l, r) || IsTaskRule(l, r);
    }
  }

  lemma {:induction false} NoneAt(rs: seq<Rule>, key: Key)
    requires forall r :: r in rs ==> RuleKey(r) != key
    ensures SpecsAt(rs, key) == []
  {
    if rs != [] {
      assert rs[0] in rs;
      NoneAt(rs[1..], key);
    }
  }

  lemma BuiltInConfigured(l: Layout, s: seq<Spec>, had: seq<Spec>, rs: seq<Rule>, key: Key)
    requires key in l.jumps && BuiltInHolds(Some(s), had, l.jumps[key])
    requires forall r :: r in rs && RuleKey(r) == key ==> IsJump(l, r)
    ensures BuiltInHolds(Effects(s, rs, key), had, l.jumps[key])
  {
    JumpsAtMostOnce(l, s, rs, key);
    assert s != had ==> l.jumps[key] == s[0];
  }

  lemma {:induction false} NoEffects(s: seq<Spec>, rs: seq<Rule>, key: Key)
    requires forall r :: r in rs ==> RuleKey(r) != key
    ensures Effects(s, rs, key) == Some(s)
    decreases |rs|
  {
    if rs != [] {
      assert rs[0] in rs;
      NoEffects(s, rs[1..], key);
    }
  }

  lemma LiveGrows(live: seq<Installed>, x: Installed, key: Key)
    ensures LiveSpecs(live + [x], key) == LiveSpecs(live, key) + SpecsAt(x.rules, key)
  {
    LiveSplit(live, [x], key);
    assert [x][1..] == [];
    assert LiveSpecs([x], key) == SpecsAt(x.rules, key) + [];
  }

  lemma {:induction false} SpecsAtAppend(a: seq<Rule>, b: seq<Rule>, key: Key)
    ensures SpecsAt(a + b, key) == SpecsAt(a, key) + SpecsAt(b, key)
  {
    if a == [] {
      assert a + b == b;
    } else {
      SpecsAtAppend(a[1..], b, key);
      assert (a + b)[1..] == a[1..] + b;
    }
  }

  /** On a chain where all rules are removable, the removable rules are all of them. */
  lemma {:induction false} RemovablesAt(rs: seq<Rule>, key: Key)
    requires forall r :: r in rs && RuleKey(r) == key ==> r.removable
    ensures SpecsAt(Removables(rs), key) == SpecsAt(rs, key)
  {
    if rs != [] {
      var n := |rs| - 1;
      var last := [rs[n]];
      assert rs == rs[..n] + last;
      RemovablesAt(rs[..n], key);
      SpecsAtAppend(rs[..n], last, key);
      SpecsAtAppend(Removables(rs[..n]), if rs[n].removable then last else [], key);
      assert last[1..] == [];
      assert rs[n] in rs;
    }
  }

  lemma {:induction false} RemovablesIn(rs: seq<Rule>)
    ensures forall r :: r in Removables(rs) <==> r in rs && r.removable
  {
    if rs != [] {
      RemovablesIn(rs[..|rs| - 1]);
      assert rs == rs[..|rs| - 1] + [rs[|rs| - 1]];
    }
  }

  lemma TeardownTracks(l: Layout, orig: Tables, w: World, task: nat, order: seq<Rule>, w': World)
    requires Tracks(l, orig, w) && Step(l, orig, w, Teardown(task, order), w')
    ensures Tracks(l, orig, w')
  {
    var i :| 0 <= i < |w.live| && w.live[i].owner == Some(task)
      && multiset(order) == multiset(w.live[i].rules)
      && w' == World(DropRules(w.tables, order), w.permanent, w.live[..i] + w.live[i + 1..]);
    assert w.live[i] in w.live;
    RemovalOrderIrrelevant(w.tables, order, w.live[i].rules);
    ReleasedTracks(l, orig, w, i);
  }

  lemma ReleasedTracks(l: Layout, orig: Tables, w: World, i: nat)
    requires Tracks(l, orig, w) && i < |w.live| && AllTaskRules(l, w.live[i].rules)
    ensures Tracks(l, orig, World(DropRules(w.tables, w.live[i].rules), w.permanent, w.live[..i] + w.live[i + 1..]))
  {
    var mine := w.live[i].rules;
    var t, u := w.tables, DropRules(w.tables, mine);
    var w' := World(u, w.permanent, w.live[..i] + w.live[i + 1..]);
    DropsByChain(t, mine);
    assert u.Keys == t.Keys;
    forall key | key in t && key !in l.taskChains ensures At(u, key) == At(t, key) {
      NoDrops(t[key], mine, key);
    }
    forall key | key in l.Owned() ensures ChainHolds(At(u, key), Original(orig, key), Added(l, w', key)) {
      assert ChainHolds(At(t, key), Original(orig, key), Added(l, w, key));
      if key in l.taskChains {
        TaskChainReleased(At(t, key), Original(orig, key), w.live, i, key);
      } else {
        assert At(u, key) == At(t, key);
      }
    }
    forall key | key in l.jumps && key in orig ensures BuiltInHolds(At(u, key), orig[key], l.jumps[key]) {
      assert BuiltInHolds(At(t, key), orig[key], l.jumps[key]);
      assert At(u, key) == At(t, key);
    }
  }

  lemma TaskChainReleased(now: Option<seq<Spec>>, had: seq<Spec>, live: seq<Installed>, i: nat, key: Key)
    requires i < |live| && ChainHolds(now, had, LiveSpecs(live, key))
    ensures ChainHolds(if now.Some? then Some(Drops(now.value, live[i].rules, key)) else None,
                       had, LiveSpecs(live[..i] + live[i + 1..], key))
  {
    var a, mine, c := LiveSpecs(live[..i], key), SpecsAt(live[i].rules, key), LiveSpecs(live[i + 1..], key);
    LiveAround(live, i, key);
    CleanWithout(had, a, mine, c);
    if now.Some? {
      StretchRemoved(had + a, live[i].rules, c, key);
      Regroup(had, a, mine, c);
    }
  }

  lemma LiveAround(live: seq<Installed>, i: nat, key: Key)
    requires i < |live|
    ensures LiveSpecs(live, key) == LiveSpecs(live[..i], key)
                                   + (SpecsAt(live[i].rules, key) + LiveSpecs(live[i + 1..], key))
    ensures LiveSpecs(live[..i] + live[i + 1..], key) == LiveSpecs(live[..i], key) + LiveSpecs(live[i + 1..], key)
  {
    var tail := live[i..];
    assert live == live[..i] + tail;
    assert tail[0] == live[i] && tail[1..] == live[i + 1..];
    LiveSplit(live[..i], tail, key);
    LiveSplit(live[..i], live[i + 1..], key);
  }

  lemma Regroup<T>(a: seq<T>, b: seq<T>, c: seq<T>, d: seq<T>)
    ensures a + (b + (c + d)) == (a + b) + c + d
    ensures a + (b + d) == (a + b) + d
  {
  }

  lemma CleanWithout(had: seq<Spec>, a: seq<Spec>, b: seq<Spec>, c: seq<Spec>)
    requires Clean(had, a + (b + c))
    ensures Clean(had, a + c) && forall x :: x in b ==> x !in had + a
  {
    var all := a + (b + c);
    assert forall i :: 0 <= i < |c| ==> c[i] == all[|a| + |b| + i];
    assert forall i :: 0 <= i < |b| ==> b[i] == all[|a| + i];
    assert forall i :: 0 <= i < |a| ==> a[i] == all[i];
  }

  lemma {:induction false} NoDrops(s: seq<Spec>, rs: seq<Rule>, key: Key)
    requires forall r :: r in rs ==> RuleKey(r) != key
    ensures Drops(s, rs, key) == s
    decreases |rs|
  {
    if rs != [] {
      assert rs[0] in rs;
      NoDrops(s, rs[1..], key);
    }
  }

  // ---- Runs --------------------------------------------------------------------------------

  /**
   * However tasks come and go, and wherever calls fail, every driver chain holds what it held, the
   * permanent rules and exactly the rules of the live tasks and those failed calls left, in
   * configuration order; every built-in chain is as it was but for at most one jump at its front;
   * nothing else is touched.
   */
  lemma {:induction false} RunTracks(l: Layout, orig: Tables, w: World, es: seq<Event>, ws: seq<World>, w': World)
    requires Tracks(l, orig, w) && Steps(l, orig, w, es, ws, w')
    ensures Tracks(l, orig, w')
    decreases |es|
  {
    if es != [] {
      var n := |es| - 1;
      assert forall i :: 0 <= i < n ==> Step(l, orig, ws[..|es|][i], es[..n][i], ws[..|es|][i + 1]);
      RunTracks(l, orig, w, es[..n], ws[..|es|], ws[n]);
      match es[n]
      case Setup(cs, rs) => SetupStepTracks(l, orig, ws[n], cs, rs, w');
      case Configure(task, cs, rs) => ConfigureTracks(l, orig, ws[n], Some(task), cs, rs, w');
      case Abandon(cs, rs) => ConfigureTracks(l, orig, ws[n], None, cs, rs, w');
      case Teardown(task, order) => TeardownTracks(l, orig, ws[n], task, order, w');
    }
  }

  /** Before anything is done nothing has been gained. */
  lemma NothingTracks(l: Layout, orig: Tables)
    requires l.Valid()
    ensures Tracks(l, orig, World(orig, [], []))
  {
  }

  lemma SetupStepTracks(l: Layout, orig: Tables, w: World, cs: seq<Chain>, rs: seq<Rule>, w': World)
    requires Tracks(l, orig, w) && Step(l, orig, w, Setup(cs, rs), w')
    ensures Tracks(l, orig, w')
  {
    var w1 := w'.(live := w.live + [Installed(None, [])]);
    ConfigureTracks(l, orig, w, None, cs, rs, w1);
    assert DropRules(w1.tables, []) == w1.tables;
    assert w1.live[..|w.live|] + w1.live[|w.live| + 1..] == w.live;
    ReleasedTracks(l, orig, w1, |w.live|);
  }

  /** No step takes away what has no owner. */
  lemma LeftoverStays(l: Layout, orig: Tables, w: World, e: Event, w': World, x: Installed)
    requires Step(l, orig, w, e, w') && x in w.live && x.owner.None?
    ensures x in w'.live
  {
    if e.Teardown? {
      var i :| 0 <= i < |w.live| && w.live[i].owner == Some(e.task)
        && w' == World(DropRules(w.tables, e.order), w.permanent, w.live[..i] + w.live[i + 1..]);
      var k :| 0 <= k < |w.live| && w.live[k] == x;
      assert k < i ==> w.live[..i][k] == x;
      assert k > i ==> w.live[i + 1..][k - i - 1] == x;
    }
  }

  lemma {:induction false} InstalledSpecs(live: seq<Installed>, x: Installed, r: Rule)
    requires x in live && r in x.rules
    ensures r.spec in LiveSpecs(live, RuleKey(r))
  {
    if live[0] == x {
      SpecsFromRules(x.rules, RuleKey(r), r.spec);
    } else {
      InstalledSpecs(live[1..], x, r);
    }
  }

  /** Whatever is installed is on its chains. */
  lemma InstalledPresent(l: Layout, orig: Tables, w: World, x: Installed)
    requires Tracks(l, orig, w) && x in w.live
    ensures forall r :: r in x.rules ==> RuleKey(r) in w.tables && r.spec in w.tables[RuleKey(r)]
  {
    forall r | r in x.rules ensures RuleKey(r) in w.tables && r.spec in w.tables[RuleKey(r)] {
      var key := RuleKey(r);
      assert IsTaskRule(l, r) && key in l.Owned();
      assert ChainHolds(At(w.tables, key), Original(orig, key), Added(l, w, key));
      InstalledSpecs(w.live, x, r);
    }
  }

  /** In these runs, where nobody is given a rule that is installed, the rules a failed Configure left stay. */
  lemma {:induction false} LeftoversStay(l: Layout, orig: Tables, w: World, es: seq<Event>, ws: seq<World>, w': World,
      x: Installed)
    requires Tracks(l, orig, w) && Steps(l, orig, w, es, ws, w') && x in w.live && x.owner.None?
    ensures x in w'.live
    ensures forall r :: r in x.rules ==> RuleKey(r) in w'.tables && r.spec in w'.tables[RuleKey(r)]
    decreases |es|
  {
    if es != [] {
      var n := |es| - 1;
      assert forall i :: 0 <= i < n ==> Step(l, orig, ws[..|es|][i], es[..n][i], ws[..|es|][i + 1]);
      LeftoversStay(l, orig, w, es[..n], ws[..|es|], ws[n], x);
      LeftoverStays(l, orig, ws[n], es[n], w', x);
    }
    RunTracks(l, orig, w, es, ws, w');
    InstalledPresent(l, orig, w', x);
  }

  /** No rule appears twice on a driver chain that started without duplicates. */
  lemma NoDuplicates(l: Layout, orig: Tables, w: World, key: Key)
    requires Tracks(l, orig, w) && key in l.Owned() && key in w.tables
    requires AllDifferent(Original(orig, key))
    ensures AllDifferent(w.tables[key])
  {
    assert ChainHolds(At(w.tables, key), Original(orig, key), Added(l, w, key));
    DifferentTogether(Original(orig, key), Added(l, w, key));
  }

  lemma DifferentTogether(had: seq<Spec>, added: seq<Spec>)
    requires AllDifferent(had) && Clean(had, added)
    ensures AllDifferent(had + added)
  {
    var all := had + added;
    forall i, j | 0 <= i < j < |all| ensures all[i] != all[j] {
      if i < |had| <= j {
        assert added[j - |had|] in added;
      }
    }
  }

  /** What the driver's task chains hold is settled by the live tasks alone. */
  lemma LiveTasksDetermine(l: Layout, orig: Tables, a: World, b: World, key: Key)
    requires Tracks(l, orig, a) && Tracks(l, orig, b) && a.live == b.live
    requires key in l.taskChains && key in b.tables
    ensures b.tables[key] == Original(a.tables, key)
  {
    assert ChainHolds(At(a.tables, key), Original(orig, key), Added(l, a, key));
    assert ChainHolds(At(b.tables, key), Original(orig, key), Added(l, b, key));
  }

  /** Tearing down what was just configured leaves the task chains as they were. */
  lemma TeardownUndoesConfigure(l: Layout, orig: Tables, w: World, task: nat, cs: seq<Chain>, rs: seq<Rule>, w1: World,
      order: seq<Rule>, w2: World)
    requires Tracks(l, orig, w) && forall x :: x in w.live ==> x.owner != Some(task)
    requires Step(l, orig, w, Configure(task, cs, rs), w1) && Step(l, orig, w1, Teardown(task, order), w2)
    ensures w2.live == w.live
    ensures forall key :: key in l.taskChains && key in w2.tables ==> w2.tables[key] == Original(w.tables, key)
  {
    ConfigureTracks(l, orig, w, Some(task), cs, rs, w1);
    TeardownTracks(l, orig, w1, task, order, w2);
    LastLeaves(w.live, Installed(Some(task), Removables(rs)));
    assert w2.live == w.live;
    forall key | key in l.taskChains && key in w2.tables ensures w2.tables[key] == Original(w.tables, key) {
      LiveTasksDetermine(l, orig, w, w2, key);
    }
  }

  lemma LastLeaves(live: seq<Installed>, x: Installed)
    requires forall y :: y in live ==> y.owner != x.owner
    ensures forall i :: 0 <= i <= |live| && (live + [x])[i].owner == x.owner ==>
              (live + [x])[..i] + (live + [x])[i + 1..] == live
  {
    var all := live + [x];
    assert forall k :: 0 <= k < |live| ==> all[k] == live[k] && live[k] in live;
    forall i | 0 <= i <= |live| && all[i].owner == x.owner ensures all[..i] + all[i + 1..] == live {
      assert i == |live|;
    }
  }
}
