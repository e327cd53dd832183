/**
 * Requests: hash sets of chains and rules whose members are stamped on insertion
 * (net/filter/iptables/request.go, rules.go).
 */
module IptablesRequest {
  import opened Wrappers

  type Spec = seq<string>

  datatype Chain = Chain(table: string, name: string)

  datatype Rule = Rule(table: string, chain: string, position: nat, spec: Spec, removable: bool)

  datatype Stamped<T> = Stamped(item: T, stamp: nat)

  function Join(parts: seq<string>): string {
    if parts == [] then "" else parts[0] + Join(parts[1..])
  }

  /** Equal chains hash alike; so may different ones, the parts being run together. */
  function ChainHash(c: Chain): string {
    c.table + c.name
  }

  function RuleHash(r: Rule): string {
    r.table + r.chain + Join(r.spec)
  }

  // ---- First insertions --------------------------------------------------------------------

  predicate Holds<T>(hash: T -> string, items: seq<T>, key: string) {
    exists i :: 0 <= i < |items| && hash(items[i]) == key
  }

  /** The items as a hash set takes them: an item whose hash is already there is dropped. */
  function Firsts<T>(hash: T -> string, items: seq<T>): seq<T> {
    if items == [] then []
    else
      var before := Firsts(hash, items[..|items| - 1]);
      var last := items[|items| - 1];
      if Holds(hash, before, hash(last)) then before else before + [last]
  }

  predicate HashDistinct<T>(hash: T -> string, items: seq<T>) {
    forall i, j :: 0 <= i < j < |items| ==> hash(items[i]) != hash(items[j])
  }

  lemma {:induction false} FirstsDistinct<T>(hash: T -> string, items: seq<T>)
    ensures HashDistinct(hash, Firsts(hash, items))
    ensures forall key :: Holds(hash, Firsts(hash, items), key) <==> Holds(hash, items, key)
    ensures forall x :: x in Firsts(hash, items) ==> x in items
  {
    if items != [] {
      var n := |items| - 1;
      FirstsDistinct(hash, items[..n]);
      assert items == items[..n] + [items[n]];
      var before := Firsts(hash, items[..n]);
      forall key ensures Holds(hash, Firsts(hash, items), key) <==> Holds(hash, items, key) {
        HoldsAppend(hash, items[..n], items[n], key);
        HoldsAppend(hash, before, items[n], key);
      }
    }
  }

  lemma HoldsAppend<T>(hash: T -> string, items: seq<T>, x: T, key: string)
    ensures Holds(hash, items + [x], key) <==> Holds(hash, items, key) || hash(x) == key
  {
    var all := items + [x];
    if Holds(hash, items, key) {
      var i :| 0 <= i < |items| && hash(items[i]) == key;
      assert hash(all[i]) == key;
    }
    assert hash(x) == key ==> hash(all[|items|]) == key;
  }

  /** Nothing is dropped exactly when no two items hash alike. */
  lemma {:induction false} FirstsKeepsAllIffDistinct<T>(hash: T -> string, items: seq<T>)
    ensures Firsts(hash, items) == items <==> HashDistinct(hash, items)
    ensures |Firsts(hash, items)| <= |items|
  {
    if items != [] {
      var n := |items| - 1;
      FirstsKeepsAllIffDistinct(hash, items[..n]);
      assert items == items[..n] + [items[n]];
      FirstsDistinct(hash, items);
      if HashDistinct(hash, items) {
        assert HashDistinct(hash, items[..n]);
        assert Firsts(hash, items[..n]) == items[..n];
      }
    }
  }

  /** No item is lost, but for repetitions, exactly when items that hash alike are equal. */
  lemma NothingLostIff<T>(hash: T -> string, items: seq<T>)
    ensures (forall x :: x in items ==> x in Firsts(hash, items)) <==>
            (forall x, y :: x in items && y in items && hash(x) == hash(y) ==> x == y)
  {
    var kept := Firsts(hash, items);
    FirstsDistinct(hash, items);
    if forall x :: x in items ==> x in kept {
      forall x, y | x in items && y in items && hash(x) == hash(y) ensures x == y {
        var i :| 0 <= i < |kept| && kept[i] == x;
        var j :| 0 <= j < |kept| && kept[j] == y;
      }
    }
    if forall x, y :: x in items && y in items && hash(x) == hash(y) ==> x == y {
      forall x | x in items ensures x in kept {
        var i :| 0 <= i < |items| && items[i] == x;
        assert Holds(hash, items, hash(x));
        var j :| 0 <= j < |kept| && hash(kept[j]) == hash(x);
        assert kept[j] in items;
      }
    }
  }

  /** Two different rules can run together to one hash, and then one is lost. */
  lemma CollidingRulesAreDropped()
    ensures var a := Rule("nat", "OUT", 0, ["-s", "1"], true); var b := Rule("nat", "OUT", 0, ["-s1"], true);
            a != b && Firsts(RuleHash, [a, b]) == [a]
  {
    var a, b := Rule("nat", "OUT", 0, ["-s", "1"], true), Rule("nat", "OUT", 0, ["-s1"], true);
    assert a.spec[1..] == ["1"] && a.spec[1..][1..] == [] && b.spec[1..] == [];
    assert Join(a.spec) == "-s" + ("1" + "") == "-s1" + "" == Join(b.spec);
    assert [a, b][..1] == [a] && [a][..0] == [];
    assert Firsts(RuleHash, [a]) == [a];
    assert RuleHash([a][0]) == RuleHash(b);
  }

  // ---- Stamped sets ------------------------------------------------------------------------

  type StampedSet<T> = map<string, Stamped<T>>

  /** The set holds exactly the listed items, under their hashes, stamped in list order below bound. */
  ghost predicate Lists<T>(hash: T -> string, m: StampedSet<T>, list: seq<Stamped<T>>, bound: nat) {
    && (forall i :: 0 <= i < |list| ==>
          hash(list[i].item) in m && m[hash(list[i].item)] == list[i] && list[i].stamp < bound)
    && (forall i, j :: 0 <= i < j < |list| ==> list[i].stamp < list[j].stamp)
    && (forall key :: key in m ==> exists i :: 0 <= i < |list| && hash(list[i].item) == key)
  }

  function Items<T>(list: seq<Stamped<T>>): (r: seq<T>)
    ensures |r| == |list| && forall i :: 0 <= i < |list| ==> r[i] == list[i].item
  {
    seq(|list|, i requires 0 <= i < |list| => list[i].item)
  }

  lemma InsertLists<T>(hash: T -> string, m: StampedSet<T>, list: seq<Stamped<T>>, bound: nat, x: T, stamp: nat)
    requires Lists(hash, m, list, bound) && stamp >= bound
    ensures hash(x) in m <==> Holds(hash, Items(list), hash(x))
    ensures hash(x) in m ==> Lists(hash, m, list, stamp + 1)
    ensures hash(x) !in m ==> Lists(hash, m[hash(x) := Stamped(x, stamp)], list + [Stamped(x, stamp)], stamp + 1)
  {
    if hash(x) in m {
      var i :| 0 <= i < |list| && hash(list[i].item) == hash(x);
      assert hash(Items(list)[i]) == hash(x);
    } else {
      var m', list' := m[hash(x) := Stamped(x, stamp)], list + [Stamped(x, stamp)];
      forall key | key in m' ensures exists i :: 0 <= i < |list'| && hash(list'[i].item) == key {
        if key == hash(x) {
          assert hash(list'[|list|].item) == key;
        } else {
          var i :| 0 <= i < |list| && hash(list[i].item) == key;
          assert hash(list'[i].item) == key;
        }
      }
    }
  }

  /** The set lists the first insertions among all insertions so far. */
  ghost predicate Mirrors<T>(hash: T -> string, m: StampedSet<T>, list: seq<Stamped<T>>, bound: nat, ins: seq<T>) {
    Lists(hash, m, list, bound) && Items(list) == Firsts(hash, ins)
  }

  lemma MirrorsLater<T>(hash: T -> string, m: StampedSet<T>, list: seq<Stamped<T>>, bound: nat, ins: seq<T>)
    requires Mirrors(hash, m, list, bound, ins)
    ensures Mirrors(hash, m, list, bound + 1, ins)
  {
  }

  predicate SortedByStamp<T>(s: seq<Stamped<T>>) {
    forall i, j :: 0 <= i < j < |s| ==> s[i].stamp <= s[j].stamp
  }

  /** Any listing of the set's members, once sorted by stamp, is the list: order of iteration is lost. */
  lemma {:induction false} SortedListingUnique<T>(a: seq<Stamped<T>>, b: seq<Stamped<T>>)
    requires multiset(a) == multiset(b) && SortedByStamp(a)
    requires forall i, j :: 0 <= i < j < |b| ==> b[i].stamp < b[j].stamp
    ensures a == b
    decreases |b|
  {
    SameLength(a, b);
    if b != [] {
      var n := |b| - 1;
      LastAgrees(a, b);
      DropLast(a);
      DropLast(b);
      SortedListingUnique(a[..n], b[..n]);
    }
  }

  lemma SameLength<T>(a: seq<T>, b: seq<T>)
    requires multiset(a) == multiset(b)
    ensures |a| == |b|
  {
    assert |multiset(a)| == |multiset(b)|;
  }

  lemma DropLast<T>(a: seq<T>)
    requires a != []
    ensures a == a[..|a| - 1] + [a[|a| - 1]] && multiset(a[..|a| - 1]) == multiset(a) - multiset{a[|a| - 1]}
  {
    assert a == a[..|a| - 1] + [a[|a| - 1]];
  }

  lemma LastAgrees<T>(a: seq<Stamped<T>>, b: seq<Stamped<T>>)
    requires multiset(a) == multiset(b) && |a| == |b| > 0 && SortedByStamp(a)
    requires forall i, j :: 0 <= i < j < |b| ==> b[i].stamp < b[j].stamp
    ensures a[|a| - 1] == b[|b| - 1]
  {
    var n := |b| - 1;
    assert b[n] in multiset(a) && a[n] in multiset(b);
    var i :| 0 <= i < |a| && a[i] == b[n];
    var j :| 0 <= j < |b| && b[j] == a[n];
    assert j < n ==> a[n].stamp < a[i].stamp;
  }

  // ---- Slicing -----------------------------------------------------------------------------

  lemma {:induction false} DifferentCounts<T>(s: seq<T>, x: T)
    requires AllDifferent(s)
    ensures multiset(s)[x] == if x in s then 1 else 0
  {
    if s != [] {
      DropLast(s);
      DifferentCounts(s[..|s| - 1], x);
    }
  }

  lemma SameMembersSameMultiset<T>(a: seq<T>, b: seq<T>)
    requires AllDifferent(a) && AllDifferent(b) && forall x :: x in a <==> x in b
    ensures multiset(a) == multiset(b)
  {
    forall x ensures multiset(a)[x] == multiset(b)[x] {
      DifferentCounts(a, x);
      DifferentCounts(b, x);
    }
  }

  /** The members of a set, in whatever order it yields them. */
  method Members<T(==)>(m: StampedSet<T>) returns (s: seq<Stamped<T>>, ghost keys: seq<string>)
    ensures |keys| == |s| && AllDifferent(keys)
    ensures forall key :: key in keys <==> key in m
    ensures forall i :: 0 <= i < |s| ==> keys[i] in m && s[i] == m[keys[i]]
  {
    s, keys := [], [];
    var left := m.Keys;
    while left != {}
      invariant left <= m.Keys && |keys| == |s| && AllDifferent(keys)
      invariant forall key :: key in keys <==> key in m && key !in left
      invariant forall i :: 0 <= i < |s| ==> keys[i] in m && s[i] == m[keys[i]]
      decreases left
    {
      var key :| key in left;
      left := left - {key};
      s, keys := s + [m[key]], keys + [key];
    }
  }

  method InsertSorted<T(==)>(r: seq<Stamped<T>>, x: Stamped<T>) returns (r': seq<Stamped<T>>)
    requires SortedByStamp(r)
    ensures SortedByStamp(r') && multiset(r') == multiset(r) + multiset{x}
  {
    var k := |r|;
    while k > 0 && r[k - 1].stamp > x.stamp
      invariant 0 <= k <= |r| && forall j :: k <= j < |r| ==> r[j].stamp > x.stamp
    {
      k := k - 1;
    }
    InsertedCounts(r, k, x);
    InsertedSorted(r, k, x);
    r' := r[..k] + [x] + r[k..];
  }

  lemma InsertedCounts<T>(r: seq<T>, k: nat, x: T)
    requires k <= |r|
    ensures multiset(r[..k] + [x] + r[k..]) == multiset(r) + multiset{x}
  {
    var a, b := r[..k], r[k..];
    assert r == a + b;
    assert multiset(r) == multiset(a) + multiset(b);
  }

  lemma InsertedSorted<T>(r: seq<Stamped<T>>, k: nat, x: Stamped<T>)
    requires SortedByStamp(r) && k <= |r|
    requires (k > 0 ==> r[k - 1].stamp <= x.stamp) && forall j :: k <= j < |r| ==> r[j].stamp > x.stamp
    ensures SortedByStamp(r[..k] + [x] + r[k..])
  {
    var s := r[..k] + [x] + r[k..];
    assert forall j :: 0 <= j < |s| ==> s[j] == if j < k then r[j] else if j == k then x else r[j - 1];
    forall j | 0 <= j < k ensures r[j].stamp <= x.stamp {
      assert r[j].stamp <= r[k - 1].stamp;
    }
  }

  method SortByStamp<T(==)>(s: seq<Stamped<T>>) returns (r: seq<Stamped<T>>)
    ensures SortedByStamp(r) && multiset(r) == multiset(s)
  {
    r := [];
    for i := 0 to |s|
      invariant SortedByStamp(r) && multiset(r) == multiset(s[..i])
    {
      assert s[..i + 1] == s[..i] + [s[i]];
      r := InsertSorted(r, s[i]);
    }
    assert s[..|s|] == s;
  }

  /** Slice: the members sorted by stamp. */
  method Slice<T(==)>(m: StampedSet<T>, ghost hash: T -> string, ghost list: seq<Stamped<T>>, ghost bound: nat)
    returns (s: seq<Stamped<T>>)
    requires Lists(hash, m, list, bound)
    ensures s == list
  {
    var members;
    ghost var keys;
    members, keys := Members(m);
    ListingIsPermutation(hash, m, list, bound, members, keys);
    s := SortByStamp(members);
    SortedListingUnique(s, list);
  }

  lemma ListingIsPermutation<T>(hash: T -> string, m: StampedSet<T>, list: seq<Stamped<T>>, bound: nat,
      members: seq<Stamped<T>>, keys: seq<string>)
    requires Lists(hash, m, list, bound)
    requires |keys| == |members| && AllDifferent(keys)
    requires forall key :: key in keys <==> key in m
    requires forall i :: 0 <= i < |members| ==> keys[i] in m && members[i] == m[keys[i]]
    ensures multiset(members) == multiset(list)
  {
    forall i | 0 <= i < |members| ensures hash(members[i].item) == keys[i] && members[i] in list {
      var j :| 0 <= j < |list| && hash(list[j].item) == keys[i];
    }
    forall x | x in list ensures x in members {
      var j :| 0 <= j < |list| && list[j] == x;
      var i :| 0 <= i < |keys| && keys[i] == hash(x.item);
      assert members[i] == x;
    }
    SameMembersSameMultiset(members, list);
  }

  // ---- The request -------------------------------------------------------------------------

  function Removables(rules: seq<Rule>): seq<Rule> {
    if rules == [] then []
    else Removables(rules[..|rules| - 1]) + if rules[|rules| - 1].removable then [rules[|rules| - 1]] else []
  }

  /** A rule as stored for its later removal: table, chain, and the words of its specification. */
  function Instruction(r: Rule): seq<string> {
    [r.table, r.chain] + r.spec
  }

  function Instructions(rules: seq<Rule>): (r: seq<seq<string>>)
    ensures |r| == |rules| && forall i :: 0 <= i < |r| ==> r[i] == Instruction(rules[i])
  {
    seq(|rules|, i requires 0 <= i < |rules| => Instruction(rules[i]))
  }

  function Parsed(entry: seq<string>): Rule {
    if |entry| == 0 then Rule("", "", 0, [], false)
    else if |entry| == 1 then Rule(entry[0], "", 0, [], false)
    else Rule(entry[0], entry[1], 0, entry[2..], false)
  }

  lemma ParsedInstruction(r: Rule)
    ensures Parsed(Instruction(r)) == Rule(r.table, r.chain, 0, r.spec, false)
  {
    assert Instruction(r)[2..] == r.spec;
  }

  /** A hash set that remembers when its members came in. */
  class StampedItems<T(==)> {
    const hash: T -> string
    var entries: StampedSet<T>
    // what the set holds, by stamp, and everything inserted so far
    ghost var list: seq<Stamped<T>>
    ghost var ins: seq<T>

    ghost predicate Valid(bound: nat)
      reads this
    {
      Mirrors(hash, entries, list, bound, ins)
    }

    constructor (hash: T -> string)
      ensures Valid(0) && ins == [] && this.hash == hash
    {
      this.hash, entries, list, ins := hash, map[], [], [];
    }

    /** Inserts an item unless one with its hash is there. */
    method Insert(x: T, stamp: nat)
      requires Valid(stamp)
      modifies this
      ensures Valid(stamp + 1) && ins == old(ins) + [x]
    {
      InsertLists(hash, entries, list, stamp, x, stamp);
      assert (ins + [x])[..|ins|] == ins;
      if hash(x) !in entries {
        assert Items(list + [Stamped(x, stamp)]) == Items(list) + [x];
        entries, list := entries[hash(x) := Stamped(x, stamp)], list + [Stamped(x, stamp)];
      }
      ins := ins + [x];
    }

    /** The members by stamp. */
    method SliceStamped(ghost bound: nat) returns (s: seq<Stamped<T>>)
      requires Valid(bound)
      ensures s == list
    {
      s := Slice(entries, hash, list, bound);
    }
  }

  lemma AppendNext<T>(was: seq<T>, items: seq<T>, i: nat)
    requires i < |items|
    ensures was + items[..i + 1] == was + items[..i] + [items[i]]
  {
  }

  class Request {
    const chains: StampedItems<Chain>
    const rules: StampedItems<Rule>
    var stampValue: nat

    ghost predicate Valid()
      reads this, chains, rules
    {
      && chains.Valid(stampValue) && chains.hash == ChainHash
      && rules.Valid(stampValue) && rules.hash == RuleHash
    }

    constructor ()
      ensures Valid() && chains.ins == [] && rules.ins == [] && fresh(chains) && fresh(rules)
    {
      chains := new StampedItems(ChainHash);
      rules := new StampedItems(RuleHash);
      stampValue := 0;
    }

    method InsertRule(item: Rule)
      requires Valid()
      modifies this, rules
      ensures Valid() && rules.ins == old(rules.ins) + [item]
    {
      MirrorsLater(chains.hash, chains.entries, chains.list, stampValue, chains.ins);
      rules.Insert(item, stampValue);
      stampValue := stampValue + 1;
    }

    method InsertChain(item: Chain)
      requires Valid()
      modifies this, chains
      ensures Valid() && chains.ins == old(chains.ins) + [item]
    {
      MirrorsLater(rules.hash, rules.entries, rules.list, stampValue, rules.ins);
      chains.Insert(item, stampValue);
      stampValue := stampValue + 1;
    }

    method InsertRules(items: seq<Rule>)
      requires Valid()
      modifies this, rules
      ensures Valid() && rules.ins == old(rules.ins) + items
    {
      ghost var was := rules.ins;
      for i := 0 to |items|
        invariant Valid() && rules.ins == was + items[..i]
      {
        AppendNext(was, items, i);
        InsertRule(items[i]);
      }
      assert items[..|items|] == items;
    }

    method InsertChains(items: seq<Chain>)
      requires Valid()
      modifies this, chains
      ensures Valid() && chains.ins == old(chains.ins) + items
    {
      ghost var was := chains.ins;
      for i := 0 to |items|
        invariant Valid() && chains.ins == was + items[..i]
      {
        AppendNext(was, items, i);
        InsertChain(items[i]);
      }
      assert items[..|items|] == items;
    }

    method RuleSlice() returns (s: seq<Rule>)
      requires Valid()
      ensures s == Firsts(RuleHash, rules.ins)
    {
      var stamped := rules.SliceStamped(stampValue);
      s := Items(stamped);
    }

    method ChainSlice() returns (s: seq<Chain>)
      requires Valid()
      ensures s == Firsts(ChainHash, chains.ins)
    {
      var stamped := chains.SliceStamped(stampValue);
      s := Items(stamped);
    }

    /** The removable rules, through a set of their own that keeps their stamps. */
    method RemovalInstructions() returns (r: seq<seq<string>>)
      requires Valid()
      ensures r == Instructions(Removables(Firsts(RuleHash, rules.ins)))
    {
      var all := rules.SliceStamped(stampValue);
      FirstsDistinct(RuleHash, rules.ins);
      r := InstructionsOf(rules.hash, all);
    }
  }

  method InstructionsOf(hash: Rule -> string, all: seq<Stamped<Rule>>) returns (r: seq<seq<string>>)
    requires forall i, j :: 0 <= i < j < |all| ==> all[i].stamp < all[j].stamp
    requires HashDistinct(hash, Items(all))
    ensures r == Instructions(Removables(Items(all)))
  {
    var kept: StampedSet<Rule> := map[];
    ghost var list: seq<Stamped<Rule>> := [];
    ghost var bound: nat := 0;
    for i := 0 to |all|
      invariant Lists(hash, kept, list, bound) && (i < |all| ==> bound <= all[i].stamp)
      invariant Items(list) == Removables(Items(all[..i]))
      invariant forall x :: x in list ==> x in all[..i]
    {
      var x := all[i];
      assert all[..i + 1] == all[..i] + [x];
      assert Items(all[..i + 1])[..i] == Items(all[..i]);
      if x.item.removable {
        NotYetKept(hash, all, i, list);
        InsertLists(hash, kept, list, bound, x.item, x.stamp);
        assert Items(list + [x]) == Items(list) + [x.item];
        kept := kept[hash(x.item) := x];
        list := list + [x];
        bound := x.stamp + 1;
      }
    }
    assert all[..|all|] == all;
    var stamped := Slice(kept, hash, list, bound);
    r := Instructions(Items(stamped));
  }

  lemma NotYetKept(hash: Rule -> string, all: seq<Stamped<Rule>>, i: nat, list: seq<Stamped<Rule>>)
    requires i < |all| && HashDistinct(hash, Items(all)) && forall x :: x in list ==> x in all[..i]
    ensures !Holds(hash, Items(list), hash(all[i].item))
  {
    forall j | 0 <= j < |list| ensures hash(Items(list)[j]) != hash(all[i].item) {
      assert list[j] in all[..i];
      var k :| 0 <= k < i && all[..i][k] == list[j];
      assert hash(Items(all)[k]) != hash(Items(all)[i]);
    }
  }
}
