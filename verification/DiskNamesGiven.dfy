/** Which names given to disks make the names to come collide (virt/disks/config.go, storage.go). */
module DiskNamesGiven {
  import opened Text
  import opened DiskNames

  /** The character a name generated after the greatest name ends in, in lower case. */
  function NextOf(m: string): char
    requires m != ""
  {
    LowerChar(NextChar(m[|m| - 1]))
  }

  /** The lower-cased names in use with the prefix. */
  function InUse(prefix: string, names: seq<string>): seq<string> {
    ValidNames(prefix, Named(names))
  }

  /**
   * The greatest name has two characters or more after the prefix, and either the name generated
   * after it is in use, or it is generated twice since it does not come after the greatest name.
   */
  predicate Troubled(prefix: string, valid: seq<string>, more: nat) {
    valid != [] && |Max(valid)| > |prefix| + 1 &&
    var c := NextOf(Max(valid));
    (more >= 1 && prefix + [c] in valid) || (more >= 2 && c <= Max(valid)[|prefix|])
  }

  // the code after which the last byte of a character starts over
  const LAST_NEXT := 191

  /** There are codes left for as many more names. */
  predicate CodesLeft(prefix: string, valid: seq<string>, more: nat) {
    && 'z' as int + more <= LAST_NEXT
    && (valid != [] ==> Max(valid) != "" && Max(valid)[|Max(valid)| - 1] as int + more <= LAST_NEXT)
  }

  // ---- The greatest name -------------------------------------------------------------------

  lemma {:induction false} BeforeTotal(a: string, b: string)
    requires !Before(a, b) && !Before(b, a)
    ensures a == b
  {
    if a != [] && b != [] {
      BeforeTotal(a[1..], b[1..]);
      assert a == [a[0]] + a[1..] && b == [b[0]] + b[1..];
    }
  }

  /** The greatest of some names does not depend on how they are listed. */
  lemma GreatestIsMax(names: seq<string>, m: string)
    requires m in names && forall s :: s in names ==> !Before(m, s)
    ensures Max(names) == m
  {
    NothingAfterMax(names);
    BeforeTotal(m, Max(names));
  }

  lemma SameMax(a: seq<string>, b: seq<string>)
    requires a != [] && forall s :: s in a <==> s in b
    ensures b != [] && Max(a) == Max(b)
  {
    assert Max(a) in b;
    NothingAfterMax(a);
    GreatestIsMax(b, Max(a));
  }

  lemma MaxWithOneMore(a: seq<string>, r: string, b: seq<string>)
    requires a != [] && forall s :: s in b <==> s in a || s == r
    ensures b != [] && Max(b) == if Before(Max(a), r) then r else Max(a)
  {
    assert r in b;
    NothingAfterMax(a);
    NeverBeforeItself(r);
    if Before(Max(a), r) {
      forall s | s in a ensures !Before(r, s) {
        if Before(r, s) {
          BeforeTransitive(Max(a), r, s);
        }
      }
      GreatestIsMax(b, r);
    } else {
      GreatestIsMax(b, Max(a));
    }
  }

  /** A name is before the prefix and a character if it is the prefix or goes on with a lower one. */
  lemma BeforeGenerated(prefix: string, m: string, c: char)
    requires HasPrefix(m, prefix)
    ensures Before(m, prefix + [c]) <==> |m| == |prefix| || m[|prefix|] < c
  {
    var rest := m[|prefix|..];
    assert m == prefix + rest;
    BeforeAfterPrefix(prefix, rest, [c]);
    assert rest != [] ==> rest[0] == m[|prefix|] && !Before(rest[1..], [c][1..]);
  }

  // ---- One more name -----------------------------------------------------------------------

  /** A name generated in a collision, or after which there is trouble still: that is to be in trouble before. */
  lemma TroubledNext(prefix: string, valid: seq<string>, more: nat, r: string, next: seq<string>)
    requires |prefix| == 2 && more > 0 && CodesLeft(prefix, valid, more)
    requires forall s :: s in valid ==> HasPrefix(s, prefix)
    requires r == if valid == [] then prefix + "a" else prefix + [NextOf(Max(valid))]
    requires forall s :: s in next <==> s in valid || s == r
    ensures Troubled(prefix, valid, more) <==> Collides(prefix, valid) || Troubled(prefix, next, more - 1)
    ensures CodesLeft(prefix, next, more - 1)
  {
    if valid == [] {
      assert r in next;
      NeverBeforeItself(r);
      GreatestIsMax(next, r);
    } else {
      var m := Max(valid);
      BeforeGenerated(prefix, m, NextOf(m));
      MaxWithOneMore(valid, r, next);
      NothingAfterMax(valid);
      NextCharIsLater(m[|m| - 1]);
    }
  }

  lemma InUseAre(prefix: string, names: seq<string>)
    ensures forall s :: s in InUse(prefix, names) <==>
              HasPrefix(s, prefix) && exists n :: n in names && n != "" && Lower(n) == s
  {
    NamedAre(names);
    ValidNamesAre(prefix, Named(names));
  }

  lemma InUseWithOneMore(prefix: string, names: seq<string>, k: nat, r: string)
    requires k < |names| && names[k] == "" && r != ""
    ensures forall s :: s in InUse(prefix, names[k := r]) <==>
              s in InUse(prefix, names) || (s == Lower(r) && HasPrefix(s, prefix))
  {
    InUseAre(prefix, names);
    InUseAre(prefix, names[k := r]);
    var after := names[k := r];
    assert after[k] == r;
    assert forall i :: 0 <= i < |names| && i != k ==> after[i] == names[i];
    forall n ensures n in after && n != "" <==> (n in names && n != "") || n == r {
      if n in names && n != "" {
        var i :| 0 <= i < |names| && names[i] == n;
        assert after[i] == n;
      }
    }
  }

  lemma NewNameLowered(busType: string, names: seq<string>)
    ensures var prefix, valid := Prefix(busType), InUse(Prefix(busType), names);
            && (forall s :: s in valid ==> HasPrefix(s, prefix)) && |prefix| == 2
            && (valid != [] ==> Max(valid) != "")
            && Lower(NewName(busType, names)) ==
               (if valid == [] then prefix + "a" else prefix + [NextOf(Max(valid))])
            && HasPrefix(Lower(NewName(busType, names)), prefix)
  {
    InUseAre(Prefix(busType), names);
    PrefixIsLower(busType);
    var r := NewName(busType, names);
    assert Lower(r) == Lower(r[..2]) + Lower(r[2..]);
    assert r[..2] == Prefix(busType);
  }

  lemma SameTrouble(prefix: string, valid: seq<string>, next: seq<string>, more: nat)
    requires forall s :: s in valid <==> s in next
    ensures Troubled(prefix, valid, more) <==> Troubled(prefix, next, more)
    ensures CodesLeft(prefix, valid, more) <==> CodesLeft(prefix, next, more)
  {
    if valid != [] {
      SameMax(valid, next);
    }
  }

  // ---- All names ---------------------------------------------------------------------------

  /** One of the first k names is generated with the prefix and in a collision. */
  ghost predicate CollisionOf(prefix: string, buses: seq<string>, names: seq<string>, k: nat)
    requires k <= |names| == |buses|
  {
    exists i :: 0 <= i < k && names[i] == "" && Prefix(buses[i]) == prefix &&
      CollidesNext(buses[i], NamesAfter(buses, names, i))
  }

  lemma CollisionOfNext(prefix: string, buses: seq<string>, names: seq<string>, k: nat)
    requires k < |names| == |buses|
    ensures CollisionOf(prefix, buses, names, k + 1) <==>
              || CollisionOf(prefix, buses, names, k)
              || (names[k] == "" && Prefix(buses[k]) == prefix && CollidesNext(buses[k], NamesAfter(buses, names, k)))
  {
  }

  /** Trouble so far, or still to come, is trouble with the names given. */
  lemma {:induction false} TroubleKnown(prefix: string, buses: seq<string>, names: seq<string>, k: nat)
    requires k <= |names| == |buses| && |prefix| == 2
    requires CodesLeft(prefix, InUse(prefix, names), Needed(prefix, buses, names, 0))
    ensures var now, more := InUse(prefix, NamesAfter(buses, names, k)), Needed(prefix, buses, names, k);
            && CodesLeft(prefix, now, more)
            && (Troubled(prefix, InUse(prefix, names), Needed(prefix, buses, names, 0)) <==>
                CollisionOf(prefix, buses, names, k) || Troubled(prefix, now, more))
  {
    if k > 0 {
      TroubleKnown(prefix, buses, names, k - 1);
      LaterNamesWait(buses, names, k - 1);
      CollisionOfNext(prefix, buses, names, k - 1);
      TroubleStep(prefix, buses, names, k - 1);
    }
  }

  lemma TroubleStep(prefix: string, buses: seq<string>, names: seq<string>, k: nat)
    requires k < |names| == |buses| && |prefix| == 2 && NamesAfter(buses, names, k)[k] == names[k]
    requires CodesLeft(prefix, InUse(prefix, NamesAfter(buses, names, k)), Needed(prefix, buses, names, k))
    ensures var before := InUse(prefix, NamesAfter(buses, names, k));
            var after := InUse(prefix, NamesAfter(buses, names, k + 1));
            && CodesLeft(prefix, after, Needed(prefix, buses, names, k + 1))
            && (Troubled(prefix, before, Needed(prefix, buses, names, k)) <==>
                || (names[k] == "" && Prefix(buses[k]) == prefix && CollidesNext(buses[k], NamesAfter(buses, names, k)))
                || Troubled(prefix, after, Needed(prefix, buses, names, k + 1)))
  {
    var now := NamesAfter(buses, names, k);
    if names[k] == "" {
      var r := NewName(buses[k], now);
      NewNameNotEmpty(buses[k], now);
      NewNameLowered(buses[k], now);
      InUseWithOneMore(prefix, now, k, r);
      var before, after := InUse(prefix, now), InUse(prefix, now[k := r]);
      if Prefix(buses[k]) == prefix {
        TroubledNext(prefix, before, Needed(prefix, buses, names, k), Lower(r), after);
      } else {
        SameTrouble(prefix, before, after, Needed(prefix, buses, names, k));
      }
    }
  }

  /** There are codes left for the names needed with the prefix. */
  predicate Roomy(prefix: string, buses: seq<string>, names: seq<string>)
    requires |names| == |buses|
  {
    CodesLeft(prefix, InUse(prefix, names), Needed(prefix, buses, names, 0))
  }

  predicate InTrouble(prefix: string, buses: seq<string>, names: seq<string>)
    requires |names| == |buses|
  {
    Troubled(prefix, InUse(prefix, names), Needed(prefix, buses, names, 0))
  }

  lemma EitherInTrouble(vd: string, sd: string, buses: seq<string>, names: seq<string>)
    requires |names| == |buses| && |vd| == |sd| == 2 && Roomy(vd, buses, names) && Roomy(sd, buses, names)
    requires vd == Prefix("virtio") && sd == Prefix("")
    ensures SomeCollision(buses, names, |names|) <==> InTrouble(vd, buses, names) || InTrouble(sd, buses, names)
  {
    TroubleKnown(vd, buses, names, |names|);
    TroubleKnown(sd, buses, names, |names|);
    assert forall bus :: Prefix(bus) == vd || Prefix(bus) == sd;
  }

  /**
   * Told by the names given: as long as character codes last, all names end up different up to
   * case exactly when those given are, and neither prefix is in trouble with them.
   */
  lemma GivenNamesEndDistinctIff(buses: seq<string>, names: seq<string>)
    requires |names| == |buses| && Roomy("vd", buses, names) && Roomy("sd", buses, names)
    ensures DistinctUpToCase(NamesAfter(buses, names, |names|)) <==>
              DistinctUpToCase(names) && !InTrouble("vd", buses, names) && !InTrouble("sd", buses, names)
  {
    NamesEndDistinctIff(buses, names, |names|);
    EitherInTrouble("vd", "sd", buses, names);
  }

  /** What to ask of the names given so that all names end up different. */
  ghost predicate NamesWillDiffer(buses: seq<string>, names: seq<string>)
    requires |names| == |buses|
  {
    && DistinctUpToCase(names)
    && Roomy("vd", buses, names) && !InTrouble("vd", buses, names)
    && Roomy("sd", buses, names) && !InTrouble("sd", buses, names)
  }

  lemma {:induction false} NamesFilled(buses: seq<string>, names: seq<string>, k: nat)
    requires k <= |names| == |buses|
    ensures forall i :: 0 <= i < k ==> NamesAfter(buses, names, k)[i] != ""
  {
    if k > 0 {
      NamesFilled(buses, names, k - 1);
      NewNameNotEmpty(buses[k - 1], NamesAfter(buses, names, k - 1));
    }
  }

  lemma GivenNamesDiffer(buses: seq<string>, names: seq<string>)
    requires |names| == |buses| && NamesWillDiffer(buses, names)
    ensures var r := NamesAfter(buses, names, |names|);
            && (forall i :: 0 <= i < |r| ==> r[i] != "")
            && (forall i, j :: 0 <= i < j < |r| ==> Lower(r[i]) != Lower(r[j]))
  {
    GivenNamesEndDistinctIff(buses, names);
    NamesFilled(buses, names, |names|);
  }

  /** One letter after the prefix and letters left are enough. */
  lemma RoomIsEnough(buses: seq<string>, names: seq<string>)
    requires |names| == |buses| && RoomForAll(buses, names, names, 0)
    ensures NamesWillDiffer(buses, names)
  {
    LetteredIsEnough("vd", names, Needed("vd", buses, names, 0));
    LetteredIsEnough("sd", names, Needed("sd", buses, names, 0));
  }

  lemma LetteredIsEnough(prefix: string, names: seq<string>, more: nat)
    requires |prefix| == 2 && Lettered(prefix, names, more)
    ensures CodesLeft(prefix, InUse(prefix, names), more) && !Troubled(prefix, InUse(prefix, names), more)
  {
    ValidAreLettered(prefix, names, more);
    var valid := InUse(prefix, names);
    assert valid != [] ==> OneLetter(Max(valid), prefix, more);
  }
}
