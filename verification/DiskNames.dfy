/** Device names for disks (providers/libvirt/storage/storage.go, virt/disks/config.go). */
module DiskNames {
  import opened Text

  function Prefix(busType: string): string {
    if busType == "virtio" then "vd" else "sd"
  }

  /** The order of strings: by the first character that differs, a prefix before what it starts. */
  predicate Before(a: string, b: string) {
    b != [] && (a == [] || a[0] < b[0] || (a[0] == b[0] && Before(a[1..], b[1..])))
  }

  predicate HasPrefix(s: string, prefix: string) {
    |prefix| <= |s| && s[..|prefix|] == prefix
  }

  /** The lower-cased names with the prefix. */
  function ValidNames(prefix: string, names: seq<string>): seq<string> {
    if names == [] then []
    else
      var before, last := ValidNames(prefix, names[..|names| - 1]), Lower(names[|names| - 1]);
      if HasPrefix(last, prefix) then before + [last] else before
  }

  function Max(names: seq<string>): (m: string)
    requires names != []
    ensures m in names
  {
    if |names| == 1 then names[0]
    else
      var m, last := Max(names[..|names| - 1]), names[|names| - 1];
      if Before(m, last) then last else m
  }

  /** The character whose code is one above the last byte of c as text. */
  function NextChar(c: char): char {
    if c as int < 128 then (c as int + 1) as char else (128 + c as int % 64 + 1) as char
  }

  function GeneratedName(prefix: string, valid: seq<string>): string
    requires forall s :: s in valid ==> |s| > 0
  {
    if valid == [] then prefix + "a" else prefix + [NextChar(Max(valid)[|Max(valid)| - 1])]
  }

  lemma {:induction false} ValidNamesAre(prefix: string, names: seq<string>)
    ensures forall s :: s in ValidNames(prefix, names) <==>
              HasPrefix(s, prefix) && exists n :: n in names && Lower(n) == s
  {
    if names != [] {
      var front, last := names[..|names| - 1], names[|names| - 1];
      ValidNamesAre(prefix, front);
      assert names == front + [last];
    }
  }

  lemma ValidNamesLong(prefix: string, names: seq<string>)
    ensures forall s :: s in ValidNames(prefix, names) ==> |s| >= |prefix|
  {
    ValidNamesAre(prefix, names);
  }

  method GenerateDeviceName(busType: string, existing: seq<string>) returns (name: string)
    ensures forall s :: s in ValidNames(Prefix(busType), existing) ==> |s| > 0
    ensures name == GeneratedName(Prefix(busType), ValidNames(Prefix(busType), existing))
  {
    var prefix := "sd";
    if busType == "virtio" {
      prefix := "vd";
    }
    var valid: seq<string> := [];
    for i := 0 to |existing|
      invariant valid == ValidNames(prefix, existing[..i])
    {
      var n := Lower(existing[i]);
      assert existing[..i + 1][..i] == existing[..i];
      if HasPrefix(n, prefix) {
        valid := valid + [n];
      }
    }
    assert existing[..|existing|] == existing;
    ValidNamesLong(prefix, existing);
    if valid == [] {
      return prefix + "a";
    }
    var m := Max(valid);
    name := prefix + [NextChar(m[|m| - 1])];
  }

  // ---- Names for all disks -----------------------------------------------------------------

  function Named(names: seq<string>): seq<string> {
    if names == [] then []
    else
      var before, last := Named(names[..|names| - 1]), names[|names| - 1];
      if last == "" then before else before + [last]
  }

  lemma {:induction false} NamedAre(names: seq<string>)
    ensures forall n :: n in Named(names) <==> n in names && n != ""
  {
    if names != [] {
      var front, last := names[..|names| - 1], names[|names| - 1];
      NamedAre(front);
      assert names == front + [last];
    }
  }

  function NewName(busType: string, names: seq<string>): string {
    var valid := ValidNames(Prefix(busType), Named(names));
    ValidNamesAre(Prefix(busType), Named(names));
    GeneratedName(Prefix(busType), valid)
  }

  /** The names after the first k disks have theirs: a name given is kept, one not given is generated. */
  function NamesAfter(buses: seq<string>, names: seq<string>, k: nat): (r: seq<string>)
    requires k <= |names| == |buses|
    ensures |r| == |names|
  {
    if k == 0 then names
    else
      var before := NamesAfter(buses, names, k - 1);
      if before[k - 1] != "" then before else before[k - 1 := NewName(buses[k - 1], before)]
  }

  /** How many of the disks from k on need a name with the prefix. */
  function Needed(prefix: string, buses: seq<string>, names: seq<string>, k: nat): nat
    requires k <= |names| == |buses|
    decreases |names| - k
  {
    if k == |names| then 0
    else Needed(prefix, buses, names, k + 1) + if names[k] == "" && Prefix(buses[k]) == prefix then 1 else 0
  }

  predicate Given(names: seq<string>, prefix: string, i: int) {
    0 <= i < |names| && names[i] != "" && HasPrefix(Lower(names[i]), prefix)
  }

  // the last code of a single byte
  const LAST_CODE := 127

  /**
   * Every name with the prefix has one character after it, from a on, and there are codes left
   * for more names. With room up to z all names stay letters; it is not needed for their difference.
   */
  ghost predicate Lettered(prefix: string, names: seq<string>, more: nat) {
    && 'a' as int - 1 + more <= LAST_CODE
    && forall i :: Given(names, prefix, i) ==>
        |names[i]| == 3 && 'a' <= Lower(names[i])[2] && Lower(names[i])[2] as int + more <= LAST_CODE
  }

  ghost predicate DistinctUpToCase(names: seq<string>) {
    forall i, j :: 0 <= i < j < |names| && names[i] != "" && names[j] != "" ==> Lower(names[i]) != Lower(names[j])
  }

  // ---- When a generated name is taken ------------------------------------------------------

  lemma {:induction false} NeverBeforeItself(a: string)
    ensures !Before(a, a)
  {
    if a != [] {
      NeverBeforeItself(a[1..]);
    }
  }

  lemma {:induction false} BeforeTransitive(a: string, b: string, c: string)
    requires Before(a, b) && Before(b, c)
    ensures Before(a, c)
  {
    if a != [] && a[0] == b[0] == c[0] {
      BeforeTransitive(a[1..], b[1..], c[1..]);
    }
  }

  lemma {:induction false} NothingAfterMax(names: seq<string>)
    requires names != []
    ensures forall s :: s in names ==> !Before(Max(names), s)
  {
    var front, last := names[..|names| - 1], names[|names| - 1];
    assert names == front + [last];
    NeverBeforeItself(last);
    if front != [] {
      var m := Max(front);
      NothingAfterMax(front);
      forall s | s in front && Before(m, last) ensures !Before(last, s) {
        if Before(last, s) {
          BeforeTransitive(m, last, s);
        }
      }
    }
  }

  lemma {:induction false} BeforeAfterPrefix(p: string, a: string, b: string)
    ensures Before(p + a, p + b) <==> Before(a, b)
  {
    if p == [] {
      assert p + a == a && p + b == b;
    } else {
      assert (p + a)[1..] == p[1..] + a && (p + b)[1..] == p[1..] + b;
      BeforeAfterPrefix(p[1..], a, b);
    }
  }

  /** Up to the codes where the last byte of a character starts over, the next character is later. */
  lemma NextCharIsLater(c: char)
    requires c as int < 192
    ensures c < LowerChar(NextChar(c))
  {
  }

  /**
   * The greatest name has two characters or more after the prefix (or one beyond the codes where
   * the next character is later), and some name is the prefix and the next character.
   */
  predicate Collides(prefix: string, valid: seq<string>) {
    valid != [] && Max(valid) != "" &&
    var last := Max(valid)[|Max(valid)| - 1];
    && (|Max(valid)| > |prefix| + 1 || last as int >= 192)
    && prefix + [LowerChar(NextChar(last))] in valid
  }

  /** A greatest name with at most one character after the prefix is before the name with the next one. */
  lemma GeneratedIsAfter(prefix: string, m: string, c: char)
    requires HasPrefix(m, prefix) && |m| <= |prefix| + 1
    requires |m| == |prefix| + 1 ==> m[|prefix|] < c
    ensures Before(m, prefix + [c])
  {
    var rest := m[|prefix|..];
    assert m == prefix + rest;
    BeforeAfterPrefix(prefix, rest, [c]);
  }

  lemma CollidesExactly(prefix: string, valid: seq<string>)
    requires prefix != "" && Lower(prefix) == prefix && forall s :: s in valid ==> HasPrefix(s, prefix)
    ensures forall s :: s in valid ==> |s| > 0
    ensures Lower(GeneratedName(prefix, valid)) in valid <==> Collides(prefix, valid)
  {
    assert forall s :: s in valid ==> |s| > 0;
    if valid != [] {
      var m := Max(valid);
      var last := m[|m| - 1];
      var next := LowerChar(NextChar(last));
      assert Lower(prefix + [NextChar(last)]) == Lower(prefix) + [next];
      NothingAfterMax(valid);
      if |m| <= |prefix| + 1 && last as int < 192 {
        NextCharIsLater(last);
        GeneratedIsAfter(prefix, m, next);
      }
    }
  }

  predicate Taken(names: seq<string>, name: string) {
    exists n :: n in names && n != "" && Lower(n) == Lower(name)
  }

  /** A generated name is, up to case, that of another disk exactly when the valid names collide. */
  lemma NewNameTakenIff(busType: string, names: seq<string>)
    ensures Taken(names, NewName(busType, names)) <==>
              Collides(Prefix(busType), ValidNames(Prefix(busType), Named(names)))
  {
    var prefix := Prefix(busType);
    var valid := ValidNames(prefix, Named(names));
    NamedAre(names);
    ValidNamesAre(prefix, Named(names));
    PrefixIsLower(busType);
    CollidesExactly(prefix, valid);
    var r := NewName(busType, names);
    assert r[..2] == prefix;
    assert HasPrefix(Lower(r), prefix) by {
      assert Lower(r)[..2] == Lower(r[..2]);
    }
    assert Taken(names, r) <==> Lower(r) in valid;
  }

  lemma PrefixIsLower(busType: string)
    ensures |Prefix(busType)| == 2 && Lower(Prefix(busType)) == Prefix(busType)
  {
  }

  lemma DistinctWithOneMore(names: seq<string>, k: nat, name: string)
    requires k < |names| && names[k] == "" && name != ""
    ensures DistinctUpToCase(names[k := name]) <==> DistinctUpToCase(names) && !Taken(names, name)
  {
    var after := names[k := name];
    if DistinctUpToCase(after) {
      forall n | n in names && n != "" ensures Lower(n) != Lower(name) {
        var i :| 0 <= i < |names| && names[i] == n;
        assert after[i] == n && after[k] == name;
      }
      assert forall i :: 0 <= i < |names| && names[i] != "" ==> after[i] == names[i];
    }
    if DistinctUpToCase(names) && !Taken(names, name) {
      forall i, j | 0 <= i < j < |after| && after[i] != "" && after[j] != ""
        ensures Lower(after[i]) != Lower(after[j]) {
        assert i != k ==> names[i] in names;
        assert j != k ==> names[j] in names;
      }
    }
  }

  ghost predicate CollidesNext(busType: string, names: seq<string>) {
    Collides(Prefix(busType), ValidNames(Prefix(busType), Named(names)))
  }

  /** Some name is generated while the names in use collide. */
  ghost predicate SomeCollision(buses: seq<string>, names: seq<string>, k: nat)
    requires k <= |names| == |buses|
  {
    exists i :: 0 <= i < k && names[i] == "" &&
      CollidesNext(buses[i], NamesAfter(buses, names, i))
  }

  lemma SomeCollisionNext(buses: seq<string>, names: seq<string>, k: nat)
    requires k < |names| == |buses|
    ensures SomeCollision(buses, names, k + 1) <==>
              SomeCollision(buses, names, k) || (names[k] == "" && CollidesNext(buses[k], NamesAfter(buses, names, k)))
  {
  }

  /**
   * All disks end up with names that differ up to case exactly when those given did and none was generated in a
   * collision.
   */
  lemma {:induction false} NamesEndDistinctIff(buses: seq<string>, names: seq<string>, k: nat)
    requires k <= |names| == |buses|
    ensures DistinctUpToCase(NamesAfter(buses, names, k)) <==>
              DistinctUpToCase(names) && !SomeCollision(buses, names, k)
  {
    if k > 0 {
      NamesEndDistinctIff(buses, names, k - 1);
      LaterNamesWait(buses, names, k - 1);
      SomeCollisionNext(buses, names, k - 1);
      OneNameDistinctIff(buses[k - 1], NamesAfter(buses, names, k - 1), k - 1);
    }
  }

  lemma {:induction false} LaterNamesWait(buses: seq<string>, names: seq<string>, k: nat)
    requires k <= |names| == |buses|
    ensures forall i :: k <= i < |names| ==> NamesAfter(buses, names, k)[i] == names[i]
  {
    if k > 0 {
      LaterNamesWait(buses, names, k - 1);
    }
  }

  /** The next name keeps the names apart unless it is generated in a collision. */
  lemma OneNameDistinctIff(busType: string, before: seq<string>, i: nat)
    requires i < |before|
    ensures before[i] == "" ==>
              (DistinctUpToCase(before[i := NewName(busType, before)]) <==>
               DistinctUpToCase(before) && !CollidesNext(busType, before))
  {
    if before[i] == "" {
      NewNameTakenIff(busType, before);
      NewNameNotEmpty(busType, before);
      DistinctWithOneMore(before, i, NewName(busType, before));
    }
  }

  lemma NewNameNotEmpty(busType: string, names: seq<string>)
    ensures NewName(busType, names) != ""
  {
  }

  // ---- Enough room -------------------------------------------------------------------------

  lemma BeforeByLetter(prefix: string, a: string, b: string)
    requires |prefix| == 2 && |a| == 3 && |b| == 3 && HasPrefix(a, prefix) && HasPrefix(b, prefix)
    ensures Before(a, b) <==> a[2] < b[2]
  {
    assert a[0] == prefix[0] == b[0] && a[1] == prefix[1] == b[1];
    assert a[1..][1..][1..] == [] && b[1..][1..][1..] == [];
    assert Before(a[1..][1..], b[1..][1..]) <==> a[2] < b[2];
    assert Before(a[1..], b[1..]) <==> a[2] < b[2];
  }

  lemma {:induction false} MaxHasLastLetter(prefix: string, names: seq<string>)
    requires |prefix| == 2 && names != [] && forall s :: s in names ==> |s| == 3 && HasPrefix(s, prefix)
    ensures forall s :: s in names ==> s[2] <= Max(names)[2]
  {
    if |names| > 1 {
      var front, last := names[..|names| - 1], names[|names| - 1];
      MaxHasLastLetter(prefix, front);
      assert names == front + [last];
      BeforeByLetter(prefix, Max(front), last);
    }
  }

  /** A prefix and one character that leaves room for more. */
  predicate OneLetter(s: string, prefix: string, more: nat) {
    |s| == 3 && HasPrefix(s, prefix) && 'a' <= s[2] && s[2] as int + more <= LAST_CODE
  }

  lemma NextLetterIsFresh(prefix: string, valid: seq<string>, more: nat)
    requires |prefix| == 2 && 0 < more && 'a' as int - 1 + more <= LAST_CODE && forall s :: s in valid ==>
               OneLetter(s, prefix, more)
    ensures forall s :: s in valid ==> |s| > 0
    ensures OneLetter(GeneratedName(prefix, valid), prefix, more - 1) && GeneratedName(prefix, valid) !in valid
  {
    if valid != [] {
      MaxHasLastLetter(prefix, valid);
      assert OneLetter(Max(valid), prefix, more);
    }
  }

  lemma ValidAreLettered(prefix: string, names: seq<string>, more: nat)
    requires Lettered(prefix, names, more)
    ensures forall s :: s in ValidNames(prefix, Named(names)) ==> OneLetter(s, prefix, more)
  {
    NamedAre(names);
    ValidNamesAre(prefix, Named(names));
    forall s | s in ValidNames(prefix, Named(names)) ensures OneLetter(s, prefix, more) {
      var n :| n in Named(names) && Lower(n) == s;
      var i :| 0 <= i < |names| && names[i] == n;
      assert Given(names, prefix, i);
    }
  }

  /** With room for one more letter the new name takes the next code, and nobody has it in any case. */
  lemma NewNameIsFresh(busType: string, names: seq<string>, more: nat)
    requires Lettered(Prefix(busType), names, more) && more > 0
    ensures OneLetter(NewName(busType, names), Prefix(busType), more - 1)
    ensures Lower(NewName(busType, names)) == NewName(busType, names)
    ensures forall n :: n in names && n != "" ==> Lower(n) != NewName(busType, names)
  {
    var prefix, r := Prefix(busType), NewName(busType, names);
    var valid := ValidNames(prefix, Named(names));
    ValidAreLettered(prefix, names, more);
    ValidNamesAre(prefix, Named(names));
    NextLetterIsFresh(prefix, valid, more);
    assert r[..2] == prefix && r[0] == prefix[0] && r[1] == prefix[1];
    NamedAre(names);
    forall n | n in names && n != "" ensures Lower(n) != r {
      assert n in Named(names);
    }
  }

  lemma StepKeepsNames(busType: string, names: seq<string>, k: nat, more: nat)
    requires k < |names| && names[k] == "" && DistinctUpToCase(names)
    requires Lettered(Prefix(busType), names, more) && more > 0
    ensures var after := names[k := NewName(busType, names)];
            DistinctUpToCase(after) && Lettered(Prefix(busType), after, more - 1)
  {
    NewNameIsFresh(busType, names, more);
    var r := NewName(busType, names);
    var after := names[k := r];
    forall i, j | 0 <= i < j < |after| && after[i] != "" && after[j] != "" ensures Lower(after[i]) != Lower(after[j]) {
      assert i != k ==> names[i] in names;
      assert j != k ==> names[j] in names;
    }
    forall i | Given(after, Prefix(busType), i)
      ensures |after[i]| == 3 && 'a' <= Lower(after[i])[2] && Lower(after[i])[2] as int + (more - 1) <= LAST_CODE
    {
      assert i != k ==> Given(names, Prefix(busType), i);
    }
  }

  lemma OtherPrefixUnaffected(prefix: string, busType: string, names: seq<string>, k: nat, more: nat, room: nat)
    requires k < |names| && names[k] == "" && (prefix == "vd" || prefix == "sd") && prefix != Prefix(busType)
    requires Lettered(Prefix(busType), names, more) && more > 0 && Lettered(prefix, names, room)
    ensures Lettered(prefix, names[k := NewName(busType, names)], room)
  {
    NewNameIsFresh(busType, names, more);
    var after := names[k := NewName(busType, names)];
    var r := after[k];
    assert r[..2][0] == Prefix(busType)[0] && !HasPrefix(r, prefix);
    assert forall i :: Given(after, prefix, i) ==> Given(names, prefix, i) && after[i] == names[i];
  }

  /** Names given apart from one another, with letters to spare for the names to come. */
  ghost predicate RoomForAll(buses: seq<string>, names: seq<string>, now: seq<string>, k: nat)
    requires k <= |names| == |buses|
  {
    && DistinctUpToCase(now)
    && Lettered("vd", now, Needed("vd", buses, names, k))
    && Lettered("sd", now, Needed("sd", buses, names, k))
  }

  lemma RoomAfterOne(buses: seq<string>, names: seq<string>, now: seq<string>, k: nat)
    requires k < |names| == |buses| == |now| && names[k] == now[k] == "" && RoomForAll(buses, names, now, k)
    ensures RoomForAll(buses, names, now[k := NewName(buses[k], now)], k + 1) && NewName(buses[k], now) != ""
  {
    var mine := Prefix(buses[k]);
    var other := if mine == "vd" then "sd" else "vd";
    var more, room := Needed(mine, buses, names, k), Needed(other, buses, names, k);
    StepKeepsNames(buses[k], now, k, more);
    OtherPrefixUnaffected(other, buses[k], now, k, more, room);
    NewNameIsFresh(buses[k], now, more);
  }

  lemma {:induction false} NamesStayApart(buses: seq<string>, names: seq<string>, k: nat)
    requires k <= |names| == |buses| && RoomForAll(buses, names, names, 0)
    ensures RoomForAll(buses, names, NamesAfter(buses, names, k), k)
    ensures forall i :: k <= i < |names| ==> NamesAfter(buses, names, k)[i] == names[i]
    ensures forall i :: 0 <= i < k ==> NamesAfter(buses, names, k)[i] != ""
    ensures forall i :: 0 <= i < |names| && names[i] != "" ==> NamesAfter(buses, names, k)[i] == names[i]
  {
    if k > 0 {
      NamesStayApart(buses, names, k - 1);
      var before := NamesAfter(buses, names, k - 1);
      if before[k - 1] == "" {
        RoomAfterOne(buses, names, before, k - 1);
      }
    }
  }

  /**
   * If the names given differ up to case, those starting vd or sd have one letter more, and the
   * letters left suffice for the names needed, then all names end up different up to case.
   */
  lemma NamesEndDistinct(buses: seq<string>, names: seq<string>)
    requires |names| == |buses| && RoomForAll(buses, names, names, 0)
    ensures var r := NamesAfter(buses, names, |names|);
            && (forall i :: 0 <= i < |r| ==> r[i] != "")
            && (forall i, j :: 0 <= i < j < |r| ==> Lower(r[i]) != Lower(r[j]))
  {
    NamesStayApart(buses, names, |names|);
  }

  /** The name of the volume made for a task's disk. */
  function VolumeName(task: string, devname: string): string {
    task + "_" + devname + ".img"
  }

  lemma VolumeNameInjective(task: string, a: string, b: string)
    requires VolumeName(task, a) == VolumeName(task, b)
    ensures a == b
  {
    var x, y := VolumeName(task, a), VolumeName(task, b);
    assert |a| == |b|;
    assert a == x[|task| + 1..|x| - 4] && b == y[|task| + 1..|y| - 4];
  }

  /** The one task is named as the other with an underscore and the beginning of that one's device name added. */
  ghost predicate Overlap(task: string, a: string, other: string, b: string) {
    exists x :: a == x + "_" + b && other == task + "_" + x
  }

  lemma MeetIfOverlap(task: string, a: string, other: string, b: string)
    requires Overlap(task, a, other, b)
    ensures VolumeName(task, a) == VolumeName(other, b)
  {
    var x :| a == x + "_" + b && other == task + "_" + x;
    assert task + "_" + (x + "_" + b) + ".img" == (task + "_" + x) + "_" + b + ".img";
  }

  lemma OverlapIfMeet(task: string, a: string, other: string, b: string)
    requires VolumeName(task, a) == VolumeName(other, b) && |task| <= |other|
    ensures (task == other && a == b) || Overlap(task, a, other, b)
  {
    var name, n, m := VolumeName(task, a), |task|, |other|;
    assert name[..n] == task && name[..m] == other && name[n] == '_' && name[m] == '_';
    assert a == name[n + 1..|name| - 4] && b == name[m + 1..|name| - 4];
    if n < m {
      var x := name[n + 1..m];
      assert a == x + "_" + b && other == task + "_" + x;
    }
  }

  /** Tasks and devices lead to one volume name exactly if they are the same or overlap at an underscore. */
  lemma VolumeNamesMeetIff(task: string, a: string, other: string, b: string)
    ensures VolumeName(task, a) == VolumeName(other, b) <==>
            (task == other && a == b) || Overlap(task, a, other, b) || Overlap(other, b, task, a)
  {
    if VolumeName(task, a) == VolumeName(other, b) {
      if |task| <= |other| {
        OverlapIfMeet(task, a, other, b);
      } else {
        OverlapIfMeet(other, b, task, a);
      }
    } else if Overlap(task, a, other, b) {
      MeetIfOverlap(task, a, other, b);
    } else if Overlap(other, b, task, a) {
      MeetIfOverlap(other, b, task, a);
    }
  }

  lemma OverlapHasUnderscore(task: string, a: string, other: string, b: string)
    requires Overlap(task, a, other, b)
    ensures '_' in a
  {
    var x :| a == x + "_" + b && other == task + "_" + x;
    assert a[|x|] == '_';
  }

  /** Without underscores in the device names a volume's name tells the task and the device. */
  lemma VolumeNameTells(task: string, a: string, other: string, b: string)
    requires '_' !in a && '_' !in b && VolumeName(task, a) == VolumeName(other, b)
    ensures task == other && a == b
  {
    VolumeNamesMeetIff(task, a, other, b);
    if Overlap(task, a, other, b) {
      OverlapHasUnderscore(task, a, other, b);
    } else if Overlap(other, b, task, a) {
      OverlapHasUnderscore(other, b, task, a);
    }
  }

  /** Two tasks that share a volume name. */
  lemma UnderscoresMeet()
    ensures VolumeName("web", "a_b") == VolumeName("web_a", "b") == "web_a_b.img"
  {
    assert "web" + "_" + "a_b" + ".img" == "web_a_b.img" == "web_a" + "_" + "b" + ".img";
  }

  lemma UnderscoreInVolumeName(task: string, a: string)
    ensures '_' in VolumeName(task, a)
  {
    assert VolumeName(task, a)[|task|] == '_';
  }

  lemma VolumeNamesDistinct(task: string, names: seq<string>)
    requires forall i, j :: 0 <= i < j < |names| ==> Lower(names[i]) != Lower(names[j])
    ensures forall i, j :: 0 <= i < j < |names| ==> VolumeName(task, names[i]) != VolumeName(task, names[j])
  {
    forall i, j | 0 <= i < j < |names| && VolumeName(task, names[i]) == VolumeName(task, names[j])
      ensures names[i] == names[j] {
      VolumeNameInjective(task, names[i], names[j]);
    }
  }

  lemma NotBeforeOwnPrefix(p: string, more: string)
    ensures !Before(p + more, p)
  {
    BeforeAfterPrefix(p, more, []);
    assert p + [] == p;
  }

  lemma TwoNames(prefix: string, a: string, b: string)
    requires a != "" && b != "" && Lower(a) == a && Lower(b) == b && HasPrefix(a, prefix) && HasPrefix(b, prefix)
    requires !Before(a, b)
    ensures ValidNames(prefix, Named([a, b])) == [a, b] && Max([a, b]) == a
  {
    assert [a, b][..1] == [a] && [a][..0] == [];
    assert Named([a]) == [a] && ValidNames(prefix, [a]) == [a] && Max([a]) == a;
  }

  /** A name and that name with an a after it: the next name is the shorter one if that ends in b. */
  lemma NextIsShorter(prefix: string, x: string, y: string)
    requires x == y + "a" && y == prefix + ['b'] && Lower(x) == x && Lower(y) == y && HasPrefix(x, prefix)
    ensures HasPrefix(y, prefix) && ValidNames(prefix, Named([x, y])) == [x, y]
    ensures GeneratedName(prefix, [x, y]) == y
  {
    NotBeforeOwnPrefix(y, "a");
    TwoNames(prefix, x, y);
    assert Max([x, y])[|Max([x, y])| - 1] == 'a';
    assert prefix + [NextChar('a')] == y;
  }

  /** With two letters after the prefix the name generated can be taken already. */
  lemma TwoLettersCollide()
    ensures NewName("virtio", ["vdba", "vdb"]) == "vdb"
    ensures Taken(["vdba", "vdb"], NewName("virtio", ["vdba", "vdb"]))
  {
    VdNames();
    NextIsShorter("vd", "vdba", "vdb");
    assert "vdb" in ["vdba", "vdb"];
  }

  lemma VdNames()
    ensures "vdba" == "vdb" + "a" && "vdb" == "vd" + ['b'] && HasPrefix("vdba", "vd")
    ensures Lower("vdba") == "vdba" && Lower("vdb") == "vdb"
    ensures Prefix("virtio") == "vd"
  {
  }
}
