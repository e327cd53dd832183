/**
 * What it means to carry a sparse file over an operation stream, independent of the loops
 * that do it: decoding a stream, placing its payload on an image, and the division of a
 * file into payload and holes that both upload loops follow.
 */
module SparsePlan {
  import opened Octets
  import opened Holes

  datatype Op = Send(bytes: seq<byte>) | SendHole(length: nat)

  datatype Placement = Placement(at: nat, bytes: seq<byte>)

  function Zeros(n: nat): seq<byte> {
    seq(n, _ => 0 as byte)
  }

  lemma Reassociate<T>(a: seq<T>, b: seq<T>, c: seq<T>)
    ensures (a + b) + c == a + (b + c)
  {
  }

  lemma Slices<T>(s: seq<T>, p: nat, q: nat, r: nat)
    requires p <= q <= r <= |s|
    ensures s[p..q] + s[q..r] == s[p..r]
  {
  }

  lemma SplitTail<T>(s: seq<T>, p: nat, q: nat)
    requires p <= q <= |s|
    ensures s[p..q] + s[q..] == s[p..]
  {
  }

  lemma SlicePrefix<T>(s: seq<T>, p: nat, q: nat, n: nat)
    requires p <= q <= |s| && n <= q - p
    ensures s[p..q][..n] == s[p..p + n]
  {
  }

  // ---- Reading a stream of operations ------------------------------------------------------

  function Expand(op: Op): seq<byte> {
    match op case Send(bytes) => bytes case SendHole(length) => Zeros(length)
  }

  /** The bytes a receiver that honours holes ends up with. */
  function Decode(ops: seq<Op>): seq<byte> {
    if ops == [] then [] else Expand(ops[0]) + Decode(ops[1..])
  }

  /** The bytes that travelled as payload. */
  function Payload(ops: seq<Op>): seq<byte> {
    if ops == [] then [] else (if ops[0].Send? then ops[0].bytes else []) + Payload(ops[1..])
  }

  /** Each payload at the position it decodes to. */
  function Placed(ops: seq<Op>, at: nat): seq<Placement> {
    if ops == [] then [] else
      (if ops[0].Send? then [Placement(at, ops[0].bytes)] else []) + Placed(ops[1..], at + |Expand(ops[0])|)
  }

  lemma {:induction false} DecodeAppend(a: seq<Op>, b: seq<Op>)
    ensures Decode(a + b) == Decode(a) + Decode(b)
  {
    if a == [] {
      assert a + b == b;
    } else {
      DecodeAppend(a[1..], b);
      assert (a + b)[1..] == a[1..] + b;
      Reassociate(Expand(a[0]), Decode(a[1..]), Decode(b));
    }
  }

  lemma {:induction false} PlacedAppend(a: seq<Op>, b: seq<Op>, at: nat)
    ensures Placed(a + b, at) == Placed(a, at) + Placed(b, at + |Decode(a)|)
    decreases |a|
  {
    if a == [] {
      assert a + b == b;
    } else {
      var e, rest := |Expand(a[0])|, a[1..];
      PlacedAppend(rest, b, at + e);
      assert (a + b)[1..] == rest + b;
      assert |Decode(a)| == e + |Decode(rest)|;
      var first := if a[0].Send? then [Placement(at, a[0].bytes)] else [];
      assert Placed(a, at) == first + Placed(rest, at + e);
      assert Placed(a + b, at) == first + Placed(rest + b, at + e);
      Reassociate(first, Placed(rest, at + e), Placed(b, at + |Decode(a)|));
    }
  }

  // ---- Writing on an image -----------------------------------------------------------------

  /** A write within the image; anything that would not fit changes nothing. */
  function Poke(image: seq<byte>, at: nat, bytes: seq<byte>): (r: seq<byte>)
    ensures |r| == |image|
  {
    if at + |bytes| <= |image| then image[..at] + bytes + image[at + |bytes|..] else image
  }

  function Overlay(image: seq<byte>, writes: seq<Placement>): (r: seq<byte>)
    ensures |r| == |image|
    decreases |writes|
  {
    if writes == [] then image else Overlay(Poke(image, writes[0].at, writes[0].bytes), writes[1..])
  }

  lemma {:induction false} OverlayAppend(image: seq<byte>, a: seq<Placement>, b: seq<Placement>)
    ensures Overlay(image, a + b) == Overlay(Overlay(image, a), b)
    decreases |a|
  {
    if a == [] {
      assert a + b == b;
    } else {
      OverlayAppend(Poke(image, a[0].at, a[0].bytes), a[1..], b);
      assert (a + b)[1..] == a[1..] + b;
    }
  }

  /** Position i of the decoded stream arrived as payload (and not as part of a hole). */
  predicate Covered(ops: seq<Op>, i: nat) {
    ops != [] &&
    if i < |Expand(ops[0])| then ops[0].Send? else Covered(ops[1..], i - |Expand(ops[0])|)
  }

  /** Position i of an image once bytes, if they count there, are put on it. */
  function Pick(counts: bool, bytes: seq<byte>, image: seq<byte>, at: nat, i: nat): byte
    requires i < |image|
  {
    if at <= i < at + |bytes| && counts then bytes[i - at] else image[i]
  }

  /** What position i of an image becomes when a stream's payload is placed on it. */
  function AfterPlacing(image: seq<byte>, ops: seq<Op>, at: nat, i: nat): byte
    requires i < |image|
  {
    Pick(at <= i && Covered(ops, i - at), Decode(ops), image, at, i)
  }

  lemma PickFirst(first: seq<byte>, rest: seq<byte>, send: bool, later: bool, image: seq<byte>, next: seq<byte>,
      at: nat, i: nat)
    requires i < |image| == |next| && next[i] == Pick(send, first, image, at, i)
    ensures Pick(if i < at + |first| then send else later, first + rest, image, at, i) ==
            Pick(i >= at + |first| && later, rest, next, at + |first|, i)
  {
  }

  lemma PokeAt(image: seq<byte>, at: nat, bytes: seq<byte>, i: nat)
    requires at + |bytes| <= |image| && i < |image|
    ensures Poke(image, at, bytes)[i] == if at <= i < at + |bytes| then bytes[i - at] else image[i]
  {
  }

  lemma AfterPlacingFirst(image: seq<byte>, next: seq<byte>, ops: seq<Op>, at: nat, i: nat)
    requires ops != [] && i < |image| == |next| && next[i] == Pick(ops[0].Send?, Expand(ops[0]), image, at, i)
    ensures AfterPlacing(image, ops, at, i) == AfterPlacing(next, ops[1..], at + |Expand(ops[0])|, i)
  {
    var e, rest := Expand(ops[0]), Decode(ops[1..]);
    assert Decode(ops) == e + rest;
    var later := i >= at + |e| && Covered(ops[1..], i - at - |e|);
    PickFirst(e, rest, ops[0].Send?, later, image, next, at, i);
  }

  /** Placing a stream's payload on any image changes the covered positions and no others. */
  lemma {:induction false} OverlayPlaced(image: seq<byte>, ops: seq<Op>, at: nat, i: nat)
    requires at + |Decode(ops)| <= |image| && i < |image|
    ensures Overlay(image, Placed(ops, at))[i] == AfterPlacing(image, ops, at, i)
    decreases |ops|
  {
    if ops != [] {
      var next := if ops[0].Send? then Poke(image, at, ops[0].bytes) else image;
      OverlayFirst(image, ops, at);
      assert Decode(ops) == Expand(ops[0]) + Decode(ops[1..]);
      if ops[0].Send? {
        PokeAt(image, at, ops[0].bytes, i);
      }
      AfterPlacingFirst(image, next, ops, at, i);
      OverlayPlaced(next, ops[1..], at + |Expand(ops[0])|, i);
    }
  }

  lemma OverlayFirst(image: seq<byte>, ops: seq<Op>, at: nat)
    requires ops != []
    ensures var next := if ops[0].Send? then Poke(image, at, ops[0].bytes) else image;
            Overlay(image, Placed(ops, at)) == Overlay(next, Placed(ops[1..], at + |Expand(ops[0])|))
  {
    if ops[0].Send? {
      assert Placed(ops, at)[1..] == Placed(ops[1..], at + |ops[0].bytes|);
    } else {
      assert Placed(ops, at) == Placed(ops[1..], at + ops[0].length);
    }
  }

  lemma {:induction false} UncoveredIsZero(ops: seq<Op>, i: nat)
    requires i < |Decode(ops)| && !Covered(ops, i)
    ensures Decode(ops)[i] == 0
  {
    if i >= |Expand(ops[0])| {
      UncoveredIsZero(ops[1..], i - |Expand(ops[0])|);
    }
  }

  /** The receiver of a stream and a zeroed image given only its payload hold the same bytes. */
  lemma ZeroImageEqualsDecoded(ops: seq<Op>, size: nat)
    requires |Decode(ops)| <= size
    ensures Overlay(Zeros(size), Placed(ops, 0)) == Decode(ops) + Zeros(size - |Decode(ops)|)
  {
    forall i | 0 <= i < size
      ensures Overlay(Zeros(size), Placed(ops, 0))[i] == if i < |Decode(ops)| then Decode(ops)[i] else 0
    {
      OverlayPlaced(Zeros(size), ops, 0, i);
      if i < |Decode(ops)| && !Covered(ops, i) {
        UncoveredIsZero(ops, i);
      }
    }
  }

  // ---- Dividing a file ---------------------------------------------------------------------

  ghost predicate IsHole(f: File, h: Hole) {
    && h.start < h.end <= f.Size()
    && forall i :: h.start <= i < h.end ==> !f.alloc[i]
  }

  /** hs are holes of f, in order and apart, none of them starting before position p. */
  ghost predicate HolesFrom(f: File, hs: seq<Hole>, p: nat) {
    && p <= f.Size()
    && (forall j :: 0 <= j < |hs| ==> IsHole(f, hs[j]) && p <= hs[j].start)
    && (forall j, k :: 0 <= j < k < |hs| ==> hs[j].end < hs[k].start)
  }

  /** hs misses no unallocated byte from position p on. */
  ghost predicate CoversFrom(f: File, hs: seq<Hole>, p: nat) {
    forall i :: p <= i < f.Size() && !f.alloc[i] ==> InSome(hs, i)
  }

  lemma PrefixOfRuns(f: File, hs: seq<Hole>)
    requires hs <= Runs(f, 0)
    ensures HolesFrom(f, hs, 0)
    ensures hs == Runs(f, 0) ==> CoversFrom(f, hs, 0)
  {
    RunsAreMaximal(f);
    forall j | 0 <= j < |hs| ensures IsMaximalRun(f, hs[j]) {
      assert hs[j] == Runs(f, 0)[j];
    }
  }

  /** Where a read of at most b bytes at p ends. */
  function ReadEnd(f: File, b: nat, p: nat): nat {
    p + ReadCount(f, b, p)
  }

  /** A read of at most b bytes at p reaches the first hole. */
  predicate MeetsHole(f: File, hs: seq<Hole>, b: nat, p: nat) {
    |hs| > 0 && hs[0].StartsBefore(ReadEnd(f, b, p))
  }

  /** One round from p: payload, cut short where a hole starts, and the hole if one is met. */
  function StepOps(f: File, hs: seq<Hole>, b: nat, p: nat): seq<Op> {
    if MeetsHole(f, hs, b, p) then
      var h := hs[0];
      (if p < h.start <= f.Size() then [Send(f.data[p..h.start])] else []) +
      (if h.start <= h.end then [SendHole(h.end - h.start)] else [])
    else if p <= ReadEnd(f, b, p) <= f.Size() then
      [Send(f.data[p..ReadEnd(f, b, p)])]
    else
      []
  }

  /** Where the round from p leaves off. */
  function StepEnd(f: File, hs: seq<Hole>, b: nat, p: nat): nat {
    if MeetsHole(f, hs, b, p) then hs[0].end else ReadEnd(f, b, p)
  }

  function StepHoles(f: File, hs: seq<Hole>, b: nat, p: nat): seq<Hole> {
    if MeetsHole(f, hs, b, p) then Later(hs) else hs
  }

  /**
   * The operations for f from position p on, round after round: payload in pieces of at
   * most b bytes and one hole operation for each hole of hs.
   */
  function Plan(f: File, hs: seq<Hole>, b: nat, p: nat): seq<Op>
    decreases f.Size() - p
  {
    if p >= f.Size() || StepEnd(f, hs, b, p) <= p then [] else
      StepOps(f, hs, b, p) + Plan(f, StepHoles(f, hs, b, p), b, StepEnd(f, hs, b, p))
  }

  /** The allocated bytes of f from position p on, in order. */
  function AllocatedFrom(f: File, p: nat): seq<byte>
    decreases f.Size() - p
  {
    if p >= f.Size() then [] else (if f.alloc[p] then [f.data[p]] else []) + AllocatedFrom(f, p + 1)
  }

  /** One round moves strictly forward and keeps to the file. */
  lemma StepAdvances(f: File, hs: seq<Hole>, b: nat, p: nat)
    requires HolesFrom(f, hs, p) && p < f.Size() && b > 0
    ensures p < StepEnd(f, hs, b, p) <= f.Size()
    ensures HolesFrom(f, StepHoles(f, hs, b, p), StepEnd(f, hs, b, p))
    ensures Plan(f, hs, b, p) == StepOps(f, hs, b, p) + Plan(f, StepHoles(f, hs, b, p), b, StepEnd(f, hs, b, p))
  {
    if MeetsHole(f, hs, b, p) {
      assert IsHole(f, hs[0]);
      var rest := hs[1..];
      forall j | 0 <= j < |rest| ensures IsHole(f, rest[j]) && hs[0].end <= rest[j].start {
        assert rest[j] == hs[j + 1];
      }
    }
  }

  /** Where a round ends, as the loop decides it: at the hole's end if the read came to the hole. */
  lemma StepEndByHole(f: File, hs: seq<Hole>, b: nat, p: nat)
    requires p < f.Size()
    ensures var end := ReadEnd(f, b, p); var hole := Upcoming(hs);
            && StepEnd(f, hs, b, p) == (if hole.Some? && hole.value.StartsBefore(end) then hole.value.end else end)
            && StepHoles(f, hs, b, p) == (if hole.Some? && hole.value.StartsBefore(end) then Later(hs) else hs)
  {
  }

  /** One round carries exactly the bytes it passes. */
  lemma StepDecodes(f: File, hs: seq<Hole>, b: nat, p: nat)
    requires HolesFrom(f, hs, p) && p < f.Size() && b > 0
    ensures p < StepEnd(f, hs, b, p) <= f.Size()
    ensures Decode(StepOps(f, hs, b, p)) == f.data[p..StepEnd(f, hs, b, p)]
  {
    if MeetsHole(f, hs, b, p) {
      var h := hs[0];
      HoleDecodes(f, h);
      if p < h.start {
        DecodeOne(Send(f.data[p..h.start]));
        DecodeAppend([Send(f.data[p..h.start])], [SendHole(h.end - h.start)]);
        Slices(f.data, p, h.start, h.end);
      } else {
        assert StepOps(f, hs, b, p) == [SendHole(h.end - h.start)];
      }
    } else {
      DecodeOne(Send(f.data[p..ReadEnd(f, b, p)]));
    }
  }

  lemma HoleDecodes(f: File, h: Hole)
    requires IsHole(f, h)
    ensures Decode([SendHole(h.end - h.start)]) == f.data[h.start..h.end]
  {
    DecodeOne(SendHole(h.end - h.start));
    assert Zeros(h.end - h.start) == f.data[h.start..h.end];
  }

  lemma DecodeOne(op: Op)
    ensures Decode([op]) == Expand(op)
  {
    assert [op][1..] == [];
    assert Decode([op]) == Expand(op) + [];
  }

  /** The plan for a file decodes to the file. */
  lemma {:induction false} PlanDecodes(f: File, hs: seq<Hole>, b: nat, p: nat)
    requires HolesFrom(f, hs, p) && b > 0
    ensures Decode(Plan(f, hs, b, p)) == f.data[p..]
    decreases f.Size() - p
  {
    if p < f.Size() {
      StepAdvances(f, hs, b, p);
      StepDecodes(f, hs, b, p);
      var step, e, rest := StepOps(f, hs, b, p), StepEnd(f, hs, b, p), StepHoles(f, hs, b, p);
      var tail := Plan(f, rest, b, e);
      PlanDecodes(f, rest, b, e);
      DecodeAppend(step, tail);
      SplitTail(f.data, p, e);
    }
  }

  /** A position is payload in the plan exactly when the file has it allocated. */
  lemma {:induction false} PlanCoversAllocated(f: File, hs: seq<Hole>, b: nat, p: nat, i: nat)
    requires HolesFrom(f, hs, p) && CoversFrom(f, hs, p) && b > 0
    requires p <= i < f.Size()
    ensures Covered(Plan(f, hs, b, p), i - p) <==> f.alloc[i]
    decreases f.Size() - p
  {
    StepAdvances(f, hs, b, p);
    PlanCoversStep(f, hs, b, p, i);
    if i < StepEnd(f, hs, b, p) {
      StepCoversAllocated(f, hs, b, p, i);
    } else {
      CoversRest(f, hs, b, p);
      PlanCoversAllocated(f, StepHoles(f, hs, b, p), b, StepEnd(f, hs, b, p), i);
    }
  }

  lemma PlanCoversStep(f: File, hs: seq<Hole>, b: nat, p: nat, i: nat)
    requires HolesFrom(f, hs, p) && b > 0 && p <= i < f.Size()
    ensures var e := StepEnd(f, hs, b, p);
            && HolesFrom(f, StepHoles(f, hs, b, p), e)
            && (Covered(Plan(f, hs, b, p), i - p) <==>
                if i < e then Covered(StepOps(f, hs, b, p), i - p)
                else Covered(Plan(f, StepHoles(f, hs, b, p), b, e), i - e))
  {
    StepAdvances(f, hs, b, p);
    StepLength(f, hs, b, p);
    var e := StepEnd(f, hs, b, p);
    CoveredSplit(Plan(f, hs, b, p), StepOps(f, hs, b, p), Plan(f, StepHoles(f, hs, b, p), b, e), i - p, e - p, i - e);
  }

  lemma StepLength(f: File, hs: seq<Hole>, b: nat, p: nat)
    requires HolesFrom(f, hs, p) && p < f.Size() && b > 0
    ensures |Decode(StepOps(f, hs, b, p))| == StepEnd(f, hs, b, p) - p
  {
    StepDecodes(f, hs, b, p);
  }

  lemma CoveredSplit(all: seq<Op>, step: seq<Op>, rest: seq<Op>, i: nat, len: nat, after: int)
    requires all == step + rest && |Decode(step)| == len && after == i - len
    ensures Covered(all, i) <==> if after < 0 then Covered(step, i) else Covered(rest, after)
  {
    CoveredAppend(step, rest, i);
  }

  lemma CoversRest(f: File, hs: seq<Hole>, b: nat, p: nat)
    requires HolesFrom(f, hs, p) && CoversFrom(f, hs, p) && b > 0 && p < f.Size()
    ensures CoversFrom(f, StepHoles(f, hs, b, p), StepEnd(f, hs, b, p))
  {
    var e, rest := StepEnd(f, hs, b, p), StepHoles(f, hs, b, p);
    StepAdvances(f, hs, b, p);
    forall i | e <= i < f.Size() && !f.alloc[i] ensures InSome(rest, i) {
      assert InSome(hs, i);
      var j :| 0 <= j < |hs| && hs[j].start <= i < hs[j].end;
      if rest != hs {
        assert j > 0 && rest[j - 1] == hs[j];
      }
    }
  }

  lemma {:induction false} CoveredAppend(a: seq<Op>, b: seq<Op>, i: nat)
    ensures Covered(a + b, i) <==> if i < |Decode(a)| then Covered(a, i) else Covered(b, i - |Decode(a)|)
  {
    if a == [] {
      assert a + b == b;
    } else {
      assert (a + b)[1..] == a[1..] + b;
      if i >= |Expand(a[0])| {
        CoveredAppend(a[1..], b, i - |Expand(a[0])|);
      }
    }
  }

  lemma StepCoversAllocated(f: File, hs: seq<Hole>, b: nat, p: nat, i: nat)
    requires HolesFrom(f, hs, p) && CoversFrom(f, hs, p) && b > 0
    requires p <= i < StepEnd(f, hs, b, p) && p < f.Size()
    ensures StepEnd(f, hs, b, p) <= f.Size()
    ensures Covered(StepOps(f, hs, b, p), i - p) <==> f.alloc[i]
  {
    StepDecodes(f, hs, b, p);
    if !f.alloc[i] {
      assert InSome(hs, i);
    }
    var step := StepOps(f, hs, b, p);
    if |step| == 2 {
      assert step[1..][0] == step[1];
    }
  }

  /** The payload of the plan is the allocated bytes of the file: all of them, and nothing else. */
  lemma {:induction false} PlanSendsAllocated(f: File, hs: seq<Hole>, b: nat, p: nat)
    requires HolesFrom(f, hs, p) && CoversFrom(f, hs, p) && b > 0
    ensures Payload(Plan(f, hs, b, p)) == AllocatedFrom(f, p)
    decreases f.Size() - p
  {
    if p < f.Size() {
      StepAdvances(f, hs, b, p);
      CoversRest(f, hs, b, p);
      StepSendsAllocated(f, hs, b, p);
      var step, e, rest := StepOps(f, hs, b, p), StepEnd(f, hs, b, p), StepHoles(f, hs, b, p);
      PlanSendsAllocated(f, rest, b, e);
      PayloadAppend(step, Plan(f, rest, b, e));
    }
  }

  lemma StepSendsAllocated(f: File, hs: seq<Hole>, b: nat, p: nat)
    requires HolesFrom(f, hs, p) && CoversFrom(f, hs, p) && b > 0 && p < f.Size()
    ensures AllocatedFrom(f, p) == Payload(StepOps(f, hs, b, p)) + AllocatedFrom(f, StepEnd(f, hs, b, p))
  {
    var q := if MeetsHole(f, hs, b, p) then hs[0].start else ReadEnd(f, b, p);
    forall i | p <= i < q ensures f.alloc[i] {
      assert !f.alloc[i] ==> InSome(hs, i);
    }
    AllocatedRun(f, p, q);
    if MeetsHole(f, hs, b, p) {
      assert IsHole(f, hs[0]);
      UnallocatedRun(f, q, hs[0].end);
    }
    PayloadOne(Send(f.data[p..q]));
    if MeetsHole(f, hs, b, p) {
      var hole := SendHole(hs[0].end - q);
      PayloadOne(hole);
      PayloadAppend([Send(f.data[p..q])], [hole]);
      assert p == q ==> StepOps(f, hs, b, p) == [hole];
    }
  }

  /** No operation is a hole. */
  predicate AllSends(ops: seq<Op>) {
    forall k :: 0 <= k < |ops| ==> ops[k].Send?
  }

  lemma SendsNext(ops: seq<Op>, bytes: seq<byte>)
    requires AllSends(ops)
    ensures AllSends(ops + [Send(bytes)])
  {
  }

  lemma {:induction false} SendsArePayload(ops: seq<Op>)
    requires AllSends(ops)
    ensures Payload(ops) == Decode(ops)
  {
    if ops != [] {
      SendsArePayload(ops[1..]);
    }
  }

  lemma PayloadOne(op: Op)
    ensures Payload([op]) == if op.Send? then op.bytes else []
  {
    assert [op][1..] == [];
    assert Payload([op]) == (if op.Send? then op.bytes else []) + Payload([]);
  }

  lemma {:induction false} PayloadAppend(a: seq<Op>, b: seq<Op>)
    ensures Payload(a + b) == Payload(a) + Payload(b)
  {
    if a == [] {
      assert a + b == b;
    } else {
      PayloadAppend(a[1..], b);
      assert (a + b)[1..] == a[1..] + b;
    }
  }

  lemma {:induction false} AllocatedRun(f: File, p: nat, q: nat)
    requires p <= q <= f.Size() && forall i :: p <= i < q ==> f.alloc[i]
    ensures AllocatedFrom(f, p) == f.data[p..q] + AllocatedFrom(f, q)
    decreases q - p
  {
    if p < q {
      AllocatedRun(f, p + 1, q);
      assert f.data[p..q] == [f.data[p]] + f.data[p + 1..q];
      Reassociate([f.data[p]], f.data[p + 1..q], AllocatedFrom(f, q));
    }
  }

  lemma {:induction false} UnallocatedRun(f: File, p: nat, q: nat)
    requires p <= q <= f.Size() && forall i :: p <= i < q ==> !f.alloc[i]
    ensures AllocatedFrom(f, p) == AllocatedFrom(f, q)
    decreases q - p
  {
    if p < q {
      UnallocatedRun(f, p + 1, q);
    }
  }

  /** An image of sufficient size: allocated bytes of the file land, everything else stays. */
  lemma OverlayPlan(f: File, b: nat, image: seq<byte>)
    requires b > 0 && f.Size() <= |image|
    ensures forall i :: 0 <= i < |image| ==>
              Overlay(image, Placed(Plan(f, Runs(f, 0), b, 0), 0))[i] ==
              if i < f.Size() && f.alloc[i] then f.data[i] else image[i]
  {
    var hs := Runs(f, 0);
    PrefixOfRuns(f, hs);
    PlanDecodes(f, hs, b, 0);
    forall i | 0 <= i < |image|
      ensures Overlay(image, Placed(Plan(f, hs, b, 0), 0))[i] ==
              if i < f.Size() && f.alloc[i] then f.data[i] else image[i]
    {
      OverlayPlaced(image, Plan(f, hs, b, 0), 0, i);
      if i < f.Size() {
        PlanCoversAllocated(f, hs, b, 0, i);
      }
    }
  }

  /** So an image that starts out zeroed ends equal to the file. */
  lemma ZeroImageEqualsFile(f: File, hs: seq<Hole>, b: nat)
    requires b > 0 && hs <= Runs(f, 0)
    ensures Overlay(Zeros(f.Size()), Placed(Plan(f, hs, b, 0), 0)) == f.data
  {
    PrefixOfRuns(f, hs);
    PlanDecodes(f, hs, b, 0);
    ZeroImageEqualsDecoded(Plan(f, hs, b, 0), f.Size());
    assert Zeros(0) == [];
  }

  // ---- The upload loops at their head ------------------------------------------------------

  /** The emitted operations carry exactly the bytes of f from p to q. */
  ghost predicate Carries(f: File, ops: seq<Op>, p: nat, q: nat) {
    p <= q <= f.Size() && Decode(ops) == f.data[p..q]
  }

  /** The operations carry f on from p; nothing if p is past its end. */
  ghost predicate Continues(f: File, ops: seq<Op>, p: nat) {
    if p <= f.Size() then Carries(f, ops, p, p + |Decode(ops)|) else ops == []
  }

  lemma NextContinues(f: File, ops: seq<Op>, bytes: seq<byte>, p: nat)
    requires Continues(f, ops, p) && p + |Decode(ops)| + |bytes| <= f.Size()
    requires bytes == f.data[p + |Decode(ops)|..p + |Decode(ops)| + |bytes|]
    ensures Continues(f, ops + [Send(bytes)], p) && |Decode(ops + [Send(bytes)])| == |Decode(ops)| + |bytes|
  {
    NextCarried(f, ops, bytes, p, p + |Decode(ops)|);
  }

  /** The emitted operations carry a beginning of f. */
  ghost predicate Begins(f: File, ops: seq<Op>) {
    Carries(f, ops, 0, |Decode(ops)|)
  }

  lemma CarriesAppend(f: File, ops: seq<Op>, more: seq<Op>, p: nat, q: nat, r: nat)
    requires Carries(f, ops, p, q) && q <= r <= f.Size() && Decode(more) == f.data[q..r]
    ensures Carries(f, ops + more, p, r)
  {
    DecodeAppend(ops, more);
    Slices(f.data, p, q, r);
  }

  lemma NextCarried(f: File, ops: seq<Op>, bytes: seq<byte>, p: nat, q: nat)
    requires Carries(f, ops, p, q) && q + |bytes| <= f.Size() && bytes == f.data[q..q + |bytes|]
    ensures Carries(f, ops + [Send(bytes)], p, q + |bytes|)
  {
    DecodeOne(Send(bytes));
    CarriesAppend(f, ops, [Send(bytes)], p, q, q + |bytes|);
  }

  /** The state of the sparse loop at its head: what is done, the holes ahead, the offset. */
  ghost predicate AtHead(f: File, all: seq<Hole>, b: nat, done: seq<Op>, left: seq<Hole>, offset: nat) {
    && HolesFrom(f, left, offset)
    && Carries(f, done, 0, offset)
    && done + Plan(f, left, b, offset) == Plan(f, all, b, 0)
  }

  lemma RoundKeepsHead(f: File, all: seq<Hole>, b: nat, done: seq<Op>, left: seq<Hole>, offset: nat)
    requires AtHead(f, all, b, done, left, offset) && offset < f.Size() && b > 0
    ensures offset < StepEnd(f, left, b, offset) <= f.Size()
    ensures AtHead(f, all, b, done + StepOps(f, left, b, offset), StepHoles(f, left, b, offset),
                   StepEnd(f, left, b, offset))
  {
    StepAdvances(f, left, b, offset);
    StepDecodes(f, left, b, offset);
    var step := StepOps(f, left, b, offset);
    CarriesAppend(f, done, step, 0, offset, StepEnd(f, left, b, offset));
    var tail := Plan(f, StepHoles(f, left, b, offset), b, StepEnd(f, left, b, offset));
    Reassociate(done, step, tail);
  }

  /** One read at p, seen as a piece of the file. */
  method ReadPiece(f: Reader, buf: array<byte>, p: nat) returns (bytes: seq<byte>, status: ReadStatus)
    requires buf.Length > 0
    modifies f`readCalls, buf
    ensures f.ReadsWell() ==> status != ReadFailed
    ensures status != ReadFailed && p < f.file.Size() ==>
              bytes != [] && bytes == f.file.data[p..ReadEnd(f.file, buf.Length, p)]
    ensures status != ReadFailed ==> |bytes| == ReadCount(f.file, buf.Length, p)
    ensures status != ReadFailed && p >= f.file.Size() ==> status == ReadEOF && bytes == []
  {
    var read;
    read, status := f.ReadAt(buf, p);
    bytes := buf[..read];
  }

  lemma AtStart(f: File, all: seq<Hole>, b: nat)
    requires all <= Runs(f, 0)
    ensures AtHead(f, all, b, [], all, 0)
  {
    PrefixOfRuns(f, all);
    assert [] + Plan(f, all, b, 0) == Plan(f, all, b, 0);
  }

  lemma AtEnd(f: File, all: seq<Hole>, b: nat, done: seq<Op>, left: seq<Hole>, offset: nat)
    requires AtHead(f, all, b, done, left, offset) && offset >= f.Size()
    ensures offset == f.Size() && done == Plan(f, all, b, 0) && Carries(f, done, 0, offset)
  {
    assert done + [] == done;
  }
}
