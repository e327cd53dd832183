/**
 * Sparse files and the discovery of their holes (internal/holes).
 *
 * A file is its bytes together with an allocation map; unallocated bytes read as zero.
 */
module Holes {
  import opened Wrappers
  import opened Octets

  datatype RawFile = RawFile(data: seq<byte>, alloc: seq<bool>) {
    ghost predicate Valid() {
      && |data| == |alloc|
      && forall i :: 0 <= i < |data| && !alloc[i] ==> data[i] == 0
    }

    function Size(): nat {
      |data|
    }
  }

  type File = f: RawFile | f.Valid() witness RawFile([], [])

  /** A run of unallocated bytes: positions start up to, not including, end. */
  datatype Hole = Hole(start: nat, end: nat) {
    predicate StartsBefore(pos: nat) {
      pos >= start
    }

    /** How far pos is past the start of the hole; clamped at zero. */
    function Overflow(pos: nat): nat {
      if pos < start then 0 else pos - start
    }

    function Length(): nat
      requires start <= end
    {
      end - start
    }
  }

  // ---- Seeking -----------------------------------------------------------------------------

  /** The first position at or after p whose allocation is `want`, or the end of the file. */
  function NextPos(f: File, p: nat, want: bool): (r: nat)
    requires p <= f.Size()
    ensures p <= r <= f.Size()
    ensures forall i :: p <= i < r ==> f.alloc[i] != want
    ensures r < f.Size() ==> f.alloc[r] == want
    decreases f.Size() - p
  {
    if p == f.Size() || f.alloc[p] == want then p else NextPos(f, p + 1, want)
  }

  datatype Whence = SeekStart | SeekCurrent | SeekEnd | SeekData | SeekHole

  /** ENXIO comes from the file itself; anything else is a fault of the environment. */
  datatype SeekError = ENXIO | Injected(fault: Fault)
  datatype Fault = FaultEOF | FaultIO

  /** What lseek answers on file f at position pos when the environment does not fail. */
  function SeekTarget(f: File, pos: nat, offset: nat, whence: Whence): Result<nat, SeekError> {
    match whence
    case SeekStart => Success(offset)
    case SeekCurrent => Success(pos + offset)
    case SeekEnd => Success(f.Size() + offset)
    case SeekHole =>
      if offset >= f.Size() then Failure(ENXIO) else Success(NextPos(f, offset, false))
    case SeekData =>
      if offset >= f.Size() || NextPos(f, offset, true) == f.Size() then Failure(ENXIO)
      else Success(NextPos(f, offset, true))
  }

  /** How many of b bytes at offset p the file has. */
  function ReadCount(f: File, b: nat, p: nat): nat {
    if p >= f.Size() then 0 else if p + b <= f.Size() then b else f.Size() - p
  }

  type FaultPlan = nat -> Option<Fault>

  datatype ReadStatus = ReadOk | ReadEOF | ReadFailed

  /** An open file with a position. Call number k to Seek fails when seekFaults(k) says so. */
  class Reader {
    const file: File
    const seekFaults: FaultPlan
    const readFaults: nat -> bool
    var pos: nat
    var seekCalls: nat
    var readCalls: nat
    ghost var injected: nat // how many Seek calls failed through the environment

    constructor (file: File, pos: nat, seekFaults: FaultPlan, readFaults: nat -> bool)
      ensures this.file == file && this.pos == pos && this.seekCalls == 0 && this.readCalls == 0 && this.injected == 0
      ensures this.seekFaults == seekFaults && this.readFaults == readFaults
    {
      this.file, this.pos, this.seekCalls, this.readCalls := file, pos, 0, 0;
      this.seekFaults, this.readFaults := seekFaults, readFaults;
      this.injected := 0;
    }

    /** No call to Seek fails through the environment. */
    ghost predicate SeeksWell() {
      forall k :: seekFaults(k).None?
    }

    ghost predicate ReadsWell() {
      forall k :: !readFaults(k)
    }

    /** Repositions the reader; a failing call leaves the position alone. */
    method Seek(offset: nat, whence: Whence) returns (r: Result<nat, SeekError>)
      modifies this`pos, this`seekCalls, this`injected
      ensures seekCalls == old(seekCalls) + 1
      ensures injected == old(injected) + if seekFaults(old(seekCalls)).Some? then 1 else 0
      ensures SeeksWell() ==> injected == old(injected)
      ensures seekFaults(old(seekCalls)).Some? ==> r == Failure(Injected(seekFaults(old(seekCalls)).value))
      ensures seekFaults(old(seekCalls)).None? ==> r == SeekTarget(file, old(pos), offset, whence)
      ensures pos == if r.Success? then r.value else old(pos)
    {
      r := match seekFaults(seekCalls)
           case Some(e) => Failure(Injected(e))
           case None => SeekTarget(file, pos, offset, whence);
      injected := injected + if seekFaults(seekCalls).Some? then 1 else 0;
      seekCalls := seekCalls + 1;
      if r.Success? {
        pos := r.value;
      }
    }

    /** Fills buf from the given offset; short only at the end of the file. */
    method ReadAt(buf: array<byte>, offset: nat) returns (n: nat, status: ReadStatus)
      modifies this`readCalls, buf
      ensures readCalls == old(readCalls) + 1
      ensures n <= buf.Length
      ensures (status == ReadFailed <==> readFaults(old(readCalls))) && (ReadsWell() ==> status != ReadFailed)
      ensures status != ReadFailed ==>
                n == ReadCount(file, buf.Length, offset) && (status == ReadOk <==> n == buf.Length)
      ensures status != ReadFailed && n > 0 ==> buf[..n] == file.data[offset..offset + n]
    {
      n := 0;
      var failed := readFaults(readCalls);
      readCalls := readCalls + 1;
      if failed {
        return 0, ReadFailed;
      }
      while n < buf.Length && offset + n < file.Size()
        invariant n <= buf.Length && readCalls == old(readCalls) + 1
        invariant n > 0 ==> offset + n <= file.Size() && buf[..n] == file.data[offset..offset + n]
      {
        buf[n] := file.data[offset + n];
        n := n + 1;
      }
      status := if n == buf.Length then ReadOk else ReadEOF;
    }

    /** Sequential read from the current position; may be short, returns nothing at the end. */
    method Read(buf: array<byte>) returns (n: nat, status: ReadStatus)
      requires buf.Length > 0
      modifies this`readCalls, this`pos, buf
      ensures readCalls == old(readCalls) + 1
      ensures (status == ReadFailed <==> readFaults(old(readCalls))) && (ReadsWell() ==> status != ReadFailed)
      ensures status == ReadFailed ==> n == 0 && pos == old(pos)
      ensures status == ReadEOF ==> n == 0 && pos == old(pos) && pos >= file.Size()
      ensures status == ReadOk ==>
                && 0 < n <= buf.Length && pos == old(pos) + n <= file.Size()
                && buf[..n] == file.data[old(pos)..pos]
    {
      var failed := readFaults(readCalls);
      readCalls := readCalls + 1;
      if failed {
        return 0, ReadFailed;
      }
      if pos >= file.Size() {
        return 0, ReadEOF;
      }
      assert 0 < 1 <= buf.Length && pos + 1 <= file.Size();
      var want: nat :| 0 < want <= buf.Length && pos + want <= file.Size();
      forall i | 0 <= i < want {
        buf[i] := file.data[pos + i];
      }
      pos := pos + want;
      return want, ReadOk;
    }
  }

  // ---- The holes of a file -----------------------------------------------------------------

  /** hs is precisely the list of maximal unallocated runs of f, in order. */
  ghost predicate MaximalRuns(f: File, hs: seq<Hole>) {
    && (forall j :: 0 <= j < |hs| ==> IsMaximalRun(f, hs[j]))
    && (forall j, k :: 0 <= j < k < |hs| ==> hs[j].end < hs[k].start)
    && (forall i :: 0 <= i < f.Size() && !f.alloc[i] ==> InSome(hs, i))
  }

  ghost predicate IsMaximalRun(f: File, h: Hole) {
    && h.start < h.end <= f.Size()
    && (forall i :: h.start <= i < h.end ==> !f.alloc[i])
    && (h.start > 0 ==> f.alloc[h.start - 1])
    && (h.end < f.Size() ==> f.alloc[h.end])
  }

  ghost predicate InSome(hs: seq<Hole>, i: nat) {
    exists j :: 0 <= j < |hs| && hs[j].start <= i < hs[j].end
  }

  /** The unallocated runs found from position p on, as the seek loop meets them. */
  function Runs(f: File, p: nat): seq<Hole>
    requires p <= f.Size()
    decreases f.Size() - p
  {
    var s := NextPos(f, p, false);
    if s == f.Size() then [] else var e := NextPos(f, s, true); [Hole(s, e)] + Runs(f, e)
  }

  lemma RunsStep(f: File, p: nat)
    requires p <= f.Size() && NextPos(f, p, false) < f.Size()
    ensures var s := NextPos(f, p, false); var e := NextPos(f, s, true);
            Runs(f, p) == [Hole(s, e)] + Runs(f, e) && s < e
  {
  }

  /** Moving the next run from the part still to be scanned to the part collected. */
  lemma AppendRun(f: File, p: nat, done: seq<Hole>)
    requires p <= f.Size() && NextPos(f, p, false) < f.Size()
    ensures var s := NextPos(f, p, false); var e := NextPos(f, s, true);
            && s < e
            && done + [Hole(s, e)] + Runs(f, e) == done + Runs(f, p)
            && done + [Hole(s, e)] <= done + Runs(f, p)
            && (e == f.Size() ==> done + [Hole(s, e)] == done + Runs(f, p))
  {
    RunsStep(f, p);
  }

  /** hs lists, in order, maximal runs at or after p, and every unallocated byte from p on. */
  ghost predicate RunsFrom(f: File, p: nat, hs: seq<Hole>) {
    && (forall j :: 0 <= j < |hs| ==> IsMaximalRun(f, hs[j]) && (if p == 0 then 0 <= hs[j].start else p < hs[j].start))
    && (forall j, k :: 0 <= j < k < |hs| ==> hs[j].end < hs[k].start)
    && (forall i :: p <= i < f.Size() && !f.alloc[i] ==> InSome(hs, i))
  }

  lemma {:induction false} RunsFromAreMaximal(f: File, p: nat)
    requires p <= f.Size()
    requires 0 < p < f.Size() ==> f.alloc[p]
    ensures RunsFrom(f, p, Runs(f, p))
    decreases f.Size() - p
  {
    var s := NextPos(f, p, false);
    if s < f.Size() {
      RunsStep(f, p);
      var e := NextPos(f, s, true);
      RunsFromAreMaximal(f, e);
      PrependRun(f, p, Hole(s, e), Runs(f, e));
    }
  }

  lemma PrependRun(f: File, p: nat, h: Hole, rest: seq<Hole>)
    requires IsMaximalRun(f, h) && (if p == 0 then 0 <= h.start else p < h.start)
    requires forall i :: p <= i < h.start ==> f.alloc[i]
    requires RunsFrom(f, h.end, rest)
    ensures RunsFrom(f, p, [h] + rest)
  {
    var hs := [h] + rest;
    forall i | p <= i < f.Size() && !f.alloc[i] ensures InSome(hs, i) {
      if i < h.end {
        assert hs[0].start <= i < hs[0].end;
      } else {
        assert InSome(rest, i);
        var j :| 0 <= j < |rest| && rest[j].start <= i < rest[j].end;
        assert hs[j + 1] == rest[j];
      }
    }
  }

  /** The list the seek loop builds is exactly the list of maximal unallocated runs ... */
  lemma RunsAreMaximal(f: File)
    ensures MaximalRuns(f, Runs(f, 0))
  {
    RunsFromAreMaximal(f, 0);
  }

  /** ... and no other list is. */
  lemma {:induction false} MaximalRunsUnique(f: File, hs: seq<Hole>, gs: seq<Hole>)
    requires MaximalRuns(f, hs) && MaximalRuns(f, gs)
    ensures hs == gs
  {
    MaximalRunsPrefix(f, hs, gs, |hs|);
    MaximalRunsPrefix(f, gs, hs, |gs|);
  }

  lemma {:induction false} MaximalRunsPrefix(f: File, hs: seq<Hole>, gs: seq<Hole>, n: nat)
    requires MaximalRuns(f, hs) && MaximalRuns(f, gs)
    requires n <= |hs|
    ensures n <= |gs| && forall k :: 0 <= k < n ==> hs[k] == gs[k]
  {
    if n > 0 {
      var m := n - 1;
      MaximalRunsPrefix(f, hs, gs, m);
      var j := IndexOfRun(f, gs, hs[m]);
      assert j >= m;
      var k := IndexOfRun(f, hs, gs[m]);
      assert k >= m;
    }
  }

  lemma IndexOfRun(f: File, hs: seq<Hole>, h: Hole) returns (j: nat)
    requires MaximalRuns(f, hs) && IsMaximalRun(f, h)
    ensures j < |hs| && hs[j] == h
  {
    assert InSome(hs, h.start);
    j :| 0 <= j < |hs| && hs[j].start <= h.start < hs[j].end;
    SameRun(f, h, hs[j]);
  }

  /** Two maximal runs sharing a position are one run. */
  lemma SameRun(f: File, a: Hole, b: Hole)
    requires IsMaximalRun(f, a) && IsMaximalRun(f, b)
    requires b.start <= a.start < b.end
    ensures a == b
  {
  }

  // ---- Collection and discovery ------------------------------------------------------------

  /** The hole up next, and the holes after it. */
  function Upcoming(hs: seq<Hole>): Option<Hole> {
    if hs == [] then None else Some(hs[0])
  }

  function Later(hs: seq<Hole>): seq<Hole> {
    if hs == [] then [] else hs[1..]
  }

  /** First in, first out. */
  class Collection {
    var holes: seq<Hole>

    constructor ()
      ensures holes == []
    {
      holes := [];
    }

    method Add(h: Hole)
      modifies this
      ensures holes == old(holes) + [h]
    {
      holes := holes + [h];
    }

    method Count() returns (n: nat)
      ensures n == |holes|
    {
      n := |holes|;
    }

    method Next() returns (h: Option<Hole>)
      modifies this
      ensures h == Upcoming(old(holes)) && holes == Later(old(holes))
    {
      if |holes| < 1 {
        return None;
      }
      h := Some(holes[0]);
      holes := holes[1..];
    }
  }

  /** Every path through Collect ends in one more Seek, which puts the position back. */
  method Collect(f: Reader) returns (r: Result<Collection, SeekError>)
    modifies f`pos, f`seekCalls, f`injected
    ensures f.injected >= old(f.injected) && f.seekCalls > old(f.seekCalls)
    ensures f.SeeksWell() ==> f.injected == old(f.injected)
    ensures f.pos == old(f.pos) || f.seekFaults(f.seekCalls - 1).Some?
    ensures f.injected == old(f.injected) ==> f.pos == old(f.pos)
    ensures r.Success? ==> fresh(r.value) && r.value.holes <= Runs(f.file, 0)
    ensures r == Failure(ENXIO) ==> f.file.Size() == 0
    ensures f.injected == old(f.injected) ==>
              if f.file.Size() == 0 then r == Failure(ENXIO) else r.Success? && r.value.holes == Runs(f.file, 0)
  {
    var here := f.Seek(0, SeekCurrent);
    if here.Failure? {
      return Failure(here.error);
    }
    r := ScanHoles(f, here.value);
    var _ := f.Seek(here.value, SeekStart);
  }

  /** One round of the scan: from a hole position to the data position that ends the hole. */
  method SeekRun(f: Reader, offset: nat, eof: nat) returns (r: Result<Option<Hole>, SeekError>)
    requires eof == f.file.Size() && offset <= eof
    modifies f`pos, f`seekCalls, f`injected
    ensures f.injected >= old(f.injected) && f.seekCalls > old(f.seekCalls)
    ensures f.SeeksWell() ==> f.injected == old(f.injected)
    ensures r == Failure(ENXIO) ==> offset == eof
    ensures r.Failure? && r.error != ENXIO ==> f.injected > old(f.injected)
    ensures r == Success(None) ==> offset < eof && NextPos(f.file, offset, false) == eof
    ensures r.Success? && r.value.Some? ==>
              && offset < eof && NextPos(f.file, offset, false) < eof
              && r.value.value == Hole(NextPos(f.file, offset, false),
                                       NextPos(f.file, NextPos(f.file, offset, false), true))
  {
    var start := f.Seek(offset, SeekHole);
    if start.Failure? {
      return Failure(start.error);
    }
    if start.value == eof {
      return Success(None);
    }
    var stop := f.Seek(start.value, SeekData);
    if stop == Failure(ENXIO) {
      return Success(Some(Hole(start.value, eof)));
    }
    if stop.Failure? {
      return Failure(stop.error);
    }
    return Success(Some(Hole(start.value, stop.value)));
  }

  /** The part of Collect between the saving of the position and its deferred restoring. */
  method ScanHoles(f: Reader, back: nat) returns (r: Result<Collection, SeekError>)
    modifies f`pos, f`seekCalls, f`injected
    ensures f.injected >= old(f.injected) && f.seekCalls >= old(f.seekCalls)
    ensures f.SeeksWell() ==> f.injected == old(f.injected)
    ensures r.Success? ==> fresh(r.value) && r.value.holes <= Runs(f.file, 0)
    ensures r == Failure(ENXIO) ==> f.file.Size() == 0
    ensures f.injected == old(f.injected) ==>
              if f.file.Size() == 0 then r == Failure(ENXIO) else r.Success? && r.value.holes == Runs(f.file, 0)
  {
    var holes := new Collection();
    var end := f.Seek(0, SeekEnd);
    if end.Failure? {
      return Failure(end.error);
    }
    var eof := end.value;
    var reset := f.Seek(back, SeekStart);
    if reset.Failure? {
      return Failure(reset.error);
    }
    var offset := 0;
    ghost var all := Runs(f.file, 0);
    while true
      invariant f.injected >= old(f.injected) && f.seekCalls >= old(f.seekCalls)
      invariant f.SeeksWell() ==> f.injected == old(f.injected)
      invariant eof == f.file.Size() && offset <= eof && (offset > 0 ==> offset < eof)
      invariant fresh(holes) && holes.holes <= all && holes.holes + Runs(f.file, offset) == all
      decreases eof - offset
    {
      var next := SeekRun(f, offset, eof);
      if next.Failure? {
        if next.error == Injected(FaultEOF) {
          break;
        }
        return Failure(next.error);
      }
      if next.value.None? {
        break;
      }
      AppendRun(f.file, offset, holes.holes);
      holes.Add(next.value.value);
      offset := next.value.value.end;
      if offset == eof {
        break;
      }
    }
    return Success(holes);
  }

  /**
   * Looking for a hole, from call k on, ends at the end of the file: the seek back fails twice, or
   * the file has no hole and the last seek back fails.
   */
  predicate LeftAway(f: File, seekFaults: FaultPlan, k: nat) {
    && f.Size() > 0 && seekFaults(k).None? && seekFaults(k + 1).None?
    && if seekFaults(k + 2).Some? then seekFaults(k + 3).Some?
       else seekFaults(k + 3).None? && NextPos(f, 0, false) == f.Size() && seekFaults(k + 4).Some?
  }

  /** Whether the sparse path can be taken: the reader seeks, and its file has a hole. */
  method MakeReader(f: Reader) returns (ok: bool)
    modifies f`pos, f`seekCalls, f`injected
    ensures f.injected >= old(f.injected) && f.seekCalls > old(f.seekCalls)
    ensures f.SeeksWell() ==> f.injected == old(f.injected)
    ensures f.pos == old(f.pos) || f.seekFaults(f.seekCalls - 1).Some?
    ensures f.injected == old(f.injected) ==> f.pos == old(f.pos)
    ensures ok ==> Runs(f.file, 0) != [] && !LeftAway(f.file, f.seekFaults, old(f.seekCalls))
    ensures f.file.Size() > 0 && !ok ==>
              f.pos == if LeftAway(f.file, f.seekFaults, old(f.seekCalls)) then f.file.Size() else old(f.pos)
    ensures f.injected == old(f.injected) ==> (ok <==> exists i :: 0 <= i < f.file.Size() && !f.file.alloc[i])
  {
    var here := f.Seek(0, SeekCurrent);
    if here.Failure? {
      return false;
    }
    ok := ProbeHole(f, here.value);
    var _ := f.Seek(here.value, SeekStart);
    if ok {
      assert !f.file.alloc[NextPos(f.file, 0, false)];
    }
  }

  method ProbeHole(f: Reader, back: nat) returns (ok: bool)
    modifies f`pos, f`seekCalls, f`injected
    ensures f.injected >= old(f.injected) && f.seekCalls >= old(f.seekCalls)
    ensures f.SeeksWell() ==> f.injected == old(f.injected)
    ensures ok ==> NextPos(f.file, 0, false) < f.file.Size()
    ensures f.file.Size() > 0 && back == old(f.pos) ==>
              var k, hole := old(f.seekCalls), NextPos(f.file, 0, false);
              if f.seekFaults(k).Some? then !ok && f.pos == back && f.seekCalls == k + 1
              else if f.seekFaults(k + 1).Some? then !ok && f.pos == f.file.Size() && f.seekCalls == k + 2
              else
                && f.pos == (if f.seekFaults(k + 2).Some? then back else hole) && f.seekCalls == k + 3
                && (ok <==> f.seekFaults(k + 2).None? && hole < f.file.Size())
    ensures f.injected == old(f.injected) ==> (ok <==> NextPos(f.file, 0, false) < f.file.Size())
  {
    var end := f.Seek(0, SeekEnd);
    if end.Failure? {
      return false;
    }
    var reset := f.Seek(back, SeekStart);
    if reset.Failure? {
      return false;
    }
    var hole := f.Seek(0, SeekHole);
    if hole.Failure? {
      return false;
    }
    return hole.value != end.value;
  }
}
