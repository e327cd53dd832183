/** Writing a sparse file to an rbd image (providers/libvirt/storage/plugin/ceph/sparse_writer.go). */
module SparseWriter {
  import opened Wrappers
  import opened Octets
  import opened Holes
  import opened SparsePlan

  datatype CopyError = NoError | ContextDone | ReadError | WriteError | SeekFailed(cause: SeekError)

  /**
   * An rbd image of fixed size. The k-th write is refused when writeFaults(k), and any write
   * that would pass the end of the image is; a refused write changes nothing.
   */
  class Image {
    var content: seq<byte>
    const writeFaults: nat -> bool
    var calls: nat
    var cursor: nat
    ghost var log: seq<Placement>

    constructor (content: seq<byte>, writeFaults: nat -> bool)
      ensures this.content == content && this.writeFaults == writeFaults
      ensures calls == 0 && cursor == 0 && log == []
    {
      this.content, this.writeFaults := content, writeFaults;
      calls, cursor, log := 0, 0, [];
    }

    method WriteAt(bytes: seq<byte>, at: nat) returns (ok: bool)
      modifies this`calls, this`log, this`content
      ensures ok <==> !writeFaults(old(calls)) && at + |bytes| <= old(|content|)
      ensures calls == old(calls) + 1
      ensures log == if ok then old(log) + [Placement(at, bytes)] else old(log)
      ensures content == if ok then Poke(old(content), at, bytes) else old(content)
    {
      ok := !writeFaults(calls) && at + |bytes| <= |content|;
      calls := calls + 1;
      if ok {
        content := Poke(content, at, bytes);
        log := log + [Placement(at, bytes)];
      }
    }

    /** Sequential write at the image's own position. */
    method Write(bytes: seq<byte>) returns (ok: bool)
      modifies this`calls, this`log, this`cursor, this`content
      ensures ok <==> !writeFaults(old(calls)) && old(cursor) + |bytes| <= old(|content|)
      ensures cursor == if ok then old(cursor) + |bytes| else old(cursor)
      ensures log == if ok then old(log) + [Placement(old(cursor), bytes)] else old(log)
      ensures content == if ok then Poke(old(content), old(cursor), bytes) else old(content)
    {
      ok := WriteAt(bytes, cursor);
      if ok {
        cursor := cursor + |bytes|;
      }
    }
  }

  /** The image took the payload of `sent`, placed from position `at` on, and nothing else. */
  ghost predicate Took(before: seq<byte>, log: seq<Placement>, after: seq<byte>, log': seq<Placement>, sent: seq<Op>,
      at: nat)
  {
    log' == log + Placed(sent, at) && after == Overlay(before, Placed(sent, at))
  }

  lemma TookMore(before: seq<byte>, log: seq<Placement>, now: seq<byte>, log': seq<Placement>, sent: seq<Op>,
      more: seq<Op>, at: nat)
    requires Took(before, log, now, log', sent, at)
    ensures Took(before, log, Overlay(now, Placed(more, at + |Decode(sent)|)), log' + Placed(more, at + |Decode(sent)|),
                 sent + more, at)
  {
    PlacedAppend(sent, more, at);
    OverlayAppend(before, Placed(sent, at), Placed(more, at + |Decode(sent)|));
    Reassociate(log, Placed(sent, at), Placed(more, at + |Decode(sent)|));
  }

  lemma GapPlacesNothing(n: nat, at: nat)
    ensures Placed([SendHole(n)], at) == []
  {
    assert [SendHole(n)][1..] == [];
  }

  /** A round of the plan writes its payload, if any, at its head. */
  lemma RoundPlaced(f: File, left: seq<Hole>, b: nat, head: nat, bytes: seq<byte>)
    requires HolesFrom(f, left, head) && head < f.Size() && b > 0
    requires bytes == f.data[head..ReadEnd(f, b, head)]
    ensures var kept := if MeetsHole(f, left, b, head) then |bytes| - left[0].Overflow(ReadEnd(f, b, head))
                       else |bytes|;
            && 0 <= kept <= |bytes|
            && Placed(StepOps(f, left, b, head), head) == if kept > 0 then [Placement(head, bytes[..kept])] else []
  {
    if MeetsHole(f, left, b, head) {
      assert IsHole(f, left[0]);
      var gap := left[0].end - left[0].start;
      if head < left[0].start {
        var piece := f.data[head..left[0].start];
        assert StepOps(f, left, b, head) == [Send(piece)] + [SendHole(gap)];
        PlacedAppend([Send(piece)], [SendHole(gap)], head);
        PlacedOne(piece, head);
        GapPlacesNothing(gap, head + |Decode([Send(piece)])|);
        SlicePrefix(f.data, head, ReadEnd(f, b, head), |piece|);
      } else {
        assert StepOps(f, left, b, head) == [SendHole(gap)];
        GapPlacesNothing(gap, head);
      }
    } else {
      assert StepOps(f, left, b, head) == [Send(bytes)];
      PlacedOne(bytes, head);
      assert bytes[..|bytes|] == bytes;
    }
  }

  /** The image after a write of at most one piece. */
  lemma OverlayOne(image: seq<byte>, w: Placement)
    ensures Overlay(image, [w]) == Poke(image, w.at, w.bytes)
    ensures Overlay(image, []) == image
  {
    assert [w][1..] == [];
  }

  /** Operations that follow what carries the file up to p are placed from p on. */
  lemma NextTook(f: File, sent: seq<Op>, p: nat, more: seq<Op>,
      image0: seq<byte>, log0: seq<Placement>, image: seq<byte>, log: seq<Placement>)
    requires Carries(f, sent, 0, p) && Took(image0, log0, image, log, sent, 0)
    ensures Took(image0, log0, Overlay(image, Placed(more, p)), log + Placed(more, p), sent + more, 0)
  {
    assert |Decode(sent)| == |f.data[0..p]| == p;
    TookMore(image0, log0, image, log, sent, more, 0);
  }

  /** A dense piece is one placement at the position the stream has come to. */
  lemma PieceTook(bytes: seq<byte>, image0: seq<byte>, log0: seq<Placement>, image: seq<byte>, log: seq<Placement>,
      sent: seq<Op>, start: nat, at: nat)
    requires Took(image0, log0, image, log, sent, start) && at == start + |Decode(sent)|
    ensures Took(image0, log0, Poke(image, at, bytes), log + [Placement(at, bytes)], sent + [Send(bytes)], start)
  {
    PlacedOne(bytes, at);
    OverlayOne(image, Placement(at, bytes));
    TookMore(image0, log0, image, log, sent, [Send(bytes)], start);
  }

  /** And it carries the file on. */
  lemma PieceAppended(f: File, bytes: seq<byte>, begin: nat, image0: seq<byte>, log0: seq<Placement>,
      image: seq<byte>, log: seq<Placement>, image': seq<byte>, log': seq<Placement>, sent: seq<Op>, start: nat)
    returns (next: seq<Op>)
    requires Continues(f, sent, begin) && begin + |Decode(sent)| + |bytes| <= f.Size()
    requires bytes == f.data[begin + |Decode(sent)|..begin + |Decode(sent)| + |bytes|]
    requires Took(image0, log0, image, log, sent, start) && AllSends(sent)
    requires image' == Poke(image, start + |Decode(sent)|, bytes)
    requires log' == log + [Placement(start + |Decode(sent)|, bytes)]
    ensures Took(image0, log0, image', log', next, start)
    ensures AllSends(next) && Continues(f, next, begin) && |Decode(next)| == |Decode(sent)| + |bytes|
  {
    next := sent + [Send(bytes)];
    PieceTook(bytes, image0, log0, image, log, sent, start, start + |Decode(sent)|);
    NextContinues(f, sent, bytes, begin);
    SendsNext(sent, bytes);
  }

  lemma PlacedOne(bytes: seq<byte>, at: nat)
    ensures Placed([Send(bytes)], at) == [Placement(at, bytes)]
  {
    assert [Send(bytes)][1..] == [];
  }

  class Uploader {
    const img: Image
    const contextDone: nat -> bool
    var looks: nat

    constructor (img: Image, contextDone: nat -> bool)
      ensures this.img == img && this.contextDone == contextDone && looks == 0
    {
      this.img, this.contextDone, this.looks := img, contextDone, 0;
    }

    /** The context is never done and no write is refused but for its position. */
    ghost predicate Calm() {
      forall k :: !contextDone(k) && !img.writeFaults(k)
    }

    method Interrupted() returns (done: bool)
      modifies this`looks
      ensures Calm() ==> !done
    {
      done := contextDone(looks);
      looks := looks + 1;
    }

    /** Keeps of a read what lies before the hole and writes it where it was read. */
    method WriteRound(bytes: seq<byte>, head: nat, hole: Option<Hole>, ghost f: File, ghost b: nat,
        ghost left: seq<Hole>)
      returns (ok: bool)
      requires b > 0 && head < f.Size() && HolesFrom(f, left, head)
      requires head + |bytes| == ReadEnd(f, b, head) && bytes == f.data[head..head + |bytes|]
      requires hole == Upcoming(left)
      modifies img`calls, img`log, img`content
      ensures var ws := Placed(StepOps(f, left, b, head), head);
              if ok then img.log == old(img.log) + ws && img.content == Overlay(old(img.content), ws)
              else img.log == old(img.log) && img.content == old(img.content)
      ensures Calm() && f.Size() <= |old(img.content)| ==> ok
    {
      var newOffset, read := head + |bytes|, |bytes|;
      RoundPlaced(f, left, b, head, bytes);
      OverlayOne(img.content, Placement(head, []));
      if hole.Some? && hole.value.StartsBefore(newOffset) {
        read := read - hole.value.Overflow(newOffset);
      }
      ok := true;
      if read > 0 {
        OverlayOne(img.content, Placement(head, bytes[..read]));
        ok := img.WriteAt(bytes[..read], head);
      }
    }

    /** WriteRound, seen as one round of the plan for file f on an image that took `sent` so far. */
    method CopyRound(bytes: seq<byte>, head: nat, hole: Option<Hole>, ghost f: File, ghost all: seq<Hole>, ghost b: nat,
        ghost image0: seq<byte>, ghost log0: seq<Placement>, ghost sent: seq<Op>, ghost left: seq<Hole>)
      returns (ok: bool, ghost after: seq<Op>)
      requires b > 0 && head < f.Size() && AtHead(f, all, b, sent, left, head)
      requires bytes == f.data[head..ReadEnd(f, b, head)]
      requires hole == Upcoming(left)
      requires Took(image0, log0, img.content, img.log, sent, 0)
      modifies img`calls, img`log, img`content
      ensures Took(image0, log0, img.content, img.log, after, 0)
      ensures if ok then head < StepEnd(f, left, b, head) && AtHead(f, all, b, after, StepHoles(f, left, b, head),
                                                                    StepEnd(f, left, b, head))
              else after == sent
      ensures Calm() && f.Size() <= |image0| ==> ok
    {
      NextTook(f, sent, head, StepOps(f, left, b, head), image0, log0, img.content, img.log);
      RoundKeepsHead(f, all, b, sent, left, head);
      ok := WriteRound(bytes, head, hole, f, b, left);
      after := if ok then sent + StepOps(f, left, b, head) else sent;
    }

    /** The sparse loop: the image holds at each head exactly what the plan placed so far. */
    method CopySparse(f: Reader, holes: Collection, bufSize: nat) returns (n: nat, err: CopyError, ghost sent: seq<Op>)
      requires bufSize > 0 && holes.holes <= Runs(f.file, 0)
      modifies this, img`calls, img`log, img`content, f`readCalls, holes
      ensures Took(old(img.content), old(img.log), img.content, img.log, sent, 0)
      ensures Carries(f.file, sent, 0, n)
      ensures err == NoError ==> n == f.file.Size() && sent == Plan(f.file, old(holes.holes), bufSize, 0)
      ensures !err.SeekFailed?
      ensures Calm() && f.ReadsWell() && f.file.Size() <= |old(img.content)| ==> err == NoError
    {
      ghost var all, image0, log0 := holes.holes, img.content, img.log;
      AtStart(f.file, all, bufSize);
      var hole := holes.Next();
      ghost var left := all;
      sent := [];
      var buf := new byte[bufSize];
      var offset := 0;
      while true
        invariant hole == Upcoming(left) && holes.holes == Later(left)
        invariant AtHead(f.file, all, bufSize, sent, left, offset)
        invariant Took(image0, log0, img.content, img.log, sent, 0)
        decreases f.file.Size() - offset
      {
        var stop := Interrupted();
        if stop {
          return offset, ContextDone, sent;
        }
        var bytes, status := ReadPiece(f, buf, offset);
        if status == ReadFailed {
          return offset, ReadError, sent;
        }
        if status == ReadEOF && |bytes| == 0 {
          AtEnd(f.file, all, bufSize, sent, left, offset);
          return offset, NoError, sent;
        }
        StepEndByHole(f.file, left, bufSize, offset);
        var ok;
        ok, sent := CopyRound(bytes, offset, hole, f.file, all, bufSize, image0, log0, sent, left);
        if !ok {
          return offset, WriteError, sent;
        }
        ghost var head := offset;
        offset := offset + |bytes|;
        if hole.Some? && hole.value.StartsBefore(offset) {
          offset := hole.value.end;
          hole := holes.Next();
        }
        assert offset == StepEnd(f.file, left, bufSize, head);
        left := StepHoles(f.file, left, bufSize, head);
      }
    }

    /** The fallback for a file without holes: read and append at the image's own position. */
    method CopyDense(f: Reader, bufSize: nat) returns (n: nat, err: CopyError, ghost sent: seq<Op>)
      requires bufSize > 0
      modifies this, img, f`readCalls, f`pos
      ensures Took(old(img.content), old(img.log), img.content, img.log, sent, old(img.cursor))
      ensures Continues(f.file, sent, old(f.pos)) && n == |Decode(sent)|
      ensures err == NoError ==> old(f.pos) + n >= f.file.Size()
      ensures AllSends(sent)
      ensures !err.SeekFailed?
      ensures Calm() && f.ReadsWell() && old(img.cursor) + f.file.Size() <= |old(img.content)| ==> err == NoError
    {
      n, sent := 0, [];
      ghost var begin, start, image0, log0 := f.pos, img.cursor, img.content, img.log;
      var buf := new byte[bufSize];
      while true
        invariant f.pos == begin + n && img.cursor == start + n
        invariant Took(image0, log0, img.content, img.log, sent, start)
        invariant Continues(f.file, sent, begin) && n == |Decode(sent)|
        invariant AllSends(sent)
        decreases f.file.Size() - f.pos
      {
        var read, status := f.Read(buf);
        if status == ReadFailed {
          return n, ReadError, sent;
        }
        if status == ReadEOF {
          return n, NoError, sent;
        }
        var stop := Interrupted();
        if stop {
          return n, ContextDone, sent;
        }
        var ok;
        ok, sent := AppendRound(buf[..read], f.file, begin, image0, log0, sent, start);
        if !ok {
          return n, WriteError, sent;
        }
        n := n + read;
      }
    }

    /** One sequential write of the next stretch of the file. */
    method AppendRound(bytes: seq<byte>, ghost f: File, ghost begin: nat, ghost image0: seq<byte>,
        ghost log0: seq<Placement>, ghost sent: seq<Op>, ghost start: nat)
      returns (ok: bool, ghost after: seq<Op>)
      requires Continues(f, sent, begin) && begin + |Decode(sent)| + |bytes| <= f.Size()
      requires bytes == f.data[begin + |Decode(sent)|..begin + |Decode(sent)| + |bytes|]
      requires img.cursor == start + |Decode(sent)|
      requires Took(image0, log0, img.content, img.log, sent, start) && AllSends(sent)
      modifies img
      ensures Took(image0, log0, img.content, img.log, after, start) && AllSends(after)
      ensures Continues(f, after, begin) && img.cursor == start + |Decode(after)|
      ensures if ok then |Decode(after)| == |Decode(sent)| + |bytes| else after == sent
      ensures Calm() && start + f.Size() <= |image0| ==> ok
    {
      ghost var image, log := img.content, img.log;
      ok := img.Write(bytes);
      after := sent;
      if ok {
        after := PieceAppended(f, bytes, begin, image0, log0, image, log, img.content, img.log, sent, start);
      }
    }

    method CopyHoles(f: Reader, bufSize: nat) returns (n: nat, err: CopyError, ghost sent: seq<Op>)
      requires bufSize > 0
      modifies this, img`calls, img`log, img`content, f`pos, f`seekCalls, f`readCalls, f`injected
      ensures Took(old(img.content), old(img.log), img.content, img.log, sent, 0)
      ensures f.injected >= old(f.injected)
      ensures Carries(f.file, sent, 0, n)
      ensures err == NoError ==> n == f.file.Size()
      ensures f.injected == old(f.injected) && f.file.Size() > 0 ==> !err.SeekFailed?
      ensures f.SeeksWell() ==> f.injected == old(f.injected)
      ensures Calm() && f.ReadsWell() && f.file.Size() <= |old(img.content)| ==> err == NoError || err.SeekFailed?
      ensures f.injected == old(f.injected) && err == NoError ==> sent == Plan(f.file, Runs(f.file, 0), bufSize, 0)
    {
      var holes := Collect(f);
      if holes.Failure? {
        return 0, SeekFailed(holes.error), [];
      }
      n, err, sent := CopySparse(f, holes.value, bufSize);
    }

    /**
     * Copies the reader to the image. The sparse branch copies the file from its beginning to
     * file positions; the dense one from the reader's position to the image's own.
     */
    method ReadFrom(f: Reader, bufSize: nat)
      returns (n: nat, err: CopyError, ghost sparse: bool, ghost from: nat, ghost sent: seq<Op>)
      requires bufSize > 0
      modifies this, img, f`pos, f`seekCalls, f`readCalls, f`injected
      ensures f.injected >= old(f.injected) && (f.SeeksWell() ==> f.injected == old(f.injected))
      ensures f.injected == old(f.injected) && Calm() && f.ReadsWell() ==>
                old(img.cursor) + f.file.Size() <= |old(img.content)| ==> err == NoError
      ensures Took(old(img.content), old(img.log), img.content, img.log, sent, if sparse then 0 else old(img.cursor))
      ensures Continues(f.file, sent, from) && n == |Decode(sent)|
      ensures sparse ==> from == 0
      ensures err == NoError ==> from + n >= f.file.Size()
      ensures f.injected == old(f.injected) ==>
                && !err.SeekFailed?
                && (sparse <==> exists i :: 0 <= i < f.file.Size() && !f.file.alloc[i])
                && (sparse && err == NoError ==> sent == Plan(f.file, Runs(f.file, 0), bufSize, 0))
                && (!sparse ==> from == old(f.pos))
      ensures LeftAway(f.file, f.seekFaults, old(f.seekCalls)) ==> from == f.file.Size()
    {
      var ok := MakeReader(f);
      sparse := ok;
      if ok {
        from := 0;
        n, err, sent := CopyHoles(f, bufSize);
      } else {
        from := f.pos;
        n, err, sent := CopyDense(f, bufSize);
      }
    }

    /**
     * The whole upload to a newly opened image, with its closing size check. Success means the
     * file is on the image, whatever the seek calls did on the way: every allocated byte is
     * there, and an image that was zeroed before holds exactly the file.
     */
    method Upload(f: Reader, bufSize: nat) returns (ok: bool)
      requires bufSize > 0 && img.cursor == 0
      modifies this, img, f`pos, f`seekCalls, f`readCalls, f`injected
      ensures |img.content| == old(|img.content|)
      ensures ok && f.file.Size() <= |img.content| ==>
                && Uploaded(f.file, old(img.content), img.content)
                && (old(img.content == Zeros(|img.content|)) ==>
                      img.content == f.file.data + Zeros(|img.content| - f.file.Size()))
      ensures old(f.pos) == 0 && LeftAway(f.file, f.seekFaults, old(f.seekCalls)) ==> !ok
      ensures Calm() && f.SeeksWell() && f.ReadsWell() && old(f.pos) == 0 && f.file.Size() <= |old(img.content)| ==> ok
    {
      var wrote, err;
      ghost var sparse, from, sent;
      wrote, err, sparse, from, sent := ReadFrom(f, bufSize);
      ok := err == NoError && wrote == f.file.Size();
      if ok && f.file.Size() <= |img.content| {
        assert Decode(sent) == f.file.data;
        PlacedWhole(f.file, old(img.content), sent);
        if old(img.content == Zeros(|img.content|)) {
          UploadedToZeros(f.file, old(img.content), img.content);
        }
      }
    }
  }

  /** The image has the file: only where the file has a zero may the old content remain. */
  ghost predicate Uploaded(f: File, before: seq<byte>, after: seq<byte>) {
    && |after| == |before| >= f.Size()
    && (forall i :: 0 <= i < f.Size() ==> after[i] == f.data[i] || (f.data[i] == 0 && after[i] == before[i]))
    && (forall i :: f.Size() <= i < |before| ==> after[i] == before[i])
  }

  lemma UploadedToZeros(f: File, before: seq<byte>, after: seq<byte>)
    requires Uploaded(f, before, after) && before == Zeros(|before|)
    ensures after == f.data + Zeros(|before| - f.Size())
  {
  }

  /** Placing a stream that decodes to the file leaves the file, except where it sent holes. */
  lemma PlacedWhole(f: File, image: seq<byte>, sent: seq<Op>)
    requires Decode(sent) == f.data && f.Size() <= |image|
    ensures Uploaded(f, image, Overlay(image, Placed(sent, 0)))
  {
    var out := Overlay(image, Placed(sent, 0));
    forall i: nat | i < |image|
      ensures i < f.Size() ==> out[i] == f.data[i] || (f.data[i] == 0 && out[i] == image[i])
      ensures i >= f.Size() ==> out[i] == image[i]
    {
      PlacedAt(image, sent, i);
    }
  }

  lemma PlacedAt(image: seq<byte>, sent: seq<Op>, i: nat)
    requires |Decode(sent)| <= |image| && i < |image|
    ensures var out := Overlay(image, Placed(sent, 0))[i];
            if i < |Decode(sent)| then out == Decode(sent)[i] || (Decode(sent)[i] == 0 && out == image[i])
            else out == image[i]
  {
    OverlayPlaced(image, sent, 0, i);
    if i < |Decode(sent)| && !Covered(sent, i) {
      UncoveredIsZero(sent, i);
    }
  }
}
