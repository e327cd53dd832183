/** Uploading a file over a stream that can carry holes (providers/libvirt/shims/stream_unix.go). */
module SparseStream {
  import opened Wrappers
  import opened Octets
  import opened Holes
  import opened SparsePlan

  datatype CopyError = NoError | ContextDone | ReadError | SendError | SeekFailed(cause: SeekError)

  /** The part of a read of n bytes ending at `end` that lies before the hole. */
  function Kept(hole: Option<Hole>, n: nat, end: nat): (kept: nat)
    requires hole.Some? ==> end <= n + hole.value.start
    ensures kept <= n
  {
    if hole.Some? && hole.value.StartsBefore(end) then n - hole.value.Overflow(end) else n
  }

  function PayloadOps(bytes: seq<byte>): seq<Op> {
    if |bytes| > 0 then [Send(bytes)] else []
  }

  function HoleOps(hole: Option<Hole>, end: nat): seq<Op> {
    if hole.Some? && hole.value.StartsBefore(end) && hole.value.start <= hole.value.end
    then [SendHole(hole.value.Length())] else []
  }

  /** One read, cut at the hole and followed by it, is one round of the plan. */
  lemma RoundOps(f: File, all: seq<Hole>, b: nat, done: seq<Op>, left: seq<Hole>, offset: nat, bytes: seq<byte>)
    requires AtHead(f, all, b, done, left, offset) && offset < f.Size() && b > 0
    requires bytes == f.data[offset..ReadEnd(f, b, offset)]
    ensures var end := ReadEnd(f, b, offset); var hole := Upcoming(left);
            && (hole.Some? ==> end <= |bytes| + hole.value.start && hole.value.start < hole.value.end)
            && var payload := PayloadOps(bytes[..Kept(hole, |bytes|, end)]);
            && StepOps(f, left, b, offset) == payload + HoleOps(hole, end)
            && Begins(f, done) && |Decode(done)| <= end
            && Begins(f, done + payload) && |Decode(done + payload)| <= end
  {
    var end := ReadEnd(f, b, offset);
    var hole := Upcoming(left);
    if hole.Some? {
      assert IsHole(f, left[0]) && offset <= left[0].start;
    }
    var kept := Kept(hole, |bytes|, end);
    SlicePrefix(f.data, offset, end, kept);
    if kept > 0 {
      DecodeOne(Send(bytes[..kept]));
    }
    CarriesAppend(f, done, PayloadOps(bytes[..kept]), 0, offset, offset + kept);
  }

  /**
   * A libvirt stream. The k-th look at its context finds it done when contextDone(k), and the
   * k-th operation is refused when sendFaults(k); an operation is accepted whole or not at all.
   */
  class LibvirtStream {
    const contextDone: nat -> bool
    const sendFaults: nat -> bool
    var ops: seq<Op>
    var looks: nat
    var sends: nat

    constructor (contextDone: nat -> bool, sendFaults: nat -> bool)
      ensures ops == [] && this.contextDone == contextDone && this.sendFaults == sendFaults
    {
      this.contextDone, this.sendFaults := contextDone, sendFaults;
      ops, looks, sends := [], 0, 0;
    }

    /** The context is never done and nothing is refused. */
    ghost predicate Calm() {
      forall k :: !contextDone(k) && !sendFaults(k)
    }

    method Interrupted() returns (done: bool)
      modifies this`looks
      ensures Calm() ==> !done
    {
      done := contextDone(looks);
      looks := looks + 1;
    }

    method Emit(op: Op) returns (ok: bool)
      modifies this`ops, this`sends
      ensures ops == if ok then old(ops) + [op] else old(ops)
      ensures Calm() ==> ok
    {
      ok := !sendFaults(sends);
      sends := sends + 1;
      if ok {
        ops := ops + [op];
      }
    }

    /** The payload of one read up to the hole, then the hole itself if the read came to it. */
    method Forward(bytes: seq<byte>, end: nat, hole: Option<Hole>) returns (ok: bool)
      requires hole.Some? ==> end <= |bytes| + hole.value.start && hole.value.start <= hole.value.end
      modifies this`ops, this`sends
      ensures var payload := PayloadOps(bytes[..Kept(hole, |bytes|, end)]);
              if ok then ops == old(ops) + (payload + HoleOps(hole, end))
              else ops == old(ops) || (ops == old(ops) + payload && HoleOps(hole, end) != [])
      ensures Calm() ==> ok
    {
      var read := |bytes|;
      if hole.Some? && hole.value.StartsBefore(end) {
        read := read - hole.value.Overflow(end);
      }
      if read > 0 {
        ok := Emit(Send(bytes[..read]));
        if !ok {
          return;
        }
      }
      if hole.Some? && hole.value.StartsBefore(end) {
        ok := Emit(SendHole(hole.value.Length()));
        return;
      }
      ok := true;
    }

    /** Forward, seen as one round of the plan for file f after `before`. */
    method ForwardRound(bytes: seq<byte>, end: nat, hole: Option<Hole>, ghost f: File, ghost all: seq<Hole>,
        ghost b: nat, ghost base: seq<Op>, ghost before: seq<Op>, ghost left: seq<Hole>, ghost head: nat)
      returns (ok: bool, ghost after: seq<Op>)
      requires b > 0 && head < f.Size() && AtHead(f, all, b, before, left, head)
      requires end == ReadEnd(f, b, head) && bytes == f.data[head..end] && hole == Upcoming(left)
      requires ops == base + before
      modifies this`ops, this`sends
      ensures ops == base + after
      ensures ok ==> head < StepEnd(f, left, b, head)
      ensures ok ==> AtHead(f, all, b, after, StepHoles(f, left, b, head), StepEnd(f, left, b, head))
      ensures !ok ==> Begins(f, after) && |Decode(after)| <= end
      ensures Calm() ==> ok
    {
      RoundKeepsHead(f, all, b, before, left, head);
      RoundOps(f, all, b, before, left, head, bytes);
      ghost var payload := PayloadOps(bytes[..Kept(hole, |bytes|, end)]);
      ghost var step := StepOps(f, left, b, head);
      Reassociate(base, before, payload);
      Reassociate(base, before, step);
      ok := Forward(bytes, end, hole);
      after := if ok then before + step else if ops == base + before then before else before + payload;
    }

    /**
     * The sparse loop. At each head the operations carry exactly the file up to `offset`,
     * which never passes the start of the next hole; inside a round the offset may overshoot
     * the hole and come back to its end, yet from head to head it strictly grows.
     */
    method CopySparse(f: Reader, holes: Collection, bufSize: nat) returns (n: nat, err: CopyError, ghost sent: seq<Op>)
      requires bufSize > 0 && holes.holes <= Runs(f.file, 0)
      modifies this, f`readCalls, holes
      ensures ops == old(ops) + sent
      ensures err == NoError ==> n == f.file.Size() && sent == Plan(f.file, old(holes.holes), bufSize, 0)
      ensures err in {NoError, ContextDone, ReadError} ==> Carries(f.file, sent, 0, n)
      ensures err == SendError ==> Begins(f.file, sent) && |Decode(sent)| <= n
      ensures !err.SeekFailed? && (Calm() && f.ReadsWell() ==> err == NoError)
    {
      ghost var all, base := holes.holes, ops;
      AtStart(f.file, all, bufSize);
      var hole := holes.Next();
      ghost var left := all;
      sent := [];
      var buf := new byte[bufSize];
      var offset := 0;
      while true
        invariant hole == Upcoming(left) && holes.holes == Later(left)
        invariant AtHead(f.file, all, bufSize, sent, left, offset)
        invariant ops == base + sent
        decreases f.file.Size() - offset
      {
        var stop := Interrupted();
        if stop {
          return offset, ContextDone, sent;
        }
        var bytes, status := ReadPiece(f, buf, offset);
        if status == ReadFailed {
          return offset, ReadError, sent;
        }
        if status == ReadEOF && |bytes| == 0 {
          AtEnd(f.file, all, bufSize, sent, left, offset);
          return offset, NoError, sent;
        }
        ghost var head := offset;
        offset := offset + |bytes|;
        StepEndByHole(f.file, left, bufSize, head);
        var ok;
        ok, sent := ForwardRound(bytes, offset, hole, f.file, all, bufSize, base, sent, left, head);
        if !ok {
          return offset, SendError, sent;
        }
        if hole.Some? && hole.value.StartsBefore(offset) {
          offset := hole.value.end;
          hole := holes.Next();
        }
        assert offset == StepEnd(f.file, left, bufSize, head);
        left := StepHoles(f.file, left, bufSize, head);
      }
    }

    /** The fallback for a file without holes: read and forward until the end. */
    method CopyDense(f: Reader, bufSize: nat) returns (n: nat, err: CopyError, ghost sent: seq<Op>)
      requires bufSize > 0
      modifies this, f`readCalls, f`pos
      ensures ops == old(ops) + sent
      ensures AllSends(sent)
      ensures Continues(f.file, sent, old(f.pos)) && n == |Decode(sent)|
      ensures old(f.pos) <= f.file.Size() && err == NoError ==> old(f.pos) + n == f.file.Size()
      ensures !err.SeekFailed? && (Calm() && f.ReadsWell() ==> err == NoError)
    {
      n, sent := 0, [];
      ghost var begin, base := f.pos, ops;
      var buf := new byte[bufSize];
      while true
        invariant f.pos == begin + n && ops == base + sent
        invariant Continues(f.file, sent, begin) && n == |Decode(sent)|
        invariant AllSends(sent)
        decreases f.file.Size() - f.pos
      {
        var read, status := f.Read(buf);
        if status == ReadFailed {
          return n, ReadError, sent;
        }
        if status == ReadEOF {
          return n, NoError, sent;
        }
        var stop := Interrupted();
        if stop {
          return n, ContextDone, sent;
        }
        var ok;
        ok, sent := ForwardNext(buf[..read], f.file, base, sent, begin);
        if !ok {
          return n, SendError, sent;
        }
        n := n + read;
      }
    }

    /** One read of the dense loop, sent as the next stretch of the file. */
    method ForwardNext(bytes: seq<byte>, ghost f: File, ghost base: seq<Op>, ghost before: seq<Op>, ghost p: nat)
      returns (ok: bool, ghost after: seq<Op>)
      requires Continues(f, before, p) && p + |Decode(before)| + |bytes| <= f.Size()
      requires bytes == f.data[p + |Decode(before)|..p + |Decode(before)| + |bytes|]
      requires ops == base + before && AllSends(before)
      modifies this`ops, this`sends
      ensures ops == base + after && AllSends(after) && Continues(f, after, p)
      ensures if ok then |Decode(after)| == |Decode(before)| + |bytes| else after == before
      ensures Calm() ==> ok
    {
      NextContinues(f, before, bytes, p);
      SendsNext(before, bytes);
      Reassociate(base, before, [Send(bytes)]);
      ok := Emit(Send(bytes));
      after := if ok then before + [Send(bytes)] else before;
    }

    /** The sparse branch: find the holes, then copy around them. */
    method CopyHoles(f: Reader, bufSize: nat) returns (n: nat, err: CopyError, ghost sent: seq<Op>)
      requires bufSize > 0
      modifies this, f`pos, f`seekCalls, f`readCalls, f`injected
      ensures ops == old(ops) + sent && f.injected >= old(f.injected)
      ensures Begins(f.file, sent)
      ensures err in {NoError, ContextDone, ReadError} ==> Carries(f.file, sent, 0, n)
      ensures err == NoError ==> n == f.file.Size()
      ensures f.injected == old(f.injected) && f.file.Size() > 0 ==> !err.SeekFailed?
      ensures (f.SeeksWell() ==> f.injected == old(f.injected))
      ensures (Calm() && f.ReadsWell() ==> err == NoError || err.SeekFailed?)
      ensures f.injected == old(f.injected) && err == NoError ==> sent == Plan(f.file, Runs(f.file, 0), bufSize, 0)
    {
      var holes := Collect(f);
      if holes.Failure? {
        return 0, SeekFailed(holes.error), [];
      }
      n, err, sent := CopySparse(f, holes.value, bufSize);
    }

    /**
     * Copies the reader to the stream, over holes where the file has them. Whatever goes wrong,
     * what was sent is a stretch of the file: from its beginning in the sparse branch, else from
     * where looking for holes left the reader. Success has sent all the rest.
     */
    method ReadFrom(f: Reader, bufSize: nat)
      returns (n: nat, err: CopyError, ghost sparse: bool, ghost from: nat, ghost sent: seq<Op>)
      requires bufSize > 0
      modifies this, f`pos, f`seekCalls, f`readCalls, f`injected
      ensures ops == old(ops) + sent && f.injected >= old(f.injected)
      ensures (f.SeeksWell() ==> f.injected == old(f.injected))
      ensures sparse ==> from == 0
      ensures Continues(f.file, sent, from)
      ensures err == NoError ==> n == |Decode(sent)| && from + n >= f.file.Size()
      ensures f.injected == old(f.injected) ==>
                && !err.SeekFailed? && (Calm() && f.ReadsWell() ==> err == NoError)
                && (sparse <==> exists i :: 0 <= i < f.file.Size() && !f.file.alloc[i])
                && (sparse && err == NoError ==> sent == Plan(f.file, Runs(f.file, 0), bufSize, 0))
                && (!sparse ==> from == old(f.pos))
      ensures f.file.Size() > 0 ==>
                var away := LeftAway(f.file, f.seekFaults, old(f.seekCalls));
                && (away ==> !sparse && from == f.file.Size())
                && (!away ==> sparse || from == old(f.pos))
      ensures !sparse ==> AllSends(sent) && (Calm() && f.ReadsWell() ==> err == NoError)
      ensures err in {ContextDone, ReadError} ==> n == |Decode(sent)|
    {
      var ok := MakeReader(f);
      sparse := ok;
      if ok {
        from := 0;
        n, err, sent := CopyHoles(f, bufSize);
      } else {
        from := f.pos;
        n, err, sent := CopyDense(f, bufSize);
      }
    }
  }

  /**
   * The upload of a newly opened file into a volume: the size is announced, and unless the file
   * is empty its content follows. It succeeds if nothing fails. A success has delivered exactly
   * the file precisely when looking for holes did not leave the reader at the end; if it did, the
   * upload succeeds all the same and delivers nothing. Without seek faults it has delivered the
   * file, with as many bytes as announced and no more payload than the file has data.
   */
  method Upload(f: Reader, stream: LibvirtStream, bufSize: nat)
    returns (ok: bool, announced: nat, ghost sent: seq<Op>)
    requires bufSize > 0 && f.pos == 0
    modifies stream, f`pos, f`seekCalls, f`readCalls, f`injected
    ensures stream.ops == old(stream.ops) + sent && announced == f.file.Size()
    ensures ok ==> (Decode(sent) == f.file.data <==> !LeftAway(f.file, f.seekFaults, old(f.seekCalls)))
    ensures stream.Calm() && f.ReadsWell() && LeftAway(f.file, f.seekFaults, old(f.seekCalls)) ==>
              ok && Decode(sent) == []
    ensures ok && f.injected == old(f.injected) ==>
              |Decode(sent)| == announced && Payload(sent) == AllocatedFrom(f.file, 0)
    ensures stream.Calm() && f.SeeksWell() && f.ReadsWell() ==> ok && f.injected == old(f.injected)
  {
    announced := f.file.Size();
    if announced == 0 {
      return true, announced, [];
    }
    var n, err;
    ghost var sparse, from;
    n, err, sparse, from, sent := stream.ReadFrom(f, bufSize);
    ok := err == NoError;
    if ok {
      WholeIffFromStart(f.file, sent, from);
    }
    if ok && f.injected == old(f.injected) {
      DeliversAllocated(f.file, sent, bufSize, sparse);
    }
  }

  /** A file all of data, uploaded while the third and fourth seeks fail: a success, and nothing is sent. */
  method LostUpload(data: seq<byte>, bufSize: nat) returns (ok: bool, announced: nat, ghost sent: seq<Op>)
    requires data != [] && bufSize > 0
    ensures ok && announced == |data| && Decode(sent) == []
  {
    var file := RawFile(data, seq(|data|, i => true));
    var f := new Reader(file, 0, k => if k == 2 || k == 3 then Some(FaultIO) else None, k => false);
    var stream := new LibvirtStream(k => false, k => false);
    ok, announced, sent := Upload(f, stream, bufSize);
  }

  /** What carries the rest of a file carries all of it only from the beginning. */
  lemma WholeIffFromStart(f: File, sent: seq<Op>, from: nat)
    requires f.Size() > 0 && from + |Decode(sent)| >= f.Size()
    requires Continues(f, sent, from)
    ensures Decode(sent) == f.data <==> from == 0
  {
    assert f.data[0..f.Size()] == f.data;
  }

  lemma DeliversAllocated(f: File, sent: seq<Op>, b: nat, sparse: bool)
    requires b > 0 && Carries(f, sent, 0, f.Size())
    requires if sparse then sent == Plan(f, Runs(f, 0), b, 0)
             else AllSends(sent) && (forall i :: 0 <= i < f.Size() ==> f.alloc[i])
    ensures Decode(sent) == f.data && Payload(sent) == AllocatedFrom(f, 0)
  {
    if sparse {
      PrefixOfRuns(f, Runs(f, 0));
      PlanSendsAllocated(f, Runs(f, 0), b, 0);
    } else {
      SendsArePayload(sent);
      AllocatedRun(f, 0, f.Size());
    }
  }
}
