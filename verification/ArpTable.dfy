/**
 * The state shared by all discovery requests and the operations on it (net/arp/arper_linux.go).
 * Each operation is given as a function; the methods of class Arper carry them out in place.
 */
module ArpTable {
  import opened Wrappers
  import opened Octets

  type Address = seq<byte>

  /** An entry of the kernel's neighbour table, its interface index already looked up. */
  datatype Neighbor = Neighbor(device: Option<string>, state: bv16, lladdr: Address, addr: Address)

  datatype Entry = Entry(addr: Address, hwaddr: Address, device: string)

  datatype Request = Request(hwaddr: Address, iface: string)

  const NUD_REACHABLE: bv16 := 0x02
  const NUD_STALE: bv16 := 0x04

  // ---- Entries -----------------------------------------------------------------------------

  predicate AllZero(a: Address) {
    forall i :: 0 <= i < |a| ==> a[i] == 0
  }

  /** The unspecified address: four or sixteen zero bytes, or zero mapped from IPv4. */
  predicate IsUnspecified(a: Address) {
    || (|a| == 4 && AllZero(a))
    || (|a| == 16 && AllZero(a))
    || (|a| == 16 && AllZero(a[..10]) && a[10] == 255 && a[11] == 255 && AllZero(a[12..]))
  }

  predicate Matches(req: Request, e: Entry) {
    !IsUnspecified(e.addr) && e.hwaddr == req.hwaddr && req.iface == e.device
  }

  predicate Usable(n: Neighbor) {
    && n.device.Some?
    && n.state & NUD_REACHABLE == NUD_REACHABLE
    && n.state & NUD_STALE != NUD_STALE
  }

  function EntryOf(n: Neighbor): Entry
    requires n.device.Some?
  {
    Entry(n.addr, n.lladdr, n.device.value)
  }

  /** The usable neighbours, in table order. */
  function Usables(ns: seq<Neighbor>): seq<Entry> {
    if ns == [] then []
    else Usables(ns[..|ns| - 1]) + if Usable(ns[|ns| - 1]) then [EntryOf(ns[|ns| - 1])] else []
  }

  function Matching(es: seq<Entry>, req: Request): seq<Entry> {
    if es == [] then []
    else Matching(es[..|es| - 1], req) + if Matches(req, es[|es| - 1]) then [es[|es| - 1]] else []
  }

  lemma {:induction false} UsablesExactly(ns: seq<Neighbor>, e: Entry)
    ensures e in Usables(ns) <==> exists n :: n in ns && Usable(n) && EntryOf(n) == e
  {
    if ns != [] {
      var last := ns[|ns| - 1];
      UsablesExactly(ns[..|ns| - 1], e);
      assert ns == ns[..|ns| - 1] + [last];
      assert forall n :: n in ns <==> n in ns[..|ns| - 1] || n == last;
    }
  }

  lemma {:induction false} MatchingExactly(es: seq<Entry>, req: Request, e: Entry)
    ensures e in Matching(es, req) <==> e in es && Matches(req, e)
  {
    if es != [] {
      MatchingExactly(es[..|es| - 1], req, e);
      assert es == es[..|es| - 1] + [es[|es| - 1]];
    }
  }

  // ---- What a request is to be told --------------------------------------------------------

  const ZERO4: Address := [0, 0, 0, 0]
  const ZERO16: Address := [0, 0, 0, 0, 0, 0, 0, 0, 0, 0, 0, 0, 0, 0, 0, 0]
  const MAPPED_ZERO: Address := [0, 0, 0, 0, 0, 0, 0, 0, 0, 0, 255, 255, 0, 0, 0, 0]

  /**
   * The kernel's entry answers the request: it is on the device asked for, has the hardware address
   * asked for, was confirmed reachable and is not stale, and its address is one.
   */
  predicate Answers(n: Neighbor, req: Request) {
    && n.device == Some(req.iface) && n.lladdr == req.hwaddr
    && n.state & 0x02 != 0 && n.state & 0x04 == 0
    && n.addr != ZERO4 && n.addr != ZERO16 && n.addr != MAPPED_ZERO
  }

  lemma UnspecifiedWritten(a: Address)
    ensures IsUnspecified(a) <==> a == ZERO4 || a == ZERO16 || a == MAPPED_ZERO
  {
    if |a| == 16 && AllZero(a[..10]) && a[10] == 255 && a[11] == 255 && AllZero(a[12..]) {
      assert forall i :: 0 <= i < 10 ==> a[i] == a[..10][i];
      assert forall i :: 12 <= i < 16 ==> a[i] == a[12..][i - 12];
      assert a == MAPPED_ZERO;
    }
  }

  lemma BitsWritten(state: bv16)
    ensures state & NUD_REACHABLE == NUD_REACHABLE <==> state & 0x02 != 0
    ensures state & NUD_STALE != NUD_STALE <==> state & 0x04 == 0
  {
  }

  lemma AnswersWritten(n: Neighbor, req: Request)
    ensures Answers(n, req) <==> Usable(n) && Matches(req, EntryOf(n))
  {
    UnspecifiedWritten(n.addr);
    BitsWritten(n.state);
  }

  /** What is found among the entries loaded from the kernel's table are the addresses of its answers. */
  lemma FoundAnswers(ns: seq<Neighbor>, req: Request, a: Address)
    ensures (exists e :: e in Matching(Usables(ns), req) && e.addr == a) <==>
            (exists n :: n in ns && Answers(n, req) && n.addr == a)
  {
    if e :| e in Matching(Usables(ns), req) && e.addr == a {
      MatchingExactly(Usables(ns), req, e);
      UsablesExactly(ns, e);
      var n :| n in ns && Usable(n) && EntryOf(n) == e;
      AnswersWritten(n, req);
    }
    if n :| n in ns && Answers(n, req) && n.addr == a {
      AnswersWritten(n, req);
      UsablesExactly(ns, EntryOf(n));
      MatchingExactly(Usables(ns), req, EntryOf(n));
    }
  }

  // ---- Shared state ------------------------------------------------------------------------

  /** One generation of the poller: its context and its completion channel. */
  datatype Generation = Generation(cancelled: bool, doneClosed: bool)

  /**
   * The mutex-guarded fields. The current polling context, cancel function and completion
   * channel are those of the last generation; there are none before the first. Notification
   * channel number n is closed exactly when n < notified.
   */
  datatype Shared = Shared(
    activeReqs: nat,
    entries: seq<Entry>,
    polling: bool,
    generations: seq<Generation>,
    notified: nat)

  const Fresh := Shared(0, [], false, [], 0)

  // activeReqs is an unsigned 64-bit counter.
  const UINT: nat := 0x1_0000_0000_0000_0000

  function Started(s: Shared): Shared {
    s.(activeReqs := (s.activeReqs + 1) % UINT)
  }

  function Cancelled(s: Shared): Shared
    requires s.generations != []
  {
    var cur := |s.generations| - 1;
    s.(generations := s.generations[cur := s.generations[cur].(cancelled := true)])
  }

  function Decremented(n: nat): nat {
    if n == 0 then UINT - 1 else n - 1
  }

  function Completed(s: Shared): Shared {
    var s' := s.(activeReqs := Decremented(s.activeReqs));
    if s'.activeReqs == 0 && s'.generations != [] then Cancelled(s'.(polling := false)) else s'
  }

  function PollingBegun(s: Shared): Shared {
    s.(generations := s.generations + [Generation(false, false)], polling := true)
  }

  function Notified(s: Shared): Shared {
    s.(notified := s.notified + 1)
  }

  /** A failing neighbour query leaves the entries alone. */
  function Loaded(s: Shared, answer: Option<seq<Neighbor>>): Shared {
    if answer.None? then s else s.(entries := Usables(answer.value))
  }

  function Cleared(s: Shared): Shared {
    s.(entries := [])
  }

  function DoneClosed(s: Shared): Shared
    requires s.generations != []
  {
    var cur := |s.generations| - 1;
    s.(generations := s.generations[cur := s.generations[cur].(doneClosed := true)])
  }

  /** The fields in place; every method is one critical section of the source. */
  class Arper {
    var activeReqs: nat
    var entries: seq<Entry>
    var polling: bool
    var generations: seq<Generation>
    var notified: nat

    function State(): Shared
      reads this
    {
      Shared(activeReqs, entries, polling, generations, notified)
    }

    constructor ()
      ensures State() == Fresh
    {
      activeReqs, entries, polling, generations, notified := 0, [], false, [], 0;
    }

    /** What other goroutines leave the fields as. */
    method Become(s: Shared)
      modifies this
      ensures State() == s
    {
      activeReqs, entries, polling, generations, notified :=
        s.activeReqs, s.entries, s.polling, s.generations, s.notified;
    }

    method RequestStarted()
      modifies this`activeReqs
      ensures State() == Started(old(State()))
    {
      activeReqs := (activeReqs + 1) % UINT;
    }

    method RequestComplete()
      modifies this
      ensures State() == Completed(old(State()))
    {
      activeReqs := if activeReqs == 0 then UINT - 1 else activeReqs - 1;
      if activeReqs == 0 && generations != [] {
        polling := false;
        CancelPolling();
      }
    }

    method CancelPolling()
      requires generations != []
      modifies this`generations
      ensures State() == Cancelled(old(State()))
    {
      var cur := |generations| - 1;
      generations := generations[cur := generations[cur].(cancelled := true)];
    }

    method CloseDone()
      requires generations != []
      modifies this`generations
      ensures State() == DoneClosed(old(State()))
    {
      var cur := |generations| - 1;
      generations := generations[cur := generations[cur].(doneClosed := true)];
    }

    /**
     * The part of addRequest that may start a poller. It has to wait first while the poller
     * before is still cleaning up; giving up on that wait is an error and changes nothing.
     */
    method EnsurePolling(parentDone: bool) returns (wait: bool, err: bool)
      modifies this`generations, this`polling
      ensures wait <==> !old(polling) && old(generations) != [] && !old(generations)[|old(generations)| - 1].doneClosed
      ensures err <==> wait && parentDone
      ensures State() == if old(polling) || wait then old(State()) else PollingBegun(old(State()))
    {
      wait, err := false, false;
      if !polling {
        if generations != [] && !generations[|generations| - 1].doneClosed {
          return true, parentDone;
        }
        generations := generations + [Generation(false, false)];
        polling := true;
      }
    }

    method NotifyRequests()
      modifies this`notified
      ensures State() == Notified(old(State()))
    {
      notified := notified + 1;
    }

    method ClearEntries()
      modifies this`entries
      ensures State() == Cleared(old(State()))
    {
      entries := [];
    }

    method LoadARPs(answer: Option<seq<Neighbor>>)
      modifies this`entries
      ensures State() == Loaded(old(State()), answer)
    {
      if answer.None? {
        return;
      }
      var neighbors := answer.value;
      var results: seq<Entry> := [];
      for i := 0 to |neighbors|
        invariant results == Usables(neighbors[..i])
      {
        assert neighbors[..i + 1] == neighbors[..i] + [neighbors[i]];
        var n := neighbors[i];
        if n.device.None? {
          continue;
        }
        if n.state & NUD_REACHABLE != NUD_REACHABLE {
          continue;
        }
        if n.state & NUD_STALE == NUD_STALE {
          continue;
        }
        results := results + [EntryOf(n)];
      }
      assert neighbors[..|neighbors|] == neighbors;
      entries := results;
    }

    method Find(req: Request) returns (found: seq<Entry>)
      ensures found == Matching(entries, req)
    {
      found := [];
      for i := 0 to |entries|
        invariant found == Matching(entries[..i], req)
      {
        assert entries[..i + 1] == entries[..i] + [entries[i]];
        if Matches(req, entries[i]) {
          found := found + [entries[i]];
        }
      }
      assert entries[..|entries|] == entries;
    }
  }
}
