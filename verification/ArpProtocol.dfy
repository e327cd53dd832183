/**
 * The discovery protocol as an interleaving of its goroutines: callers of addRequest, one
 * poller per generation, one handler per request (net/arp/arper_linux.go).
 *
 * A step is one critical section, one select, or one channel operation. Next gives the state
 * after a step, or None when the goroutine cannot take that step now. Pollers and handlers
 * read the polling context, cancel function and completion channel from the shared fields at
 * the moment of use, as the code does; that they then hold their own is proved below.
 */
module ArpProtocol {
  import opened Wrappers
  import opened ArpTable

  datatype PollPhase = Loading | Notifying | Selecting | Cancelling | Clearing | Closing | Finished

  /**
   * Where a handler is. Spawned handlers have not run yet. Sending and Waiting hold the
   * channels their select captured: the polling generation and the notification number.
   */
  datatype HandlerPhase =
    | Spawned
    | Finding
    | Scanning(pending: seq<Entry>)
    | Sending(addr: Address, rest: seq<Entry>, generation: nat)
    | Waiting(notification: nat, generation: nat)
    | Leaving
    | Completing
    | Closed

  datatype Handler = Handler(
    req: Request,
    ctxDone: bool,
    phase: HandlerPhase,
    seen: set<Address>,
    delivered: seq<Address>,
    found: set<Address>, // the addresses of all matches in all snapshots found so far
    closes: nat)

  /** addRequest blocked on an old poller's completion, holding the request mutex. */
  datatype Lock = Free | AddWaiting(req: Request)

  datatype State = State(
    shared: Shared,
    pollers: seq<PollPhase>,
    handlers: seq<Handler>,
    lock: Lock,
    parentDone: bool,
    observed: set<Neighbor>, // every table entry ever loaded
    panicked: bool)

  const Init := State(Fresh, [], [], Free, false, {}, false)

  datatype Action =
    | Add(req: Request)
    | AddProceed
    | AddGiveUp
    | CancelParent
    | CancelRequest(h: nat)
    | Handle(h: nat, move: Move)
    | Poll(g: nat, turn: Turn)

  datatype Move = Start | Find | Take | Deliver | Await | Wake | QuitRequest | QuitPolling | Complete | CloseChannel

  datatype Turn = Load(answer: Option<seq<Neighbor>>) | Notify | Tick | Stop | Cancel | Clear | CloseDone

  // ---- Steps -------------------------------------------------------------------------------

  function Current(s: State): int {
    |s.shared.generations| - 1
  }

  predicate ContextDone(s: State, g: int) {
    s.parentDone || (0 <= g < |s.shared.generations| && s.shared.generations[g].cancelled)
  }

  function NewHandler(req: Request): Handler {
    Handler(req, false, Spawned, {}, [], {}, 0)
  }

  function Spawn(s: State, req: Request): State {
    s.(handlers := s.handlers + [NewHandler(req)])
  }

  function BeginPolling(s: State): State {
    s.(shared := PollingBegun(s.shared), pollers := s.pollers + [Loading])
  }

  function Next(s: State, a: Action): Option<State> {
    match a
    case Add(req) =>
      if s.lock != Free then None
      else if s.shared.polling then Some(Spawn(s, req))
      else if s.shared.generations == [] then Some(Spawn(BeginPolling(s), req))
      else Some(s.(lock := AddWaiting(req)))
    case AddProceed =>
      if s.lock.AddWaiting? && Current(s) >= 0 && s.shared.generations[Current(s)].doneClosed
      then Some(Spawn(BeginPolling(s), s.lock.req).(lock := Free)) else None
    case AddGiveUp =>
      if s.lock.AddWaiting? && s.parentDone then Some(s.(lock := Free)) else None
    case CancelParent => Some(s.(parentDone := true))
    case CancelRequest(h) =>
      if h < |s.handlers| then Some(SetHandler(s, h, s.handlers[h].(ctxDone := true))) else None
    case Handle(h, move) => if h < |s.handlers| then HandlerStep(s, h, move) else None
    case Poll(g, turn) => if g < |s.pollers| then PollerStep(s, g, turn) else None
  }

  function SetHandler(s: State, h: nat, x: Handler): State
    requires h < |s.handlers|
  {
    s.(handlers := s.handlers[h := x])
  }

  function SetPhase(s: State, h: nat, phase: HandlerPhase): State
    requires h < |s.handlers|
  {
    SetHandler(s, h, s.handlers[h].(phase := phase))
  }

  function AddressesOf(es: seq<Entry>): set<Address> {
    set e | e in es :: e.addr
  }

  function HandlerStep(s: State, h: nat, move: Move): Option<State>
    requires h < |s.handlers|
  {
    var x := s.handlers[h];
    match (move, x.phase)
    case (Start, Spawned) =>
      if s.lock != Free then None else Some(SetPhase(s, h, Finding).(shared := Started(s.shared)))
    case (Find, Finding) =>
      var matches := Matching(s.shared.entries, x.req);
      Some(SetHandler(s, h, x.(phase := Scanning(matches), found := x.found + AddressesOf(matches))))
    case (Take, Scanning(pending)) =>
      if pending == [] then None
      else if pending[0].addr in x.seen then Some(SetPhase(s, h, Scanning(pending[1..])))
      else if Current(s) < 0 then Some(s.(panicked := true))
      else Some(SetHandler(s, h, x.(seen := x.seen + {pending[0].addr},
                                    phase := Sending(pending[0].addr, pending[1..], Current(s)))))
    case (Deliver, Sending(addr, rest, g)) =>
      Some(SetHandler(s, h, x.(delivered := x.delivered + [addr], phase := Scanning(rest))))
    case (Await, Scanning(pending)) =>
      if pending != [] then None
      else if Current(s) < 0 then Some(s.(panicked := true))
      else Some(SetPhase(s, h, Waiting(s.shared.notified, Current(s))))
    case (Wake, Waiting(n, g)) =>
      if n < s.shared.notified then Some(SetPhase(s, h, Finding)) else None
    case (QuitRequest, Sending(_, _, _)) => if x.ctxDone then Some(SetPhase(s, h, Leaving)) else None
    case (QuitRequest, Waiting(_, _)) => if x.ctxDone then Some(SetPhase(s, h, Leaving)) else None
    case (QuitPolling, Sending(_, _, g)) => if ContextDone(s, g) then Some(SetPhase(s, h, Leaving)) else None
    case (QuitPolling, Waiting(_, g)) => if ContextDone(s, g) then Some(SetPhase(s, h, Leaving)) else None
    case (Complete, Leaving) =>
      if s.lock != Free then None else Some(SetPhase(s, h, Completing).(shared := Completed(s.shared)))
    case (CloseChannel, Completing) =>
      Some(SetHandler(s, h, x.(phase := Closed, closes := x.closes + 1)).(panicked := s.panicked || x.closes > 0))
    case _ => None
  }

  function SetPoller(s: State, g: nat, phase: PollPhase): State
    requires g < |s.pollers|
  {
    s.(pollers := s.pollers[g := phase])
  }

  function PollerStep(s: State, g: nat, turn: Turn): Option<State>
    requires g < |s.pollers|
  {
    var cur := Current(s);
    match (turn, s.pollers[g])
    case (Load(answer), Loading) =>
      Some(SetPoller(s, g, Notifying).(shared := Loaded(s.shared, answer),
                                       observed := s.observed + if answer.Some? then set n | n in answer.value else {}))
    case (Notify, Notifying) => Some(SetPoller(s, g, Selecting).(shared := Notified(s.shared)))
    case (Tick, Selecting) => Some(SetPoller(s, g, Loading))
    case (Stop, Selecting) => if ContextDone(s, cur) then Some(SetPoller(s, g, Cancelling)) else None
    case (Cancel, Cancelling) =>
      if cur < 0 then Some(s.(panicked := true)) else Some(SetPoller(s, g, Clearing).(shared := Cancelled(s.shared)))
    case (Clear, Clearing) => Some(SetPoller(s, g, Closing).(shared := Cleared(s.shared)))
    case (CloseDone, Closing) =>
      if cur < 0 || s.shared.generations[cur].doneClosed then Some(s.(panicked := true))
      else Some(SetPoller(s, g, Finished).(shared := DoneClosed(s.shared)))
    case _ => None
  }

  function Run(s: State, actions: seq<Action>): Option<State>
    decreases |actions|
  {
    if actions == [] then Some(s)
    else match Next(s, actions[0]) case None => None case Some(t) => Run(t, actions[1..])
  }

  ghost predicate Reachable(s: State) {
    exists actions :: Run(Init, actions) == Some(s)
  }

  // ---- Generations -------------------------------------------------------------------------

  predicate IsFinished(pollers: seq<PollPhase>, gens: seq<Generation>, g: int) {
    0 <= g < |pollers| && g < |gens| && pollers[g].Finished? && gens[g].doneClosed && gens[g].cancelled
  }

  /** Only the last generation can still be running, and the flags say how far its poller got. */
  ghost predicate GenerationsOk(s: State) {
    && |s.pollers| == |s.shared.generations|
    && (forall g :: 0 <= g < Current(s) ==> IsFinished(s.pollers, s.shared.generations, g))
    && (Current(s) >= 0 ==>
          var last, gen := s.pollers[Current(s)], s.shared.generations[Current(s)];
          && (gen.doneClosed <==> last.Finished?)
          && (last in {Clearing, Closing, Finished} ==> gen.cancelled)
          && (!s.shared.polling ==> gen.cancelled)
          && (s.shared.polling && !s.parentDone ==> !gen.cancelled && last in {Loading, Notifying, Selecting}))
    && (s.shared.polling || s.lock.AddWaiting? || s.handlers != [] ==> Current(s) >= 0)
    && (s.lock.AddWaiting? ==> !s.shared.polling)
  }

  lemma StepKeepsGenerations(s: State, a: Action, t: State)
    requires GenerationsOk(s) && Next(s, a) == Some(t)
    ensures GenerationsOk(t)
  {
    match a
    case AddProceed => BeginKeepsGenerations(s);
    case Handle(h, move) =>
      HandlerFrame(s, h, move, t);
      if move.Complete? {
        CompleteKeepsGenerations(s, h);
      }
    case Poll(g, turn) => PollerKeepsGenerations(s, g, turn, t);
    case _ =>
  }

  /** A handler's step touches its own record and, when it starts or completes, the shared counter. */
  lemma HandlerFrame(s: State, h: nat, move: Move, t: State)
    requires h < |s.handlers| && HandlerStep(s, h, move) == Some(t)
    ensures t.pollers == s.pollers && t.lock == s.lock && t.parentDone == s.parentDone && t.observed == s.observed
    ensures |t.handlers| == |s.handlers| && t.handlers == s.handlers[h := t.handlers[h]]
    ensures t.handlers[h].req == s.handlers[h].req && t.handlers[h].ctxDone == s.handlers[h].ctxDone
    ensures t.shared == match move
                        case Start => Started(s.shared)
                        case Complete => Completed(s.shared)
                        case _ => s.shared
  {
  }

  lemma BeginKeepsGenerations(s: State)
    requires GenerationsOk(s) && !s.shared.polling && Current(s) >= 0
    requires s.shared.generations[Current(s)].doneClosed
    ensures forall req :: GenerationsOk(Spawn(BeginPolling(s), req).(lock := Free))
  {
    var t := BeginPolling(s);
    forall g | 0 <= g < Current(t) ensures IsFinished(t.pollers, t.shared.generations, g) {
      assert g < Current(s) ==> IsFinished(s.pollers, s.shared.generations, g);
    }
  }

  lemma CompleteKeepsGenerations(s: State, h: nat)
    requires GenerationsOk(s) && h < |s.handlers|
    ensures GenerationsOk(SetPhase(s, h, Completing).(shared := Completed(s.shared)))
  {
    var t := SetPhase(s, h, Completing).(shared := Completed(s.shared));
    forall g | 0 <= g < Current(t) ensures IsFinished(t.pollers, t.shared.generations, g) {
      assert IsFinished(s.pollers, s.shared.generations, g);
    }
  }

  /** A poller that still has a step to take is the current one, so what it reads is its own. */
  lemma PollerKeepsGenerations(s: State, g: nat, turn: Turn, t: State)
    requires GenerationsOk(s) && g < |s.pollers| && PollerStep(s, g, turn) == Some(t)
    ensures g == Current(s)
    ensures GenerationsOk(t)
    ensures t.panicked == s.panicked
  {
    assert g < Current(s) ==> IsFinished(s.pollers, s.shared.generations, g);
    forall k | 0 <= k < Current(t) ensures IsFinished(t.pollers, t.shared.generations, k) {
      assert IsFinished(s.pollers, s.shared.generations, k);
    }
  }

  // ---- Counting ----------------------------------------------------------------------------

  /** Between requestStarted and requestComplete. */
  predicate IsActive(x: Handler) {
    !x.phase.Spawned? && !x.phase.Completing? && !x.phase.Closed?
  }

  /** Past requestComplete. */
  predicate IsOver(x: Handler) {
    x.phase.Completing? || x.phase.Closed?
  }

  function Active(hs: seq<Handler>): nat {
    if hs == [] then 0 else Active(hs[..|hs| - 1]) + if IsActive(hs[|hs| - 1]) then 1 else 0
  }

  lemma {:induction false} ActiveAfterUpdate(hs: seq<Handler>, h: nat, x: Handler)
    requires h < |hs|
    ensures Active(hs[h := x]) == Active(hs) + (if IsActive(x) then 1 else 0) - (if IsActive(hs[h]) then 1 else 0)
  {
    var last := |hs| - 1;
    if h == last {
      assert hs[h := x][..last] == hs[..last];
    } else {
      ActiveAfterUpdate(hs[..last], h, x);
      assert hs[h := x][..last] == hs[..last][h := x];
    }
  }

  lemma {:induction false} SomeActive(hs: seq<Handler>)
    ensures Active(hs) <= |hs|
    ensures Active(hs) > 0 <==> exists h :: 0 <= h < |hs| && IsActive(hs[h])
  {
    if hs != [] {
      SomeActive(hs[..|hs| - 1]);
      assert forall h :: 0 <= h < |hs| - 1 ==> hs[..|hs| - 1][h] == hs[h];
    }
  }

  /**
   * activeReqs counts the active handlers as far as 64 bits go, and while a poller is wanted
   * some spawned handler has yet to complete.
   */
  ghost predicate CountsOk(s: State) {
    && s.shared.activeReqs == Active(s.handlers) % UINT
    && (s.shared.polling ==> SomeStanding(s.handlers))
  }

  ghost predicate SomeStanding(hs: seq<Handler>) {
    exists h :: 0 <= h < |hs| && !IsOver(hs[h])
  }

  lemma StepKeepsCounts(s: State, a: Action, t: State)
    requires GenerationsOk(s) && CountsOk(s) && Next(s, a) == Some(t)
    ensures CountsOk(t)
  {
    match a
    case Handle(h, move) => HandlerKeepsCounts(s, h, move, t);
    case CancelRequest(h) =>
      ActiveAfterUpdate(s.handlers, h, t.handlers[h]);
      StandingAfterUpdate(s.handlers, h, t.handlers[h]);
    case Add(req) => SpawnedStands(s.handlers, NewHandler(req));
    case AddProceed => SpawnedStands(s.handlers, NewHandler(s.lock.req));
    case Poll(g, turn) => PollerFrame(s, g, turn, t);
    case _ =>
  }

  /** A poller's step leaves the handlers, the count and the flag alone. */
  lemma PollerFrame(s: State, g: nat, turn: Turn, t: State)
    requires g < |s.pollers| && PollerStep(s, g, turn) == Some(t)
    ensures t.handlers == s.handlers && t.lock == s.lock && t.parentDone == s.parentDone
    ensures t.shared.activeReqs == s.shared.activeReqs && t.shared.polling == s.shared.polling
  {
  }

  lemma SpawnedStands(hs: seq<Handler>, x: Handler)
    requires x.phase.Spawned?
    ensures Active(hs + [x]) == Active(hs) && SomeStanding(hs + [x])
  {
    var all := hs + [x];
    assert all[..|hs|] == hs;
    assert !IsOver(all[|hs|]);
  }

  lemma StandingAfterUpdate(hs: seq<Handler>, h: nat, x: Handler)
    requires h < |hs|
    ensures SomeStanding(hs) && (!IsOver(x) || IsOver(hs[h])) ==> SomeStanding(hs[h := x])
  {
    if k :| 0 <= k < |hs| && !IsOver(hs[k]) {
      assert k != h ==> !IsOver(hs[h := x][k]);
      assert !IsOver(x) ==> !IsOver(hs[h := x][h]);
    }
  }

  lemma HandlerKeepsCounts(s: State, h: nat, move: Move, t: State)
    requires GenerationsOk(s) && CountsOk(s) && h < |s.handlers| && HandlerStep(s, h, move) == Some(t)
    ensures CountsOk(t)
  {
    HandlerFrame(s, h, move, t);
    HandlerPhases(s, h, move, t);
    var x := t.handlers[h];
    ActiveAfterUpdate(s.handlers, h, x);
    StandingAfterUpdate(s.handlers, h, x);
    SomeActive(t.handlers);
    if move.Complete? {
      CompletedCounts(s, Active(t.handlers));
      ActiveStands(t.handlers);
    } else {
      Wrapping(Active(s.handlers));
    }
  }

  lemma ActiveStands(hs: seq<Handler>)
    ensures Active(hs) > 0 ==> SomeStanding(hs)
  {
    SomeActive(hs);
    if k :| 0 <= k < |hs| && IsActive(hs[k]) {
      assert !IsOver(hs[k]);
    }
  }

  /** Polling is still wanted after requestComplete only if active requests remain. */
  lemma CompletedCounts(s: State, left: nat)
    requires s.shared.activeReqs == (left + 1) % UINT && (s.shared.polling ==> s.shared.generations != [])
    ensures Completed(s.shared).activeReqs == left % UINT
    ensures Completed(s.shared).polling ==> left > 0
  {
    Wrapping(left + 1);
  }

  /** Starting makes a handler active, completing ends that, and nothing in between changes it. */
  lemma HandlerPhases(s: State, h: nat, move: Move, t: State)
    requires h < |s.handlers| && HandlerStep(s, h, move) == Some(t)
    ensures h < |t.handlers|
    ensures move.Start? ==> !IsActive(s.handlers[h]) && !IsOver(s.handlers[h]) && IsActive(t.handlers[h])
    ensures move.Complete? ==> IsActive(s.handlers[h]) && !IsActive(t.handlers[h])
    ensures !move.Start? && !move.Complete? ==>
              IsActive(t.handlers[h]) == IsActive(s.handlers[h]) && IsOver(t.handlers[h]) == IsOver(s.handlers[h])
  {
  }

  /** The counter's arithmetic agrees with counting modulo its width. */
  lemma Wrapping(n: nat)
    ensures (n % UINT + 1) % UINT == (n + 1) % UINT
    ensures n > 0 ==> Decremented(n % UINT) == (n - 1) % UINT
  {
  }

  // ---- Deliveries --------------------------------------------------------------------------

  function Elements(xs: seq<Address>): set<Address> {
    set x | x in xs
  }

  /** The address is that of an entry that answers the request. */
  ghost predicate Sourced(observed: set<Neighbor>, req: Request, a: Address) {
    exists n :: n in observed && Answers(n, req) && n.addr == a
  }

  ghost predicate EntriesSourced(s: State) {
    forall e :: e in s.shared.entries ==> exists n :: n in s.observed && Usable(n) && EntryOf(n) == e
  }

  /** What a handler has seen, sent and found, phase by phase. */
  ghost predicate HandlerOk(observed: set<Neighbor>, generations: nat, notified: nat, x: Handler) {
    && AllDifferent(x.delivered)
    && Elements(x.delivered) <= x.seen <= x.found
    && (forall a :: a in x.found ==> Sourced(observed, x.req, a))
    && x.closes == (if x.phase.Closed? then 1 else 0)
    && match x.phase {
         case Spawned => x.found == {} && x.delivered == []
         case Finding => Elements(x.delivered) == x.seen == x.found
         case Scanning(pending) => Elements(x.delivered) == x.seen && x.found == x.seen + AddressesOf(pending)
         case Sending(a, rest, g) =>
           && g < generations && a !in x.delivered
           && x.seen == Elements(x.delivered) + {a} && x.found == x.seen + AddressesOf(rest)
         case Waiting(n, g) => n <= notified && g < generations && Elements(x.delivered) == x.seen == x.found
         case _ => true
       }
  }

  ghost predicate HandlersOk(s: State) {
    && EntriesSourced(s)
    && forall h :: 0 <= h < |s.handlers| ==> HandlerOk(s.observed, |s.shared.generations|, s.shared.notified,
                                                       s.handlers[h])
  }

  lemma HandlerOkMonotone(o: set<Neighbor>, g: nat, n: nat, o': set<Neighbor>, g': nat, n': nat, x: Handler)
    requires HandlerOk(o, g, n, x) && o <= o' && g <= g' && n <= n'
    ensures HandlerOk(o', g', n', x)
  {
    forall a | a in x.found ensures Sourced(o', x.req, a) {
      assert Sourced(o, x.req, a);
    }
  }

  lemma StepKeepsHandlers(s: State, a: Action, t: State)
    requires GenerationsOk(s) && HandlersOk(s) && Next(s, a) == Some(t)
    ensures HandlersOk(t)
    ensures s.panicked == t.panicked
  {
    match a
    case Add(req) => SpawnKeepsHandlers(s, t);
    case AddProceed => SpawnKeepsHandlers(s, t);
    case CancelRequest(h) => UpdateKeepsHandlers(s, h, t);
    case Handle(h, move) =>
      HandlerFrame(s, h, move, t);
      HandlerKeepsOk(s, h, move, t);
      UpdateKeepsHandlers(s, h, t);
    case Poll(g, turn) => PollerKeepsHandlers(s, g, turn, t);
    case _ =>
  }

  lemma SpawnKeepsHandlers(s: State, t: State)
    requires HandlersOk(s) && t.observed == s.observed && t.shared.entries == s.shared.entries
    requires t.shared.notified == s.shared.notified && |s.shared.generations| <= |t.shared.generations|
    requires t.handlers == s.handlers || exists req :: t.handlers == s.handlers + [NewHandler(req)]
    ensures HandlersOk(t)
  {
    OthersKeepOk(s, t.shared.notified, t.observed, |t.shared.generations|);
  }

  lemma UpdateKeepsHandlers(s: State, h: nat, t: State)
    requires HandlersOk(s) && t.observed == s.observed && t.shared.entries == s.shared.entries
    requires t.shared.notified == s.shared.notified && |s.shared.generations| == |t.shared.generations|
    requires h < |s.handlers| == |t.handlers| && t.handlers == s.handlers[h := t.handlers[h]]
    requires HandlerOk(s.observed, |s.shared.generations|, s.shared.notified, s.handlers[h]) ==>
               HandlerOk(s.observed, |s.shared.generations|, s.shared.notified, t.handlers[h])
    ensures HandlersOk(t)
  {
  }

  lemma OthersKeepOk(s: State, notified: nat, observed: set<Neighbor>, generations: nat)
    requires HandlersOk(s) && s.shared.notified <= notified && s.observed <= observed
    requires |s.shared.generations| <= generations
    ensures forall h :: 0 <= h < |s.handlers| ==> HandlerOk(observed, generations, notified, s.handlers[h])
  {
    forall h | 0 <= h < |s.handlers| ensures HandlerOk(observed, generations, notified, s.handlers[h]) {
      HandlerOkMonotone(s.observed, |s.shared.generations|, s.shared.notified, observed, generations, notified,
                        s.handlers[h]);
    }
  }

  lemma PollerKeepsHandlers(s: State, g: nat, turn: Turn, t: State)
    requires GenerationsOk(s) && HandlersOk(s) && g < |s.pollers| && PollerStep(s, g, turn) == Some(t)
    ensures HandlersOk(t) && t.panicked == s.panicked
  {
    PollerKeepsGenerations(s, g, turn, t);
    OthersKeepOk(s, t.shared.notified, t.observed, |t.shared.generations|);
    forall e | e in t.shared.entries ensures exists n :: n in t.observed && Usable(n) && EntryOf(n) == e {
      if turn.Load? && turn.answer.Some? {
        UsablesExactly(turn.answer.value, e);
      } else {
        var n :| n in s.observed && Usable(n) && EntryOf(n) == e;
        assert n in t.observed;
      }
    }
  }

  lemma HandlerKeepsOk(s: State, h: nat, move: Move, t: State)
    requires GenerationsOk(s) && HandlersOk(s) && h < |s.handlers| && HandlerStep(s, h, move) == Some(t)
    ensures |t.handlers| == |s.handlers|
    ensures HandlerOk(s.observed, |s.shared.generations|, t.shared.notified, t.handlers[h])
    ensures t.panicked == s.panicked
  {
    var x := s.handlers[h];
    assert HandlerOk(s.observed, |s.shared.generations|, s.shared.notified, x);
    match move
    case Find => FindKeepsOk(s, h, t);
    case Take => TakeKeepsOk(s, h, t);
    case Deliver => assert Elements(x.delivered + [x.phase.addr]) == Elements(x.delivered) + {x.phase.addr};
    case _ =>
  }

  lemma FindKeepsOk(s: State, h: nat, t: State)
    requires HandlersOk(s) && h < |s.handlers| && HandlerStep(s, h, Find) == Some(t)
    ensures HandlerOk(s.observed, |s.shared.generations|, s.shared.notified, t.handlers[h]) && t.panicked == s.panicked
  {
    var x := s.handlers[h];
    assert HandlerOk(s.observed, |s.shared.generations|, s.shared.notified, x);
    var matches := Matching(s.shared.entries, x.req);
    forall a | a in AddressesOf(matches) ensures Sourced(s.observed, x.req, a) {
      var e :| e in matches && e.addr == a;
      MatchingExactly(s.shared.entries, x.req, e);
      var n :| n in s.observed && Usable(n) && EntryOf(n) == e;
      AnswersWritten(n, x.req);
    }
  }

  lemma TakeKeepsOk(s: State, h: nat, t: State)
    requires Current(s) >= 0 && h < |s.handlers| && HandlerStep(s, h, Take) == Some(t)
    requires HandlerOk(s.observed, |s.shared.generations|, s.shared.notified, s.handlers[h])
    ensures HandlerOk(s.observed, |s.shared.generations|, s.shared.notified, t.handlers[h]) && t.panicked == s.panicked
  {
    var x, y := s.handlers[h], t.handlers[h];
    var pending := x.phase.pending;
    AddressesSplit(pending);
    assert pending[0].addr in x.found;
    if pending[0].addr in x.seen {
      assert y == x.(phase := Scanning(pending[1..]));
    } else {
      assert y == x.(seen := x.seen + {pending[0].addr}, phase := Sending(pending[0].addr, pending[1..], Current(s)));
      assert pending[0].addr !in x.delivered by {
        assert pending[0].addr !in Elements(x.delivered);
      }
    }
  }

  lemma AddressesSplit(es: seq<Entry>)
    ensures es != [] ==> AddressesOf(es) == {es[0].addr} + AddressesOf(es[1..])
  {
    assert es != [] ==> es == [es[0]] + es[1..];
  }

  // ---- Every run ---------------------------------------------------------------------------

  ghost predicate Inv(s: State) {
    GenerationsOk(s) && CountsOk(s) && HandlersOk(s) && !s.panicked
  }

  lemma {:induction false} RunKeepsInv(s: State, actions: seq<Action>, t: State)
    requires Inv(s) && Run(s, actions) == Some(t)
    ensures Inv(t)
    decreases |actions|
  {
    if actions != [] {
      var next := Next(s, actions[0]).value;
      StepKeepsGenerations(s, actions[0], next);
      StepKeepsCounts(s, actions[0], next);
      StepKeepsHandlers(s, actions[0], next);
      RunKeepsInv(next, actions[1..], t);
    }
  }

  lemma ReachableInv(s: State)
    requires Reachable(s)
    ensures Inv(s)
  {
    var actions :| Run(Init, actions) == Some(s);
    RunKeepsInv(Init, actions, s);
  }

  /**
   * At most one poller is alive, and it is the latest one: whatever it reads, cancels or closes
   * through the shared fields belongs to its own generation. No channel is closed twice and no
   * missing context is used.
   */
  lemma PollersOwnTheirGeneration(s: State, g: nat, turn: Turn, t: State)
    requires Reachable(s) && Next(s, Poll(g, turn)) == Some(t)
    ensures forall k :: 0 <= k < |s.pollers| && k != g ==> s.pollers[k].Finished?
    ensures g == Current(s) == Current(t)
    ensures forall k :: 0 <= k < g ==> t.shared.generations[k] == s.shared.generations[k]
    ensures turn.CloseDone? ==> !s.shared.generations[g].doneClosed && t.shared.generations[g].doneClosed
    ensures !t.panicked
  {
    ReachableInv(s);
    PollerKeepsGenerations(s, g, turn, t);
    forall k | 0 <= k < g ensures s.pollers[k].Finished? {
      assert IsFinished(s.pollers, s.shared.generations, k);
    }
  }

  lemma NeverPanics(s: State)
    requires Reachable(s)
    ensures !s.panicked
    ensures forall h :: 0 <= h < |s.handlers| ==> s.handlers[h].closes == if s.handlers[h].phase.Closed? then 1 else 0
  {
    ReachableInv(s);
    forall h | 0 <= h < |s.handlers| ensures s.handlers[h].closes == if s.handlers[h].phase.Closed? then 1 else 0 {
      assert HandlerOk(s.observed, |s.shared.generations|, s.shared.notified, s.handlers[h]);
    }
  }

  /**
   * With fewer than 2^64 requests in flight the counter is their number, so the decrement in
   * requestComplete never wraps. Polling implies that some spawned handler has not completed;
   * once there was a poller, not polling implies that its context is cancelled.
   */
  lemma CounterExact(s: State)
    requires Reachable(s) && Active(s.handlers) < UINT
    ensures s.shared.activeReqs == Active(s.handlers)
    ensures forall h :: 0 <= h < |s.handlers| && s.handlers[h].phase.Leaving? ==> s.shared.activeReqs > 0
    ensures s.shared.polling ==> SomeStanding(s.handlers)
    ensures Current(s) >= 0 && !s.shared.polling ==> s.shared.generations[Current(s)].cancelled
  {
    ReachableInv(s);
    SomeActive(s.handlers);
    forall h | 0 <= h < |s.handlers| && s.handlers[h].phase.Leaving? ensures s.shared.activeReqs > 0 {
      assert IsActive(s.handlers[h]);
    }
  }

  // ---- The wait in addRequest --------------------------------------------------------------

  function Rank(phase: PollPhase): nat {
    match phase
    case Loading => 6 case Notifying => 5 case Selecting => 4 case Cancelling => 3
    case Clearing => 2 case Closing => 1 case Finished => 0
  }

  function Onward(phase: PollPhase): Turn {
    match phase
    case Loading => Load(None) case Notifying => Notify case Selecting => Stop
    case Cancelling => Cancel case Clearing => Clear case _ => CloseDone
  }

  /**
   * While addRequest waits under the request mutex, the old poller can always take a step of
   * its own that brings it closer to closing the channel waited for; it never needs the mutex.
   */
  lemma WaitingPollerAdvances(s: State) returns (t: State)
    requires Inv(s) && s.lock.AddWaiting? && !s.shared.generations[Current(s)].doneClosed
    ensures Next(s, Poll(Current(s), Onward(s.pollers[Current(s)]))) == Some(t)
    ensures Inv(t) && t.lock == s.lock && Current(t) == Current(s)
    ensures Rank(t.pollers[Current(s)]) == Rank(s.pollers[Current(s)]) - 1
  {
    var a := Poll(Current(s), Onward(s.pollers[Current(s)]));
    t := Next(s, a).value;
    StepKeepsGenerations(s, a, t);
    StepKeepsCounts(s, a, t);
    StepKeepsHandlers(s, a, t);
  }

  /** So the wait cannot hang: at most six steps of that poller alone release it. */
  lemma {:induction false} WaitIsReleased(s: State) returns (actions: seq<Action>, t: State)
    requires Inv(s) && s.lock.AddWaiting?
    ensures |actions| <= 6 && forall i :: 0 <= i < |actions| ==> actions[i].Poll? && actions[i].g == Current(s)
    ensures Run(s, actions) == Some(t) && t.lock == s.lock && Next(t, AddProceed).Some?
    ensures |actions| == Rank(s.pollers[Current(s)])
    decreases Rank(s.pollers[Current(s)])
  {
    if s.shared.generations[Current(s)].doneClosed {
      return [], s;
    }
    var next := WaitingPollerAdvances(s);
    var a := Poll(Current(s), Onward(s.pollers[Current(s)]));
    var rest;
    rest, t := WaitIsReleased(next);
    actions := [a] + rest;
    assert actions[1..] == rest;
  }

  /** Nobody else can set that back: only the poller's own timer may start another round. */
  lemma WaitIsNotSetBack(s: State, a: Action, t: State)
    requires Inv(s) && s.lock.AddWaiting? && Next(s, a) == Some(t) && t.lock.AddWaiting?
    requires !(a.Poll? && a.turn.Tick?)
    ensures Current(t) == Current(s) && Rank(t.pollers[Current(s)]) <= Rank(s.pollers[Current(s)])
    ensures s.shared.generations[Current(s)].doneClosed ==> t.shared.generations[Current(s)].doneClosed
  {
    match a
    case Handle(h, move) => HandlerFrame(s, h, move, t);
    case Poll(g, turn) => PollerKeepsGenerations(s, g, turn, t);
    case _ =>
  }

  // ---- What requests receive ---------------------------------------------------------------

  /** Some query of the kernel's table in the run was answered with the entry. */
  ghost predicate Answered(actions: seq<Action>, n: Neighbor) {
    exists i ::
      && 0 <= i < |actions| && actions[i].Poll? && actions[i].turn.Load? && actions[i].turn.answer.Some?
      && n in actions[i].turn.answer.value
  }

  lemma {:induction false} ObservedWasAnswered(s: State, actions: seq<Action>, t: State, n: Neighbor)
    requires Run(s, actions) == Some(t) && n in t.observed
    ensures n in s.observed || Answered(actions, n)
    decreases |actions|
  {
    if actions != [] {
      var next := Next(s, actions[0]).value;
      ObservedWasAnswered(next, actions[1..], t, n);
      if n in next.observed {
        if n !in s.observed {
          LoadObserves(s, actions[0], next, n);
          assert Answered(actions, n);
        }
      } else {
        var i :| 0 <= i < |actions[1..]| && actions[1..][i].Poll? && actions[1..][i].turn.Load?
          && actions[1..][i].turn.answer.Some? && n in actions[1..][i].turn.answer.value;
        assert actions[i + 1] == actions[1..][i];
      }
    }
  }

  lemma LoadObserves(s: State, a: Action, t: State, n: Neighbor)
    requires Next(s, a) == Some(t) && n in t.observed && n !in s.observed
    ensures a.Poll? && a.turn.Load? && a.turn.answer.Some? && n in a.turn.answer.value
  {
    match a
    case Handle(h, move) => HandlerFrame(s, h, move, t);
    case _ =>
  }

  /**
   * Along every run, the addresses a request has received are pairwise different, and each is that
   * of an entry the kernel's table was answered to hold: reachable, not stale, with the request's
   * hardware address and device, and specified. A handler between passes has sent exactly the
   * matches of all the snapshots it found.
   */
  lemma DeliveriesExact(actions: seq<Action>, s: State, h: nat)
    requires Run(Init, actions) == Some(s) && h < |s.handlers|
    ensures var x := s.handlers[h];
            && AllDifferent(x.delivered)
            && (forall a :: a in x.delivered ==>
                  exists n :: Answered(actions, n) && Answers(n, x.req) && n.addr == a)
            && (x.phase.Finding? || x.phase.Waiting? ==> Elements(x.delivered) == x.found)
  {
    assert Reachable(s);
    ReachableInv(s);
    var x := s.handlers[h];
    assert HandlerOk(s.observed, |s.shared.generations|, s.shared.notified, x);
    forall a | a in x.delivered ensures exists n :: Answered(actions, n) && Answers(n, x.req) && n.addr == a {
      assert a in Elements(x.delivered);
      assert Sourced(s.observed, x.req, a);
      var n :| n in s.observed && Answers(n, x.req) && n.addr == a;
      ObservedWasAnswered(Init, actions, s, n);
    }
  }

  /** Neither an answered query nor the end of a poller: the snapshot stays. */
  predicate LeavesSnapshot(a: Action) {
    a.Poll? ==> !(a.turn.Load? && a.turn.answer.Some?) && !a.turn.Clear?
  }

  lemma {:induction false} SnapshotStays(s: State, actions: seq<Action>, t: State)
    requires Run(s, actions) == Some(t) && forall a :: a in actions ==> LeavesSnapshot(a)
    ensures t.shared.entries == s.shared.entries
    decreases |actions|
  {
    if actions != [] {
      var next := Next(s, actions[0]).value;
      assert actions[0] in actions;
      SnapshotStaysOnce(s, actions[0], next);
      SnapshotStays(next, actions[1..], t);
    }
  }

  lemma SnapshotStaysOnce(s: State, a: Action, t: State)
    requires Next(s, a) == Some(t) && LeavesSnapshot(a)
    ensures t.shared.entries == s.shared.entries
  {
    match a
    case Handle(h, move) => HandlerFrame(s, h, move, t);
    case _ =>
  }

  /** What a handler has found it does not forget, and it stays with its request. */
  lemma {:induction false} FoundGrows(s: State, actions: seq<Action>, t: State, h: nat)
    requires Run(s, actions) == Some(t) && h < |s.handlers|
    ensures h < |t.handlers| && t.handlers[h].req == s.handlers[h].req && s.handlers[h].found <= t.handlers[h].found
    decreases |actions|
  {
    if actions != [] {
      var next := Next(s, actions[0]).value;
      FoundGrowsOnce(s, actions[0], next, h);
      FoundGrows(next, actions[1..], t, h);
    }
  }

  lemma FoundGrowsOnce(s: State, a: Action, t: State, h: nat)
    requires Next(s, a) == Some(t) && h < |s.handlers|
    ensures h < |t.handlers| && t.handlers[h].req == s.handlers[h].req && s.handlers[h].found <= t.handlers[h].found
  {
    match a
    case Handle(k, move) => HandlerFrame(s, k, move, t);
    case _ =>
  }

  lemma AnswerIsMatched(ns: seq<Neighbor>, req: Request, n: Neighbor)
    requires n in ns && Answers(n, req)
    ensures n.addr in AddressesOf(Matching(Usables(ns), req))
  {
    FoundAnswers(ns, req, n.addr);
    var e :| e in Matching(Usables(ns), req) && e.addr == n.addr;
  }

  /** A handler that looks through the snapshot has found the matches in it. */
  lemma FindFinds(s: State, h: nat, t: State)
    requires h < |s.handlers| && Next(s, Handle(h, Find)) == Some(t)
    ensures h < |t.handlers| && t.handlers[h].req == s.handlers[h].req
    ensures t.handlers[h].found ==
            s.handlers[h].found + AddressesOf(Matching(s.shared.entries, s.handlers[h].req))
  {
  }

  /** Between passes all that was found has been delivered. */
  lemma FoundIsDelivered(s: State, h: nat, a: Address)
    requires Inv(s) && h < |s.handlers| && (s.handlers[h].phase.Waiting? || s.handlers[h].phase.Finding?)
    requires a in s.handlers[h].found
    ensures a in s.handlers[h].delivered
  {
    assert HandlerOk(s.observed, |s.shared.generations|, s.shared.notified, s.handlers[h]);
    assert a in Elements(s.handlers[h].delivered);
  }

  /**
   * Once a handler has looked through a snapshot and finished the pass, whatever happened in between,
   * every entry of the snapshot that answers its request has been delivered.
   */
  lemma SnapshotDelivered(s: State, g: nat, ns: seq<Neighbor>, t: State, before: seq<Action>, u: State, h: nat,
      v: State, after: seq<Action>, w: State)
    requires Reachable(s) && Next(s, Poll(g, Load(Some(ns)))) == Some(t)
    requires Run(t, before) == Some(u) && forall a :: a in before ==> LeavesSnapshot(a)
    requires h < |u.handlers| && Next(u, Handle(h, Find)) == Some(v) && Run(v, after) == Some(w)
    requires h < |w.handlers| && (w.handlers[h].phase.Waiting? || w.handlers[h].phase.Finding?)
    ensures forall n :: n in ns && Answers(n, w.handlers[h].req) ==> n.addr in w.handlers[h].delivered
  {
    ReachableInv(s);
    InvAfter(s, Poll(g, Load(Some(ns))), t, before, u);
    InvAfter(u, Handle(h, Find), v, after, w);
    SnapshotStays(t, before, u);
    LoadLoads(s, g, ns, t);
    FindFinds(u, h, v);
    FoundGrows(v, after, w, h);
    forall n | n in ns && Answers(n, w.handlers[h].req) ensures n.addr in w.handlers[h].delivered {
      AnswerIsMatched(ns, w.handlers[h].req, n);
      FoundIsDelivered(w, h, n.addr);
    }
  }

  lemma LoadLoads(s: State, g: nat, ns: seq<Neighbor>, t: State)
    requires Next(s, Poll(g, Load(Some(ns)))) == Some(t)
    ensures t.shared.entries == Usables(ns)
  {
  }

  lemma InvAfter(s: State, a: Action, t: State, actions: seq<Action>, u: State)
    requires Inv(s) && Next(s, a) == Some(t) && Run(t, actions) == Some(u)
    ensures Inv(u)
  {
    RunOne(s, a, t);
    RunKeepsInv(s, [a], t);
    RunKeepsInv(t, actions, u);
  }

  lemma RunOne(s: State, a: Action, t: State)
    requires Next(s, a) == Some(t)
    ensures Run(s, [a]) == Some(t)
  {
    assert [a][1..] == [];
    assert Run(t, []) == Some(t);
  }

  lemma {:induction false} TwoActive(hs: seq<Handler>, h: nat, k: nat)
    requires h < |hs| && k < |hs| && h != k && IsActive(hs[h]) && IsActive(hs[k])
    ensures Active(hs) >= 2
  {
    var x := hs[k].(phase := Closed);
    ActiveAfterUpdate(hs, k, x);
    SomeActive(hs[k := x]);
    assert IsActive(hs[k := x][h]);
  }

  /** A step that is not its completion leaves polling on for a request that is active. */
  lemma ActiveRequestKeepsPolling(s: State, a: Action, t: State, h: nat)
    requires Inv(s) && Next(s, a) == Some(t) && Active(s.handlers) < UINT
    requires h < |s.handlers| && IsActive(s.handlers[h]) && s.shared.polling
    requires a != Handle(h, Complete)
    ensures t.shared.polling
  {
    match a
    case Handle(k, Complete) =>
      assert k != h;
      TwoActive(s.handlers, h, k);
    case Handle(k, move) => HandlerFrame(s, k, move, t);
    case _ =>
  }

  // ---- Who is turned away ------------------------------------------------------------------

  /** The polling generation whose context a handler's select looks at, if it is in one. */
  function Captured(phase: HandlerPhase): Option<nat> {
    match phase
    case Sending(_, _, g) => Some(g)
    case Waiting(_, g) => Some(g)
    case _ => None
  }

  /** A poller that has its context open is the current one, and polling is on. */
  lemma OpenIsCurrent(s: State, g: nat)
    requires Inv(s) && g < |s.shared.generations| && !s.shared.generations[g].cancelled
    ensures g == Current(s) && s.shared.polling
  {
    assert g < Current(s) ==> IsFinished(s.pollers, s.shared.generations, g);
  }

  /** Entering a select, a handler captures the current context, which is open exactly when polling is on. */
  lemma CapturedOpenIffPolling(s: State, h: nat, move: Move, t: State)
    requires Inv(s) && !s.parentDone && Next(s, Handle(h, move)) == Some(t)
    requires (move.Take? || move.Await?) && Captured(t.handlers[h].phase).Some?
    ensures Captured(t.handlers[h].phase) == Some(Current(s)) && Current(t) == Current(s)
    ensures s.shared.polling <==> !ContextDone(t, Current(s))
    ensures s.shared.polling ==> s.pollers[Current(s)] in {Loading, Notifying, Selecting}
  {
    HandlerFrame(s, h, move, t);
  }

  /** Nobody goes away, and nothing that is over starts again. */
  lemma StepFrame(s: State, a: Action, t: State)
    requires Next(s, a) == Some(t)
    ensures |s.handlers| <= |t.handlers| && |s.shared.generations| <= |t.shared.generations|
    ensures s.parentDone ==> t.parentDone
    ensures forall g :: 0 <= g < |s.shared.generations| && s.shared.generations[g].cancelled ==>
              t.shared.generations[g].cancelled
  {
    match a
    case Handle(h, move) => HandlerFrame(s, h, move, t);
    case _ =>
  }

  /** A handler only moves by itself. */
  lemma OthersLeavePhase(s: State, a: Action, t: State, h: nat)
    requires Next(s, a) == Some(t) && h < |s.handlers| && !(a.Handle? && a.h == h)
    ensures h < |t.handlers| && t.handlers[h].phase == s.handlers[h].phase
  {
    match a
    case Handle(k, move) => HandlerFrame(s, k, move, t);
    case _ =>
  }

  /** Whether the captured context is done does not change while the handler stays in its select. */
  lemma CapturedStays(s: State, a: Action, t: State, h: nat, g: nat)
    requires Inv(s) && Next(s, a) == Some(t) && !t.parentDone && |s.handlers| < UINT
    requires h < |s.handlers| && Captured(s.handlers[h].phase) == Some(g) && !(a.Handle? && a.h == h)
    ensures ContextDone(t, g) <==> ContextDone(s, g)
  {
    StepFrame(s, a, t);
    assert HandlerOk(s.observed, |s.shared.generations|, s.shared.notified, s.handlers[h]);
    if !ContextDone(s, g) {
      OpenIsCurrent(s, g);
      SomeActive(s.handlers);
      ActiveRequestKeepsPolling(s, a, t, h);
      StepKeepsGenerations(s, a, t);
      PollingKeepsGeneration(s, a, t);
    }
  }

  /** While polling stays on no generation follows. */
  lemma PollingKeepsGeneration(s: State, a: Action, t: State)
    requires GenerationsOk(s) && Next(s, a) == Some(t) && s.shared.polling
    ensures Current(t) == Current(s)
  {
    match a
    case Handle(h, move) => HandlerFrame(s, h, move, t);
    case _ =>
  }

  lemma {:induction false} CapturedStaysLong(s: State, actions: seq<Action>, t: State, h: nat, g: nat)
    requires Inv(s) && Run(s, actions) == Some(t) && !t.parentDone && |t.handlers| < UINT
    requires h < |s.handlers| && Captured(s.handlers[h].phase) == Some(g)
    requires forall i :: 0 <= i < |actions| ==> !(actions[i].Handle? && actions[i].h == h)
    ensures h < |t.handlers| && t.handlers[h].phase == s.handlers[h].phase
    ensures ContextDone(t, g) <==> ContextDone(s, g)
    decreases |actions|
  {
    if actions != [] {
      var a, next := actions[0], Next(s, actions[0]).value;
      RunFrame(next, actions[1..], t);
      StepFrame(s, a, next);
      RunKeepsInv(s, [a], next);
      OthersLeavePhase(s, a, next, h);
      CapturedStays(s, a, next, h, g);
      CapturedStaysLong(next, actions[1..], t, h, g);
    }
  }

  lemma {:induction false} RunFrame(s: State, actions: seq<Action>, t: State)
    requires Run(s, actions) == Some(t)
    ensures |s.handlers| <= |t.handlers| && (s.parentDone ==> t.parentDone)
    decreases |actions|
  {
    if actions != [] {
      var next := Next(s, actions[0]).value;
      StepFrame(s, actions[0], next);
      RunFrame(next, actions[1..], t);
    }
  }

  /**
   * With the parent's context alive, a handler in a select can be turned away for the polling
   * context exactly when polling was off as it entered the select, however long it stays there
   * and whatever everybody else does meanwhile.
   */
  lemma TurnedAwayIffPollingOff(s: State, h: nat, move: Move, t: State, actions: seq<Action>, u: State)
    requires Reachable(s) && Next(s, Handle(h, move)) == Some(t)
    requires (move.Take? || move.Await?) && Captured(t.handlers[h].phase).Some?
    requires Run(t, actions) == Some(u) && !u.parentDone && |u.handlers| < UINT
    requires forall i :: 0 <= i < |actions| ==> !(actions[i].Handle? && actions[i].h == h)
    ensures Next(u, Handle(h, QuitPolling)).Some? <==> !s.shared.polling
  {
    ReachableInv(s);
    RunKeepsInv(s, [Handle(h, move)], t);
    RunFrame(t, actions, u);
    StepFrame(s, Handle(h, move), t);
    CapturedOpenIffPolling(s, h, move, t);
    CapturedStaysLong(t, actions, u, h, Current(s));
  }

  /** The handler has its poller: polling is on, and what it has captured is the current context. */
  ghost predicate Served(s: State, h: nat) {
    h < |s.handlers| &&
    (IsOver(s.handlers[h]) ||
     (IsActive(s.handlers[h]) && s.shared.polling
      && (Captured(s.handlers[h].phase).None? || Captured(s.handlers[h].phase) == Some(Current(s)))))
  }

  lemma ServedStays(s: State, a: Action, t: State, h: nat)
    requires Inv(s) && Served(s, h) && Next(s, a) == Some(t) && |s.handlers| < UINT
    ensures Served(t, h)
  {
    StepFrame(s, a, t);
    if a.Handle? && a.h == h {
      HandlerFrame(s, h, a.move, t);
    } else {
      OthersLeavePhase(s, a, t, h);
    }
    if !IsOver(s.handlers[h]) {
      PollingKeepsGeneration(s, a, t);
      SomeActive(s.handlers);
      if a != Handle(h, Complete) {
        ActiveRequestKeepsPolling(s, a, t, h);
      }
    }
  }

  lemma {:induction false} ServedStaysLong(s: State, actions: seq<Action>, t: State, h: nat)
    requires Inv(s) && Served(s, h) && Run(s, actions) == Some(t) && |t.handlers| < UINT
    ensures Inv(t) && Served(t, h)
    decreases |actions|
  {
    if actions != [] {
      var next := Next(s, actions[0]).value;
      RunFrame(next, actions[1..], t);
      StepFrame(s, actions[0], next);
      ServedStays(s, actions[0], next, h);
      RunKeepsInv(s, [actions[0]], next);
      ServedStaysLong(next, actions[1..], t, h);
    }
  }

  lemma ServedNotTurnedAway(s: State, h: nat)
    requires Inv(s) && Served(s, h) && !s.parentDone
    ensures Next(s, Handle(h, QuitPolling)).None?
    ensures !IsOver(s.handlers[h]) ==> s.shared.polling
  {
  }

  /**
   * A handler that starts while polling is on is never turned away for the polling context, along
   * any run in which the parent's context stays alive; and until it completes polling stays on.
   */
  lemma StartedWhilePollingIsServed(s: State, h: nat, t: State, actions: seq<Action>, u: State)
    requires Reachable(s) && Next(s, Handle(h, Start)) == Some(t) && s.shared.polling
    requires Run(t, actions) == Some(u) && !u.parentDone && |u.handlers| < UINT
    ensures h < |u.handlers| && Next(u, Handle(h, QuitPolling)).None?
    ensures !IsOver(u.handlers[h]) ==> u.shared.polling
  {
    ReachableInv(s);
    RunKeepsInv(s, [Handle(h, Start)], t);
    HandlerFrame(s, h, Start, t);
    ServedStaysLong(t, actions, u, h);
    ServedNotTurnedAway(u, h);
  }

  /** A handler that starts while polling is off may go straight to its select and be turned away with nothing. */
  lemma StartedOffMayBeTurnedAway(s: State, h: nat, t: State) returns (actions: seq<Action>, u: State)
    requires Inv(s) && !s.parentDone && !s.shared.polling && Next(s, Handle(h, Start)) == Some(t)
    ensures Run(t, actions) == Some(u) && |u.handlers| == |s.handlers| && !u.parentDone
    ensures Next(u, Handle(h, QuitPolling)).Some? && u.handlers[h].delivered == []
  {
    var matches := Matching(t.shared.entries, t.handlers[h].req);
    var found := Next(t, Handle(h, Find)).value;
    var move := if matches == [] then Await else Take;
    assert HandlerOk(s.observed, |s.shared.generations|, s.shared.notified, s.handlers[h]);
    assert found.handlers[h].phase == Scanning(matches) && found.handlers[h].seen == {};
    u := Next(found, Handle(h, move)).value;
    actions := [Handle(h, Find), Handle(h, move)];
    assert actions[1..] == [Handle(h, move)] && actions[1..][1..] == [];
    assert Run(u, []) == Some(u);
    assert Run(found, actions[1..]) == Some(u);
  }

  /**
   * With the parent's context alive, polling as a handler starts decides whether it is safe: if it
   * is on, no run turns the handler away for the polling context; if it is off, some run does.
   */
  lemma SafeIffStartedWhilePolling(s: State, h: nat, t: State)
    requires Reachable(s) && !s.parentDone && |s.handlers| < UINT && Next(s, Handle(h, Start)) == Some(t)
    ensures s.shared.polling <==>
            forall actions, u :: (Run(t, actions) == Some(u) && !u.parentDone && |u.handlers| < UINT) ==>
              Next(u, Handle(h, QuitPolling)).None?
  {
    if s.shared.polling {
      forall actions, u | Run(t, actions) == Some(u) && !u.parentDone && |u.handlers| < UINT
        ensures Next(u, Handle(h, QuitPolling)).None?
      {
        StartedWhilePollingIsServed(s, h, t, actions, u);
      }
    } else {
      ReachableInv(s);
      var actions, u := StartedOffMayBeTurnedAway(s, h, t);
      assert Run(t, actions) == Some(u);
    }
  }

  /**
   * A request that was accepted but has not started has no hold on the poller. Here the only
   * other request ends first; the second is then turned away with nothing delivered, although
   * neither its own context nor the parent's is done.
   */
  lemma AcceptedRequestCanLosePolling(r: Request)
    ensures exists s :: Reachable(s) && |s.handlers| == 2 && s.handlers[1] == Handler(r, false, Closed, {}, [], {},
            1) && !s.parentDone
  {
    var x := NewHandler(r);
    var up := Shared(0, [], true, [Generation(false, false)], 0);
    var down := Shared(0, [], false, [Generation(true, false)], 0);
    var one := State(up, [Loading], [x], Free, false, {}, false);
    var two := one.(handlers := [x, x]);
    RunStep(Init, [Add(r), Add(r)], one);
    RunStep(one, [Add(r), Add(r)][1..], two);

    var first := two.(shared := up.(activeReqs := 1), handlers := [x.(phase := Waiting(0, 0)), x]);
    StartAndWait(two, 0, first);
    var gone := x.(ctxDone := true, phase := Completing);
    var alone := two.(shared := down, handlers := [gone, x]);
    LeaveOnRequest(first, alone);
    RunAppend(two, StartWait(0), [CancelRequest(0), Handle(0, QuitRequest), Handle(0, Complete)]);

    var second := alone.(shared := down.(activeReqs := 1), handlers := [gone, x.(phase := Waiting(0, 0))]);
    StartAndWait(alone, 1, second);
    var end := alone.(handlers := [gone, x.(phase := Closed, closes := 1)]);
    LeaveOnPolling(second, end);
    RunAppend(alone, StartWait(1), [Handle(1, QuitPolling), Handle(1, Complete), Handle(1, CloseChannel)]);

    var ending := StartWait(1) + [Handle(1, QuitPolling), Handle(1, Complete), Handle(1, CloseChannel)];
    var middle := StartWait(0) + [CancelRequest(0), Handle(0, QuitRequest), Handle(0, Complete)];
    RunAppend(two, middle, ending);
    RunAppend(Init, [Add(r), Add(r)], middle + ending);
    assert Reachable(end);
  }

  function StartWait(h: nat): seq<Action> {
    [Handle(h, Start), Handle(h, Find), Handle(h, Await)]
  }

  /** A handler that starts while there are no entries goes straight to waiting. */
  lemma StartAndWait(s: State, h: nat, t: State)
    requires h < |s.handlers| && s.handlers[h] == NewHandler(s.handlers[h].req)
    requires s.lock == Free && s.shared.entries == [] && Current(s) == 0
    requires t == SetPhase(s, h, Waiting(s.shared.notified, 0)).(shared := Started(s.shared))
    ensures Run(s, StartWait(h)) == Some(t)
  {
    var s1 := SetPhase(s, h, Finding).(shared := Started(s.shared));
    var s2 := SetPhase(s1, h, Scanning([]));
    RunStep(s, StartWait(h), s1);
    assert s1.handlers[h].found + AddressesOf([]) == s1.handlers[h].found;
    assert Next(s1, Handle(h, Find)).value.handlers[h] == s2.handlers[h];
    RunStep(s1, StartWait(h)[1..], s2);
    RunStep(s2, StartWait(h)[2..], t);
  }

  /** A waiting handler whose request is cancelled leaves. */
  lemma LeaveCancelled(s: State, h: nat)
    requires h < |s.handlers| && s.handlers[h].phase.Waiting? && s.lock == Free
    ensures Run(s, [CancelRequest(h), Handle(h, QuitRequest), Handle(h, Complete)]) ==
            Some(SetHandler(s, h, s.handlers[h].(ctxDone := true, phase := Completing)).(shared := Completed(s.shared)))
  {
    var s1 := SetHandler(s, h, s.handlers[h].(ctxDone := true));
    var s2 := SetPhase(s1, h, Leaving);
    var s3 := SetPhase(s2, h, Completing).(shared := Completed(s.shared));
    QuitsCancelled(s1, h);
    CompletesLeaving(s2, h);
    RunThree(s, CancelRequest(h), s1, Handle(h, QuitRequest), s2, Handle(h, Complete), s3);
    assert s1.handlers[h := s2.handlers[h]][h := s3.handlers[h]] == s.handlers[h := s3.handlers[h]];
  }

  lemma QuitsCancelled(s: State, h: nat)
    requires h < |s.handlers| && s.handlers[h].phase.Waiting? && s.handlers[h].ctxDone
    ensures Next(s, Handle(h, QuitRequest)) == Some(SetPhase(s, h, Leaving))
  {
  }

  lemma CompletesLeaving(s: State, h: nat)
    requires h < |s.handlers| && s.handlers[h].phase.Leaving? && s.lock == Free
    ensures Next(s, Handle(h, Complete)) == Some(SetPhase(s, h, Completing).(shared := Completed(s.shared)))
  {
  }

  lemma RunThree(s: State, a: Action, s1: State, b: Action, s2: State, c: Action, s3: State)
    requires Next(s, a) == Some(s1) && Next(s1, b) == Some(s2) && Next(s2, c) == Some(s3)
    ensures Run(s, [a, b, c]) == Some(s3)
  {
    assert [a, b, c][1..] == [b, c] && [b, c][1..] == [c] && [c][1..] == [];
    assert Run(s3, []) == Some(s3);
    assert Run(s2, [c]) == Some(s3);
    assert Run(s1, [b, c]) == Some(s3);
  }

  lemma LeaveOnRequest(s: State, t: State)
    requires |s.handlers| == 2 && s.handlers[0].phase == Waiting(0, 0) && s.lock == Free
    requires s.shared == Shared(1, [], true, [Generation(false, false)], 0)
    requires t.shared == Shared(0, [], false, [Generation(true, false)], 0)
    requires t == s.(shared := t.shared,
                     handlers := [s.handlers[0].(ctxDone := true, phase := Completing), s.handlers[1]])
    ensures Run(s, [CancelRequest(0), Handle(0, QuitRequest), Handle(0, Complete)]) == Some(t)
  {
    LeaveCancelled(s, 0);
    assert s.handlers[0 := t.handlers[0]] == t.handlers;
    assert Completed(s.shared) == t.shared;
  }

  lemma LeaveOnPolling(s: State, t: State)
    requires |s.handlers| == 2 && s.handlers[1].phase == Waiting(0, 0) && s.handlers[1].closes == 0 && s.lock == Free
    requires s.shared == Shared(1, [], false, [Generation(true, false)], 0) && !s.panicked
    requires t.shared == s.shared.(activeReqs := 0)
    requires t == s.(shared := t.shared, handlers := [s.handlers[0], s.handlers[1].(phase := Closed, closes := 1)])
    ensures Run(s, [Handle(1, QuitPolling), Handle(1, Complete), Handle(1, CloseChannel)]) == Some(t)
  {
    var actions := [Handle(1, QuitPolling), Handle(1, Complete), Handle(1, CloseChannel)];
    var s1 := s.(handlers := [s.handlers[0], s.handlers[1].(phase := Leaving)]);
    var s2 := s.(shared := t.shared, handlers := [s.handlers[0], s.handlers[1].(phase := Completing)]);
    RunStep(s, actions, s1);
    RunStep(s1, actions[1..], s2);
    RunStep(s2, actions[2..], t);
  }

  lemma RunStep(s: State, actions: seq<Action>, t: State)
    requires actions != [] && Next(s, actions[0]).Some?
    requires var u := Next(s, actions[0]).value;
             && u.pollers == t.pollers && u.handlers == t.handlers && u.observed == t.observed
             && u.lock == t.lock && u.parentDone == t.parentDone && u.panicked == t.panicked
             && u.shared.entries == t.shared.entries && u.shared.generations == t.shared.generations
             && u.shared.activeReqs == t.shared.activeReqs && u.shared.polling == t.shared.polling
             && u.shared.notified == t.shared.notified
    ensures Run(s, actions) == Run(t, actions[1..])
  {
  }

  lemma {:induction false} RunAppend(s: State, a: seq<Action>, b: seq<Action>)
    ensures Run(s, a + b) == match Run(s, a) case None => None case Some(t) => Run(t, b)
    decreases |a|
  {
    if a == [] {
      assert a + b == b;
    } else {
      assert (a + b)[1..] == a[1..] + b;
      match Next(s, a[0])
      case None =>
      case Some(t) => RunAppend(t, a[1..], b);
    }
  }
}
