/**
 * The code of a caller, the poller and a handler on the shared fields (net/arp/arper_linux.go),
 * with anything the other goroutines can do in between: what it does are steps of the protocol.
 */
module ArpGoroutines {
  import opened Wrappers
  import opened ArpTable
  import opened ArpProtocol

  lemma OneStepMore(s: State, actions: seq<Action>, t: State, a: Action)
    requires Run(s, actions) == Some(t) && Next(t, a).Some?
    ensures Run(s, actions + [a]) == Next(t, a)
  {
    RunAppend(s, actions, [a]);
    assert [a][1..] == [];
    assert Run(t, [a]) == Run(Next(t, a).value, []);
  }

  // ---- What others leave alone -------------------------------------------------------------

  /** The goroutine whose code is followed. */
  datatype Who = Poller(g: nat) | Handling(h: nat) | Caller

  predicate Mine(who: Who, a: Action) {
    match who
    case Poller(g) => a.Poll? && a.g == g
    case Handling(h) => a.Handle? && a.h == h
    case Caller => a.AddProceed? || a.AddGiveUp?
  }

  /** What no other goroutine changes for this one. */
  ghost predicate Kept(who: Who, s: State, t: State) {
    && (s.parentDone ==> t.parentDone)
    && match who
       case Poller(g) =>
         g == Current(s) && g < |s.pollers| && !s.pollers[g].Finished? ==>
           && Current(t) == g && g < |t.pollers| && t.pollers[g] == s.pollers[g]
           && (ContextDone(s, g) ==> ContextDone(t, g))
           && t.shared.entries == s.shared.entries && t.shared.notified == s.shared.notified
       case Handling(h) =>
         h < |s.handlers| ==>
           && h < |t.handlers| && t.handlers[h] == s.handlers[h].(ctxDone := t.handlers[h].ctxDone)
           && (s.handlers[h].ctxDone ==> t.handlers[h].ctxDone)
       case Caller => s.lock.AddWaiting? ==> t.lock == s.lock
  }

  lemma StepKeeps(who: Who, s: State, a: Action, t: State)
    requires Inv(s) && Next(s, a) == Some(t) && !Mine(who, a)
    ensures Kept(who, s, t)
  {
    StepFrame(s, a, t);
    match a
    case Handle(k, move) => HandlerFrame(s, k, move, t);
    case Poll(k, turn) => OnlyLastPolls(s, k, turn);
    case _ =>
  }

  /** A poller that can still take a turn is the current one. */
  lemma OnlyLastPolls(s: State, k: nat, turn: Turn)
    requires Inv(s) && Next(s, Poll(k, turn)).Some?
    ensures k == Current(s) && !s.pollers[k].Finished?
  {
    assert k < Current(s) ==> IsFinished(s.pollers, s.shared.generations, k);
  }

  lemma KeptLonger(who: Who, s: State, t: State, u: State)
    requires Kept(who, s, t) && Kept(who, t, u)
    ensures Kept(who, s, u)
  {
  }

  lemma {:induction false} RunKeeps(who: Who, s: State, actions: seq<Action>, t: State)
    requires Inv(s) && Run(s, actions) == Some(t) && forall a :: a in actions ==> !Mine(who, a)
    ensures Inv(t) && Kept(who, s, t)
    decreases |actions|
  {
    if actions != [] {
      var next := Next(s, actions[0]).value;
      assert actions[0] in actions;
      StepKeeps(who, s, actions[0], next);
      RunKeepsInv(s, [actions[0]], next);
      RunKeeps(who, next, actions[1..], t);
      KeptLonger(who, s, next, t);
    }
  }

  // ---- A run being followed ----------------------------------------------------------------

  /**
   * The fields and the protocol's state, side by side. In the k-th gap between two steps of the
   * code the others do others(k), if they can; choice(k) is what a select takes when it has the
   * choice, and patience how often a goroutine looks for what it waits for before it is left to wait.
   */
  class Trace {
    const arper: Arper
    const others: nat -> seq<Action>
    const choice: nat -> Move
    const patience: nat
    ghost const start: State
    ghost var actions: seq<Action>
    var now: State
    var gaps: nat

    constructor (arper: Arper, start: State, others: nat -> seq<Action>, choice: nat -> Move, patience: nat)
      requires Inv(start) && arper.State() == start.shared
      ensures Valid() && this.arper == arper && now == this.start == start
      ensures this.others == others && this.choice == choice && this.patience == patience
    {
      this.arper, this.others, this.choice, this.patience := arper, others, choice, patience;
      this.start, this.now, this.actions, this.gaps := start, start, [], 0;
    }

    /** The fields are those of a state the protocol has run to. */
    ghost predicate Valid()
      reads this, arper
    {
      Run(start, actions) == Some(now) && Inv(now) && arper.State() == now.shared
    }

    /** The code has just done this step. */
    method Did(a: Action)
      requires Run(start, actions) == Some(now) && Inv(now)
      requires Next(now, a).Some? && arper.State() == Next(now, a).value.shared
      modifies this`now, this`actions
      ensures Valid() && Some(now) == Next(old(now), a)
    {
      OneStepMore(start, actions, now, a);
      var next := Next(now, a).value;
      assert Run(now, [a]) == Some(next) by {
        assert [a][1..] == [];
        assert Run(next, []) == Some(next);
      }
      RunKeepsInv(now, [a], next);
      now, actions := next, actions + [a];
    }

    /** A gap between two steps of the code. */
    method Gap(who: Who)
      requires Valid()
      modifies this`now, this`actions, this`gaps, arper
      ensures Valid() && Kept(who, old(now), now)
    {
      var acts := others(gaps);
      gaps := gaps + 1;
      if (forall a :: a in acts ==> !Mine(who, a)) && Run(now, acts).Some? {
        var t := Run(now, acts).value;
        RunAppend(start, actions, acts);
        RunKeeps(who, now, acts, t);
        now, actions := t, actions + acts;
        arper.Become(t.shared);
      }
    }

    /** The request mutex, if it comes free in time. */
    method Lock(who: Who) returns (free: bool)
      requires Valid() && !who.Caller?
      modifies this`now, this`actions, this`gaps, arper
      ensures Valid() && Kept(who, old(now), now) && (free ==> now.lock == Free)
    {
      ghost var before := now;
      Gap(who);
      var tries := patience;
      while now.lock != Free && tries > 0
        invariant Valid() && Kept(who, before, now)
        decreases tries
      {
        ghost var seen := now;
        Gap(who);
        KeptLonger(who, before, seen, now);
        tries := tries - 1;
      }
      free := now.lock == Free;
    }

    // ---- The poller ------------------------------------------------------------------------

    /** Poller g is the current one, and at this point of its code. */
    ghost predicate PollerAt(g: nat, phase: PollPhase)
      reads this, arper
    {
      Valid() && g == Current(now) && g < |now.pollers| && now.pollers[g] == phase
    }

    method PollRound(g: nat, answer: Option<seq<Neighbor>>)
      requires PollerAt(g, Loading)
      modifies this`now, this`actions, this`gaps, arper
      ensures PollerAt(g, Selecting) && now.shared.notified == old(now.shared.notified) + 1
    {
      Gap(Poller(g));
      arper.LoadARPs(answer);
      Did(Poll(g, Load(answer)));
      Gap(Poller(g));
      arper.NotifyRequests();
      Did(Poll(g, Notify));
      Gap(Poller(g));
    }

    method PollCancel(g: nat)
      requires PollerAt(g, Cancelling)
      modifies this`now, this`actions, this`gaps, arper
      ensures PollerAt(g, Clearing)
    {
      Gap(Poller(g));
      arper.CancelPolling();
      Did(Poll(g, Cancel));
    }

    method PollClear(g: nat)
      requires PollerAt(g, Clearing)
      modifies this`now, this`actions, this`gaps, arper
      ensures PollerAt(g, Closing) && now.shared.entries == []
    {
      Gap(Poller(g));
      arper.ClearEntries();
      Did(Poll(g, Clear));
    }

    method PollClose(g: nat)
      requires PollerAt(g, Closing)
      modifies this`now, this`actions, this`gaps, arper
      ensures PollerAt(g, Finished) && now.shared.entries == old(now.shared.entries)
    {
      Gap(Poller(g));
      arper.CloseDone();
      Did(Poll(g, CloseDone));
    }

    /**
     * The whole life of a poller, over the answers to its queries. It stops at a select that finds
     * the context done; it is still polling if none did.
     */
    method PollLoop(g: nat, answers: seq<Option<seq<Neighbor>>>) returns (stopped: bool)
      requires PollerAt(g, Loading)
      modifies this`now, this`actions, this`gaps, arper
      ensures if stopped then PollerAt(g, Finished) && now.shared.generations[g] == Generation(true, true)
              else PollerAt(g, Loading)
      ensures stopped ==> arper.entries == []
      ensures !stopped ==> arper.notified == old(arper.notified) + |answers|
    {
      for i := 0 to |answers|
        invariant PollerAt(g, Loading) && now.shared.notified == old(now.shared.notified) + i
      {
        PollRound(g, answers[i]);
        if ContextDone(now, g) && choice(gaps).QuitPolling? {
          Did(Poll(g, Stop));
          PollCancel(g);
          PollClear(g);
          PollClose(g);
          return true;
        }
        Did(Poll(g, Tick));
      }
      stopped := false;
    }

    // ---- A handler -------------------------------------------------------------------------

    /** Handler h of request r is at this point of its code and has seen and sent so much. */
    ghost predicate HandlerAt(h: nat, r: Request, phase: HandlerPhase, seen: set<Address>, delivered: seq<Address>)
      reads this, arper
    {
      && Valid() && h < |now.handlers|
      && now.handlers[h].req == r && now.handlers[h].phase == phase && now.handlers[h].closes == 0
      && now.handlers[h].seen == seen && now.handlers[h].delivered == delivered
    }

    ghost predicate Underway(h: nat, r: Request, delivered: seq<Address>)
      reads this, arper
    {
      Valid() && h < |now.handlers| && now.handlers[h].req == r && now.handlers[h].delivered == delivered
    }

    /** A gap in the code of a handler. */
    method HandlerGap(h: nat, r: Request, ghost phase: HandlerPhase, ghost seen: set<Address>,
        ghost delivered: seq<Address>)
      requires HandlerAt(h, r, phase, seen, delivered)
      modifies this`now, this`actions, this`gaps, arper
      ensures HandlerAt(h, r, phase, seen, delivered)
    {
      Gap(Handling(h));
    }

    /** A select that offers an address: it is sent, or the handler is on its way out. */
    method Offer(h: nat, r: Request, addr: Address, ghost rest: seq<Entry>, g: nat, ghost seen: set<Address>,
        sent: seq<Address>)
      returns (leaving: bool, delivered: seq<Address>)
      requires HandlerAt(h, r, Sending(addr, rest, g), seen, sent)
      modifies this`now, this`actions, this`gaps, arper
      ensures if leaving then HandlerAt(h, r, Leaving, seen, sent) && delivered == sent
              else HandlerAt(h, r, Scanning(rest), seen, delivered) && delivered == sent + [addr]
    {
      HandlerGap(h, r, Sending(addr, rest, g), seen, sent);
      delivered := sent;
      leaving := true;
      var pick := choice(gaps);
      if pick.QuitRequest? && now.handlers[h].ctxDone {
        Did(Handle(h, QuitRequest));
      } else if pick.QuitPolling? && ContextDone(now, g) {
        Did(Handle(h, QuitPolling));
      } else {
        Did(Handle(h, Deliver));
        leaving, delivered := false, sent + [addr];
      }
    }

    /** Takes up the next match; one whose address has been seen is passed over. */
    method TakeNext(h: nat, r: Request, ghost pending: seq<Entry>, addr: Address, seen: set<Address>,
        ghost delivered: seq<Address>)
      returns (g: nat)
      requires HandlerAt(h, r, Scanning(pending), seen, delivered) && pending != [] && addr == pending[0].addr
      modifies this`now, this`actions, this`gaps, arper
      ensures if addr in seen then HandlerAt(h, r, Scanning(pending[1..]), seen, delivered)
              else HandlerAt(h, r, Sending(addr, pending[1..], g), seen + {addr}, delivered)
    {
      HandlerGap(h, r, Scanning(pending), seen, delivered);
      g := |now.shared.generations| - 1;
      Did(Handle(h, Take));
    }

    /** Deals with the next match. */
    method DeliverNext(h: nat, r: Request, ghost pending: seq<Entry>, addr: Address, seen0: set<Address>,
        sent: seq<Address>)
      returns (leaving: bool, seen: set<Address>, delivered: seq<Address>)
      requires HandlerAt(h, r, Scanning(pending), seen0, sent) && pending != [] && addr == pending[0].addr
      modifies this`now, this`actions, this`gaps, arper
      ensures HandlerAt(h, r, if leaving then Leaving else Scanning(pending[1..]), seen, delivered)
      ensures sent <= delivered && seen == seen0 + {addr}
    {
      leaving, seen, delivered := false, seen0 + {addr}, sent;
      var g := TakeNext(h, r, pending, addr, seen0, sent);
      if addr !in seen0 {
        leaving, delivered := Offer(h, r, addr, pending[1..], g, seen, sent);
      } else {
        assert seen0 + {addr} == seen0;
      }
    }

    /** Goes through the matches and offers those whose address has not been seen. */
    method DeliverMatches(h: nat, r: Request, found: seq<Entry>, seen0: set<Address>, sent: seq<Address>)
      returns (leaving: bool, seen: set<Address>, delivered: seq<Address>)
      requires HandlerAt(h, r, Scanning(found), seen0, sent)
      modifies this`now, this`actions, this`gaps, arper
      ensures HandlerAt(h, r, if leaving then Leaving else Scanning([]), seen, delivered) && sent <= delivered
    {
      seen, delivered := seen0, sent;
      for i := 0 to |found|
        invariant HandlerAt(h, r, Scanning(found[i..]), seen, delivered) && sent <= delivered
      {
        assert found[i..][1..] == found[i + 1..];
        leaving, seen, delivered := DeliverNext(h, r, found[i..], found[i].addr, seen, delivered);
        if leaving {
          return;
        }
      }
      assert found[|found|..] == [];
      leaving := false;
    }

    /** Looks once at a select that waits for news. */
    method LookForNews(h: nat, r: Request, n: nat, g: nat, ghost seen: set<Address>, ghost delivered: seq<Address>)
      returns (woken: bool, leaving: bool)
      requires HandlerAt(h, r, Waiting(n, g), seen, delivered)
      modifies this`now, this`actions, this`gaps, arper
      ensures !(woken && leaving)
      ensures HandlerAt(h, r, if woken then Finding else if leaving then Leaving else Waiting(n, g), seen, delivered)
    {
      HandlerGap(h, r, Waiting(n, g), seen, delivered);
      woken, leaving := false, false;
      var pick := choice(gaps);
      if pick.QuitRequest? && now.handlers[h].ctxDone {
        Did(Handle(h, QuitRequest));
        leaving := true;
      } else if pick.QuitPolling? && ContextDone(now, g) {
        Did(Handle(h, QuitPolling));
        leaving := true;
      } else if n < now.shared.notified {
        Did(Handle(h, Wake));
        woken := true;
      }
    }

    method BeginAwait(h: nat, r: Request, ghost seen: set<Address>, ghost delivered: seq<Address>)
      returns (n: nat, g: nat)
      requires HandlerAt(h, r, Scanning([]), seen, delivered)
      modifies this`now, this`actions, this`gaps, arper
      ensures HandlerAt(h, r, Waiting(n, g), seen, delivered)
    {
      HandlerGap(h, r, Scanning([]), seen, delivered);
      n, g := now.shared.notified, |now.shared.generations| - 1;
      Did(Handle(h, Await));
    }

    /** Waits for news; it may be left waiting. */
    method AwaitNews(h: nat, r: Request, ghost seen: set<Address>, ghost delivered: seq<Address>)
      returns (woken: bool, leaving: bool)
      requires HandlerAt(h, r, Scanning([]), seen, delivered)
      modifies this`now, this`actions, this`gaps, arper
      ensures !(woken && leaving) && Underway(h, r, delivered)
      ensures woken ==> HandlerAt(h, r, Finding, seen, delivered)
      ensures leaving ==> HandlerAt(h, r, Leaving, seen, delivered)
    {
      var n, g := BeginAwait(h, r, seen, delivered);
      var tries := patience;
      woken, leaving := false, false;
      while tries > 0 && !woken && !leaving
        invariant !(woken && leaving)
        invariant HandlerAt(h, r, if woken then Finding else if leaving then Leaving else Waiting(n, g), seen,
                            delivered)
      {
        woken, leaving := LookForNews(h, r, n, g, seen, delivered);
        tries := tries - 1;
      }
    }

    method FindMatches(h: nat, r: Request, ghost seen: set<Address>, ghost delivered: seq<Address>)
      returns (found: seq<Entry>)
      requires HandlerAt(h, r, Finding, seen, delivered)
      modifies this`now, this`actions, this`gaps, arper
      ensures HandlerAt(h, r, Scanning(found), seen, delivered)
    {
      HandlerGap(h, r, Finding, seen, delivered);
      found := arper.Find(r);
      Did(Handle(h, Find));
    }

    /** One pass over the entries. */
    method Pass(h: nat, r: Request, seen0: set<Address>, sent: seq<Address>)
      returns (again: bool, leaving: bool, seen: set<Address>, delivered: seq<Address>)
      requires HandlerAt(h, r, Finding, seen0, sent)
      modifies this`now, this`actions, this`gaps, arper
      ensures !(again && leaving) && Underway(h, r, delivered)
      ensures again ==> HandlerAt(h, r, Finding, seen, delivered)
      ensures leaving ==> HandlerAt(h, r, Leaving, seen, delivered)
    {
      var found := FindMatches(h, r, seen0, sent);
      leaving, seen, delivered := DeliverMatches(h, r, found, seen0, sent);
      again := false;
      if !leaving {
        again, leaving := AwaitNews(h, r, seen, delivered);
      }
    }

    /** The deferred calls: uncounts the request and closes its channel. */
    method Finish(h: nat, r: Request, seen: set<Address>, delivered: seq<Address>) returns (closed: bool)
      requires HandlerAt(h, r, Leaving, seen, delivered)
      modifies this`now, this`actions, this`gaps, arper
      ensures Underway(h, r, delivered)
      ensures closed ==> now.handlers[h].phase.Closed? && now.handlers[h].closes == 1
    {
      closed := Lock(Handling(h));
      if closed {
        Uncount(h, r, seen, delivered);
        HandlerGap(h, r, Completing, seen, delivered);
        Did(Handle(h, CloseChannel));
      }
    }

    method Uncount(h: nat, r: Request, ghost seen: set<Address>, ghost delivered: seq<Address>)
      requires HandlerAt(h, r, Leaving, seen, delivered) && now.lock == Free
      modifies this`now, this`actions, arper
      ensures HandlerAt(h, r, Completing, seen, delivered)
    {
      arper.RequestComplete();
      Did(Handle(h, Complete));
    }

    /**
     * A request handled, for so many passes: whatever the others do, what is delivered differs
     * pairwise, matches, and comes from usable entries; the channel is closed once at most.
     */
    method HandleRequest(h: nat, r: Request, passes: nat) returns (closed: bool, delivered: seq<Address>)
      requires HandlerAt(h, r, Spawned, {}, [])
      modifies this`now, this`actions, this`gaps, arper
      ensures Underway(h, r, delivered)
      ensures closed ==> now.handlers[h].phase.Closed? && now.handlers[h].closes == 1
      ensures AllDifferent(delivered)
      ensures forall addr :: addr in delivered ==> Sourced(now.observed, r, addr)
    {
      delivered := [];
      closed := Lock(Handling(h));
      if closed {
        arper.RequestStarted();
        Did(Handle(h, Start));
        closed, delivered := Serve(h, r, passes);
      }
      DeliveredOk(now, h);
    }

    /** The loop of a handler. */
    method Serve(h: nat, r: Request, passes: nat) returns (closed: bool, delivered: seq<Address>)
      requires HandlerAt(h, r, Finding, {}, [])
      modifies this`now, this`actions, this`gaps, arper
      ensures Underway(h, r, delivered)
      ensures closed ==> now.handlers[h].phase.Closed? && now.handlers[h].closes == 1
    {
      var seen: set<Address> := {};
      delivered := [];
      for pass := 0 to passes
        invariant HandlerAt(h, r, Finding, seen, delivered)
      {
        var again, leaving;
        again, leaving, seen, delivered := Pass(h, r, seen, delivered);
        if leaving {
          closed := Finish(h, r, seen, delivered);
          return;
        }
        if !again {
          return false, delivered;
        }
      }
      closed := false;
    }

    // ---- A caller --------------------------------------------------------------------------

    /** Adds a request, waiting for the old poller to finish cleaning up if there is one. */
    method AddRequest(r: Request) returns (accepted: bool, refused: bool)
      requires Valid() && now.lock == Free
      modifies this`now, this`actions, this`gaps, arper
      ensures Valid() && !(accepted && refused)
      ensures accepted ==> now.handlers != [] && now.handlers[|now.handlers| - 1] == NewHandler(r)
      ensures accepted ==> now.lock == Free && now.shared.polling
      ensures refused ==> now.lock == Free && now.parentDone
    {
      accepted, refused := false, false;
      if arper.polling || arper.generations == [] {
        var wait, err := arper.EnsurePolling(now.parentDone);
        Did(Add(r));
        return true, false;
      }
      Did(Add(r));
      var tries := patience;
      while tries > 0
        invariant Valid() && now.lock == AddWaiting(r)
      {
        var wait, err := arper.EnsurePolling(now.parentDone);
        if !wait {
          Did(AddProceed);
          return true, false;
        }
        if err {
          Did(AddGiveUp);
          return false, true;
        }
        Gap(Caller);
        tries := tries - 1;
      }
    }
  }

  lemma DeliveredOk(s: State, h: nat)
    requires Inv(s) && h < |s.handlers|
    ensures AllDifferent(s.handlers[h].delivered)
    ensures forall addr :: addr in s.handlers[h].delivered ==> Sourced(s.observed, s.handlers[h].req, addr)
  {
    var x := s.handlers[h];
    assert HandlerOk(s.observed, |s.shared.generations|, s.shared.notified, x);
    forall addr | addr in x.delivered ensures Sourced(s.observed, x.req, addr) {
      assert addr in Elements(x.delivered);
    }
  }
}
