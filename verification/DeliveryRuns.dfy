/** Governed export delivery over whole runs: conservation, one call at a time, breaker safety, and the runs in which
    delivery stops. */
module DeliveryRuns {
  import opened GoStrings
  import opened Delivery
  import opened DeliveryBooks
  import opened DeliveryCalls

  // ------------------------------------------------------------------- runs

  ghost predicate Inv(cfg: Config, s: State) {
    && FlowInv(s.flow)
    && Ledger(s.flow, s.books)
    && CallsInv(s.calls, s.flow.worker)
    && PanicLedger(s)
    && BreakerInv(cfg, s.breaker, s.flow.worker)
    && CloseInv(s)
  }

  ghost predicate StepAt(cfg: Config, states: seq<State>, steps: seq<Step>, k: int)
    requires 0 <= k < |steps| && |states| == |steps| + 1
  {
    Enabled(states[k], steps[k]) && states[k + 1] == Next(cfg, states[k], steps[k])
  }

  /** An interleaving of steps from a new exporter. */
  ghost predicate IsRun(cfg: Config, states: seq<State>, steps: seq<Step>) {
    && |states| == |steps| + 1
    && states[0] == INITIAL
    && forall k :: 0 <= k < |steps| ==> StepAt(cfg, states, steps, k)
  }

  lemma InitialBooks(f: Flow, b: Books)
    requires f.queue == [] && f.producers == map[] && f.worker == Waiting && f.place == map[]
    requires b == Books(0, 0, 0, 0, 0, 0, 0, 0)
    ensures FlowInv(f) && Ledger(f, b) && Outcomes(f.place, Panicked) == 0
  {
    forall e: Event ensures EventOk(f, e) {}
    forall o: Outcome ensures Outcomes(f.place, o) == 0 {
      assert WithOutcome(f.place, o) == {};
    }
    assert Senders(f.producers) == {};
  }

  lemma InitialCalls(c: Calls)
    requires !c.slot && c.live == map[] && c.results == map[] && c.abandoned == {} && c.hungCalls == 0 && c.leaks == 0
    ensures CallsInv(c, Waiting)
  {
    forall id: CallId ensures CallOk(c, Waiting, id) {}
  }

  lemma InitialPanics(s: State)
    requires s.books.panics == 0 && s.books.latePanics == 0 && s.flow.worker == Waiting && Outcomes(s.flow.place, Panicked) == 0
    ensures PanicLedger(s)
  {
  }

  lemma NewInv(cfg: Config, s: State)
    requires s.flow.queue == [] && s.flow.producers == map[] && s.flow.worker == Waiting && s.flow.place == map[]
    requires s.books == Books(0, 0, 0, 0, 0, 0, 0, 0)
    requires !s.calls.slot && s.calls.live == map[] && s.calls.results == map[] && s.calls.abandoned == {}
    requires s.calls.hungCalls == 0 && s.calls.leaks == 0
    requires s.breaker.openedAt == 0 && s.breaker.failures == 0 && s.breaker.forcing == 0
    requires !s.closed && !s.draining && !s.returned
    ensures Inv(cfg, s)
  {
    InitialBooks(s.flow, s.books);
    InitialCalls(s.calls);
    InitialPanics(s);
    InitialBreaker(cfg, s.breaker);
  }

  lemma InitialInv(cfg: Config, s: State)
    requires s == INITIAL
    ensures Inv(cfg, s)
  {
    NewInv(cfg, s);
  }

  lemma InitialBreaker(cfg: Config, b: Breaker)
    requires b.openedAt == 0 && b.failures == 0 && b.forcing == 0
    ensures BreakerInv(cfg, b, Waiting)
  {
  }

  lemma StepKeepsInv(cfg: Config, s: State, step: Step)
    requires Inv(cfg, s) && Enabled(s, step)
    ensures Inv(cfg, Next(cfg, s, step))
  {
    StepKeepsFlow(cfg, s, step);
    StepKeepsLedger(cfg, s, step);
    StepKeepsCalls(cfg, s, step);
    StepKeepsPanicLedger(cfg, s, step);
    StepKeepsBreaker(cfg, s, step);
    StepKeepsClose(cfg, s, step);
  }

  lemma {:induction false} RunKeepsInv(cfg: Config, states: seq<State>, steps: seq<Step>, k: nat)
    requires IsRun(cfg, states, steps) && k <= |steps|
    ensures Inv(cfg, states[k])
  {
    if k == 0 {
      InitialInv(cfg, states[0]);
    } else {
      RunKeepsInv(cfg, states, steps, k - 1);
      assert StepAt(cfg, states, steps, k - 1);
      StepKeepsInv(cfg, states[k - 1], steps[k - 1]);
    }
  }

  lemma RunKeepsBreaker(cfg: Config, states: seq<State>, steps: seq<Step>, k: nat)
    requires IsRun(cfg, states, steps) && k <= |steps|
    ensures BreakerInv(cfg, states[k].breaker, states[k].flow.worker)
  {
    RunKeepsInv(cfg, states, steps, k);
  }

  // --------------------------------------------------------------- theorems

  /** In every interleaving an event that entered is in one place: with one producer, in the queue, in the worker's
      hands, turned away, or delivered with one outcome. */
  lemma EventIsInOnePlace(cfg: Config, states: seq<State>, steps: seq<Step>, k: nat, e: Event)
    requires IsRun(cfg, states, steps) && k <= |steps|
    ensures EventOk(states[k].flow, e) && Distinct(states[k].flow.queue)
  {
    RunKeepsInv(cfg, states, steps, k);
  }

  /** The events sent into the queue, and those the worker took out of it, in the first `k` steps. */
  ghost function SentLog(cfg: Config, states: seq<State>, steps: seq<Step>, k: nat): seq<Event>
    requires |states| == |steps| + 1 && k <= |steps|
  {
    if k == 0 then []
    else
      var f, step := states[k - 1].flow, steps[k - 1];
      SentLog(cfg, states, steps, k - 1) +
      if step.Produce? && step.p.Send? && step.t in f.producers && f.producers[step.t].Passed? && |f.queue| < cfg.queueSize
      then [f.producers[step.t].event] else []
  }

  ghost function TakenLog(states: seq<State>, steps: seq<Step>, k: nat): seq<Event>
    requires |states| == |steps| + 1 && k <= |steps|
  {
    if k == 0 then []
    else
      var f, step := states[k - 1].flow, steps[k - 1];
      TakenLog(states, steps, k - 1) + if step == Gate(Take) && f.queue != [] then [f.queue[0]] else []
  }

  lemma StepMovesQueue(cfg: Config, s: State, step: Step)
    requires Enabled(s, step) && |s.flow.queue| <= cfg.queueSize
    ensures var queue := Next(cfg, s, step).flow.queue;
            && |queue| <= cfg.queueSize
            && if step.Produce? && step.p.Send? && |s.flow.queue| < cfg.queueSize
               then queue == s.flow.queue + [s.flow.producers[step.t].event]
               else if step == Gate(Take) then s.flow.queue == [s.flow.queue[0]] + queue
               else queue == s.flow.queue
  {
    if step.Gate? && !step.g.Take? && !step.g.Drop? {
      GateOnlyMoves(cfg, s, step.g);
    } else if step.Conclude? {
      ConclusionMoves(s, step.o);
    } else if step.Record? {
      RecordOnlyMoves(cfg, s, step.r);
    } else if step.InCall? {
      CallOnlyMoves(s, step.id, step.c);
    } else if step.Control? {
      ControlOnlyMoves(s, step.m);
    }
  }

  /** The queue is a bounded first-in first-out queue: what was sent is what was taken, in that order, then the queue. */
  lemma {:induction false} QueueIsBoundedFifo(cfg: Config, states: seq<State>, steps: seq<Step>, k: nat)
    requires cfg.Valid() && IsRun(cfg, states, steps) && k <= |steps|
    ensures |states[k].flow.queue| <= cfg.queueSize
    ensures SentLog(cfg, states, steps, k) == TakenLog(states, steps, k) + states[k].flow.queue
  {
    if k > 0 {
      QueueIsBoundedFifo(cfg, states, steps, k - 1);
      assert StepAt(cfg, states, steps, k - 1);
      StepMovesQueue(cfg, states[k - 1], steps[k - 1]);
    }
  }

  /** Delivery conservation at any moment: what was accepted is queued, in hand, or has an outcome (up to events whose
      producer has sent and not yet counted them), and the counters count the outcomes. */
  lemma DeliveryConservation(cfg: Config, states: seq<State>, steps: seq<Step>, k: nat)
    requires IsRun(cfg, states, steps) && k <= |steps|
    ensures var s := states[k]; var place := s.flow.place;
            && s.books.accepted + |Senders(s.flow.producers)| ==
               |s.flow.queue| + (if Hand(s.flow.worker).Some? then 1 else 0)
               + Outcomes(place, Exported) + Outcomes(place, Panicked) + Outcomes(place, TimedOut) + Outcomes(place, Dropped)
            && s.books.exported == Outcomes(place, Exported)
            && s.books.timedOut == Outcomes(place, TimedOut)
            && s.books.dropped == s.books.entryDrops + Outcomes(place, Dropped)
  {
    RunKeepsInv(cfg, states, steps, k);
  }

  /** When Close has returned, the queue is empty and the accepted events are the sum of the outcomes. */
  lemma CloseDeliversEverything(cfg: Config, states: seq<State>, steps: seq<Step>, k: nat)
    requires IsRun(cfg, states, steps) && k <= |steps| && states[k].returned
    ensures var s := states[k]; var place := s.flow.place;
            && s.flow.queue == [] && s.flow.producers == map[]
            && s.books.accepted ==
               Outcomes(place, Exported) + Outcomes(place, Panicked) + Outcomes(place, TimedOut) + Outcomes(place, Dropped)
            && forall e :: e in place ==> place[e].TurnedAway? || place[e].Delivered?
  {
    RunKeepsInv(cfg, states, steps, k);
    var s := states[k];
    assert Senders(s.flow.producers) == {};
    forall e | e in s.flow.place ensures s.flow.place[e].TurnedAway? || s.flow.place[e].Delivered? {
      assert EventOk(s.flow, e);
      assert forall t: Thread :: !HeldBy(s.flow, t, e);
    }
  }

  lemma RunKeepsCalls(cfg: Config, states: seq<State>, steps: seq<Step>, k: nat)
    requires IsRun(cfg, states, steps) && k <= |steps|
    ensures CallsInv(states[k].calls, states[k].flow.worker)
  {
    RunKeepsInv(cfg, states, steps, k);
  }

  lemma InitialLate()
    ensures LateLedger(INITIAL)
  {
    NoLateCalls(INITIAL);
  }

  lemma {:induction false} RunKeepsLate(cfg: Config, states: seq<State>, steps: seq<Step>, k: nat)
    requires IsRun(cfg, states, steps) && k <= |steps|
    ensures LateLedger(states[k])
  {
    if k == 0 {
      InitialLate();
    } else {
      RunKeepsLate(cfg, states, steps, k - 1);
      RunKeepsCalls(cfg, states, steps, k - 1);
      assert StepAt(cfg, states, steps, k - 1);
      StepKeepsLate(cfg, states[k - 1], steps[k - 1]);
    }
  }

  /** The counters themselves exceed the accepted events by the number of calls that both timed out and panicked, whichever
      came first, so they add up exactly when there is no such call. */
  lemma CountersAddUpExactly(cfg: Config, states: seq<State>, steps: seq<Step>, k: nat)
    requires IsRun(cfg, states, steps) && k <= |steps| && states[k].returned
    ensures var b, late := states[k].books, LateCalls(states[k].calls);
            && b.accepted + |late| == b.exported + b.timedOut + b.panics + (b.dropped - b.entryDrops)
            && (b.accepted == b.exported + b.timedOut + b.panics + (b.dropped - b.entryDrops) <==> late == {})
  {
    RunKeepsInv(cfg, states, steps, k);
    RunKeepsLate(cfg, states, steps, k);
    CloseDeliversEverything(cfg, states, steps, k);
  }

  /** At most one exporter call runs at any time, hung calls included. */
  lemma OneCallAtATime(cfg: Config, states: seq<State>, steps: seq<Step>, k: nat, id: CallId, id': CallId)
    requires IsRun(cfg, states, steps) && k <= |steps|
    requires id in states[k].calls.live && id' in states[k].calls.live
    ensures id == id' && states[k].calls.slot
  {
    RunKeepsInv(cfg, states, steps, k);
    assert CallOk(states[k].calls, states[k].flow.worker, id);
  }

  /** While the breaker is open, the failures have reached the threshold exactly when the worker is not between the first
      two stores of a success; with any threshold at all, they have reached it outside that window. */
  lemma OpenMeansFailures(cfg: Config, states: seq<State>, steps: seq<Step>, k: nat)
    requires IsRun(cfg, states, steps) && k <= |steps| && states[k].breaker.openedAt != 0
    ensures !states[k].flow.worker.Closing? ==> states[k].breaker.failures >= cfg.failureThreshold
    ensures cfg.failureThreshold > 0 ==>
              (states[k].breaker.failures >= cfg.failureThreshold <==> !states[k].flow.worker.Closing?)
  {
    RunKeepsInv(cfg, states, steps, k);
  }

  /** A call is out that has yet to give `hungCalls` back. */
  ghost predicate SomeoneOwes(c: Calls) {
    exists id: CallId :: Owing(c, id)
  }

  /** `hungCalls` is the leaks, plus the call that has yet to give its share back, less the timeout whose flag is set and
      that is not yet counted. So it lies within one of the leaks: one below exactly in the window between the two
      atomics of a timeout when nothing is owed, one above exactly outside it when something is. */
  lemma HungCallsCountLeaks(cfg: Config, states: seq<State>, steps: seq<Step>, k: nat)
    requires IsRun(cfg, states, steps) && k <= |steps|
    ensures var c, w := states[k].calls, states[k].flow.worker;
            && c.hungCalls == c.leaks + (if SomeoneOwes(c) then 1 else 0) - (if w.Flagged? then 1 else 0)
            && (c.hungCalls == c.leaks - 1 <==> w.Flagged? && !SomeoneOwes(c))
            && (c.hungCalls == c.leaks + 1 <==> !w.Flagged? && SomeoneOwes(c))
            && (c.live == map[] && !w.Flagged? ==> c.hungCalls == c.leaks)
  {
    RunKeepsInv(cfg, states, steps, k);
    var c := states[k].calls;
    if id: CallId :| Owing(c, id) {
      assert CallOk(c, states[k].flow.worker, id);
    }
  }

  ghost predicate Settled(f: Flow, e: Event) {
    e in f.place && (f.place[e].Delivered? || f.place[e].TurnedAway?)
  }

  lemma ProducerKeepsOutcome(cfg: Config, s: State, t: Thread, p: ProducerStep, e: Event)
    requires EventOk(s.flow, e) && CanProduce(s, t, p) && Settled(s.flow, e)
    ensures var place := Produced(cfg, s, t, p).flow.place; e in place && place[e] == s.flow.place[e]
  {
    if !p.Enter? && !p.Accept? {
      assert HeldBy(s.flow, t, s.flow.producers[t].event);
    }
  }

  lemma StepKeepsOutcome(cfg: Config, s: State, step: Step, e: Event)
    requires EventOk(s.flow, e) && Enabled(s, step) && Settled(s.flow, e)
    ensures var place := Next(cfg, s, step).flow.place; e in place && place[e] == s.flow.place[e]
  {
    if step.Produce? {
      ProducerKeepsOutcome(cfg, s, step.t, step.p, e);
    } else if step.Gate? && !step.g.Take? && !step.g.Drop? {
      GateOnlyMoves(cfg, s, step.g);
    } else if step.Conclude? {
      ConclusionMoves(s, step.o);
    } else if step.Record? {
      RecordOnlyMoves(cfg, s, step.r);
    } else if step.InCall? {
      CallOnlyMoves(s, step.id, step.c);
    } else if step.Control? {
      ControlOnlyMoves(s, step.m);
    }
  }

  /** An outcome is final: no later step moves the event or changes what became of it. */
  lemma {:induction false} OutcomeIsFinal(cfg: Config, states: seq<State>, steps: seq<Step>, i: nat, j: nat, e: Event)
    requires IsRun(cfg, states, steps) && i <= j <= |steps|
    requires Settled(states[i].flow, e)
    ensures Settled(states[j].flow, e) && states[j].flow.place[e] == states[i].flow.place[e]
  {
    if i < j {
      OutcomeIsFinal(cfg, states, steps, i, j - 1, e);
      EventIsInOnePlace(cfg, states, steps, j - 1, e);
      assert StepAt(cfg, states, steps, j - 1);
      StepKeepsOutcome(cfg, states[j - 1], steps[j - 1], e);
    }
  }

  // ------------------------------------------------------------ the cooldown

  /** The worker has let no event by since time `t`: any opening time it has loaded is no earlier. */
  predicate Quiet(w: Worker, t: int) {
    w.Waiting? || w.Delivering? || w.Dropping? || w.Exited? || (w.Loaded? && w.at >= t)
  }

  /** The store of a forced probe that closes the breaker. */
  predicate ForcesClosed(step: Step) {
    step == Control(ForceClosed)
  }

  predicate IsForce(step: Step) {
    step == Control(ForceClosed) || step == Control(ForceProbe)
  }

  /** The cooldown that began at `t` has passed, or the breaker has stayed open since and the worker has let no event by. */
  ghost predicate Cooling(cfg: Config, s: State, t: int) {
    s.clock >= t + cfg.cooldown || (s.breaker.openedAt >= t > 0 && Quiet(s.flow.worker, t))
  }

  lemma GateKeepsCooling(cfg: Config, s: State, g: GateStep, t: int)
    requires Cooling(cfg, s, t) && CanPass(s, g)
    ensures Cooling(cfg, Gated(cfg, s, g), t)
  {
  }

  lemma StepKeepsCooling(cfg: Config, s: State, step: Step, t: int)
    requires Cooling(cfg, s, t) && Enabled(s, step) && !ForcesClosed(step)
    ensures Cooling(cfg, Next(cfg, s, step), t)
  {
    if step.Produce? {
      ProducerKeepsRest(cfg, s, step.t, step.p);
    } else if step.Gate? {
      GateKeepsCooling(cfg, s, step.g, t);
    }
  }

  lemma {:induction false} RunKeepsCooling(cfg: Config, states: seq<State>, steps: seq<Step>, i: nat, j: nat, t: int)
    requires IsRun(cfg, states, steps) && i <= j <= |steps| && Cooling(cfg, states[i], t)
    requires forall k :: i <= k < j ==> !ForcesClosed(steps[k])
    ensures Cooling(cfg, states[j], t)
  {
    if i < j {
      RunKeepsCooling(cfg, states, steps, i, j - 1, t);
      assert StepAt(cfg, states, steps, j - 1);
      StepKeepsCooling(cfg, states[j - 1], steps[j - 1], t);
    }
  }

  /** Breaker safety over whole runs: if step `i` stores the opening time `t` and a later step `j` starts an exporter
      call, then the full cooldown has passed since `t`, unless a forced probe stored the breaker closed in between. */
  lemma NoCallBeforeCooldown(cfg: Config, states: seq<State>, steps: seq<Step>, i: nat, j: nat, t: int)
    requires IsRun(cfg, states, steps) && i < j < |steps|
    requires steps[i] == Record(StoreOpen) && states[i].flow.worker == Opening(t) && states[i + 1].breaker.openedAt == t
    requires steps[j] == Gate(TakeSlot) && !states[j].calls.slot
    requires forall k :: i < k < j ==> !ForcesClosed(steps[k])
    ensures states[j].clock >= t + cfg.cooldown
  {
    RunKeepsBreaker(cfg, states, steps, i);
    assert StepAt(cfg, states, steps, i);
    OpeningCools(cfg, states[i], t);
    RunKeepsCooling(cfg, states, steps, i + 1, j, t);
    assert StepAt(cfg, states, steps, j);
  }

  lemma OpeningCools(cfg: Config, s: State, t: int)
    requires s.flow.worker == Opening(t) && BreakerInv(cfg, s.breaker, s.flow.worker)
    ensures var s' := Recorded(cfg, s, StoreOpen);
            && (s'.breaker.openedAt == t ==> Cooling(cfg, s', t))
            && (s'.breaker.openedAt == t || s.breaker.openedAt == 0)
            && (s'.breaker.openedAt != 0 <==> s.breaker.failures >= cfg.failureThreshold)
  {
  }

  /** One failed probe re-arms the breaker: recording a failure while it is open moves its opening time to the time of that
      failure; and recording a failure leaves it open exactly when the failures have reached the threshold. */
  lemma FailedProbeRearms(cfg: Config, states: seq<State>, steps: seq<Step>, i: nat, t: int)
    requires IsRun(cfg, states, steps) && i < |steps|
    requires steps[i] == Record(StoreOpen) && states[i].flow.worker == Opening(t)
    ensures states[i + 1].breaker.openedAt == t || states[i].breaker.openedAt == 0
    ensures states[i + 1].breaker.openedAt != 0 <==> states[i].breaker.failures >= cfg.failureThreshold
  {
    RunKeepsBreaker(cfg, states, steps, i);
    assert StepAt(cfg, states, steps, i);
    OpeningCools(cfg, states[i], t);
  }

  // ----------------------------------------------------- when delivery stops

  /** Leaked hung calls fill the limit and the worker is not past the gate that checks it. */
  ghost predicate Starved(cfg: Config, s: State) {
    s.calls.leaks >= cfg.maxHungCalls && !s.flow.worker.Ready?
  }

  /** No delivery is under way that could give the half-open flag back. */
  predicate Parked(w: Worker) {
    w.Waiting? || w.Delivering? || w.Loaded? || w.Probing? || w.Dropping? || w.Exited?
  }

  /** The breaker is open with its half-open flag taken for good. */
  ghost predicate Blocked(s: State) {
    s.breaker.openedAt != 0 && s.breaker.halfOpen && Parked(s.flow.worker)
  }

  lemma GateKeepsStarved(cfg: Config, s: State, g: GateStep)
    requires Starved(cfg, s) && s.calls.hungCalls + Pending(s.flow.worker) >= s.calls.leaks && CanPass(s, g)
    ensures Starved(cfg, Gated(cfg, s, g)) && Gated(cfg, s, g).calls.next == s.calls.next
  {
  }

  lemma ConclusionKeepsStarved(cfg: Config, s: State, o: OutcomeStep)
    requires Starved(cfg, s) && CanConclude(s, o)
    ensures Starved(cfg, Concluded(s, o)) && Concluded(s, o).calls.next == s.calls.next
  {
  }

  lemma CallKeepsStarved(cfg: Config, s: State, id: CallId, step: CallStep)
    requires Starved(cfg, s) && CanCall(s.calls, id, step)
    ensures Starved(cfg, AfterCall(s, id, step)) && AfterCall(s, id, step).calls.next == s.calls.next
  {
  }

  lemma RecordKeepsStarved(cfg: Config, s: State, r: RecordStep)
    requires Starved(cfg, s) && CanRecord(s, r)
    ensures Starved(cfg, Recorded(cfg, s, r)) && Recorded(cfg, s, r).calls.next == s.calls.next
  {
  }

  lemma StepKeepsStarved(cfg: Config, s: State, step: Step)
    requires Starved(cfg, s) && s.calls.hungCalls + Pending(s.flow.worker) >= s.calls.leaks && Enabled(s, step)
    ensures Starved(cfg, Next(cfg, s, step)) && Next(cfg, s, step).calls.next == s.calls.next
  {
    if step.Produce? {
      ProducerKeepsRest(cfg, s, step.t, step.p);
    } else if step.Gate? {
      GateKeepsStarved(cfg, s, step.g);
    } else if step.Conclude? {
      ConclusionKeepsStarved(cfg, s, step.o);
    } else if step.InCall? {
      CallKeepsStarved(cfg, s, step.id, step.c);
    } else if step.Record? {
      RecordKeepsStarved(cfg, s, step.r);
    }
  }

  lemma GateKeepsBlocked(cfg: Config, s: State, g: GateStep)
    requires Blocked(s) && CanPass(s, g)
    ensures Blocked(Gated(cfg, s, g)) && Gated(cfg, s, g).calls.next == s.calls.next
  {
  }

  lemma StepKeepsBlocked(cfg: Config, s: State, step: Step)
    requires Blocked(s) && Enabled(s, step) && !IsForce(step)
    ensures Blocked(Next(cfg, s, step)) && Next(cfg, s, step).calls.next == s.calls.next
  {
    if step.Produce? {
      ProducerKeepsRest(cfg, s, step.t, step.p);
    } else if step.Gate? {
      GateKeepsBlocked(cfg, s, step.g);
    }
  }

  /** Once leaks fill the hung-call limit no exporter call is ever started again: the worker alone reads the limit, and
      never between the two atomics of a timeout. */
  lemma {:induction false} StarvedForever(cfg: Config, states: seq<State>, steps: seq<Step>, i: nat, j: nat)
    requires IsRun(cfg, states, steps) && i <= j <= |steps| && Starved(cfg, states[i])
    ensures Starved(cfg, states[j]) && states[j].calls.next == states[i].calls.next
  {
    if i < j {
      StarvedForever(cfg, states, steps, i, j - 1);
      HungCallsCountLeaks(cfg, states, steps, j - 1);
      assert StepAt(cfg, states, steps, j - 1);
      StepKeepsStarved(cfg, states[j - 1], steps[j - 1]);
    }
  }

  /** A blocked breaker stays blocked, and no exporter call is started, until a forced probe stores something. */
  lemma {:induction false} BlockedUntilForced(cfg: Config, states: seq<State>, steps: seq<Step>, i: nat, j: nat)
    requires IsRun(cfg, states, steps) && i <= j <= |steps| && Blocked(states[i])
    requires forall k :: i <= k < j ==> !IsForce(steps[k])
    ensures Blocked(states[j]) && states[j].calls.next == states[i].calls.next
  {
    if i < j {
      BlockedUntilForced(cfg, states, steps, i, j - 1);
      assert StepAt(cfg, states, steps, j - 1);
      StepKeepsBlocked(cfg, states[j - 1], steps[j - 1]);
    }
  }

  lemma GateBlocksExactly(cfg: Config, s: State, g: GateStep)
    requires CanPass(s, g) && !Blocked(s)
    ensures Blocked(Gated(cfg, s, g)) <==>
            g.SeeLimit? && s.calls.hungCalls >= cfg.maxHungCalls && s.breaker.openedAt != 0 && s.breaker.halfOpen
  {
  }

  lemma RecordDoesNotBlock(cfg: Config, s: State, r: RecordStep)
    requires CanRecord(s, r) && BreakerInv(cfg, s.breaker, s.flow.worker)
    ensures !Blocked(Recorded(cfg, s, r))
  {
  }

  lemma ConclusionDoesNotBlock(s: State, o: OutcomeStep)
    requires CanConclude(s, o) && !Blocked(s)
    ensures !Blocked(Concluded(s, o))
  {
  }

  lemma CallDoesNotBlock(s: State, id: CallId, step: CallStep)
    requires CanCall(s.calls, id, step) && !Blocked(s)
    ensures !Blocked(AfterCall(s, id, step))
  {
  }

  /** The breaker becomes blocked at exactly one kind of step: a half-open probe turned away at the hung-call limit. */
  lemma BlockedExactlyByHungProbe(cfg: Config, states: seq<State>, steps: seq<Step>, i: nat)
    requires IsRun(cfg, states, steps) && i < |steps| && !Blocked(states[i])
    ensures Blocked(states[i + 1]) <==>
            && steps[i] == Gate(SeeLimit) && states[i].calls.hungCalls >= cfg.maxHungCalls
            && states[i].breaker.openedAt != 0 && states[i].breaker.halfOpen
  {
    RunKeepsBreaker(cfg, states, steps, i);
    assert StepAt(cfg, states, steps, i);
    StepBlocksExactly(cfg, states[i], steps[i]);
  }

  lemma StepBlocksExactly(cfg: Config, s: State, step: Step)
    requires Enabled(s, step) && BreakerInv(cfg, s.breaker, s.flow.worker) && !Blocked(s)
    ensures Blocked(Next(cfg, s, step)) <==>
            step == Gate(SeeLimit) && s.calls.hungCalls >= cfg.maxHungCalls && s.breaker.openedAt != 0 && s.breaker.halfOpen
  {
    if step.Produce? {
      ProducerKeepsRest(cfg, s, step.t, step.p);
    } else if step.Gate? {
      GateBlocksExactly(cfg, s, step.g);
    } else if step.Record? {
      RecordDoesNotBlock(cfg, s, step.r);
    } else if step.Conclude? {
      ConclusionDoesNotBlock(s, step.o);
    } else if step.InCall? {
      CallDoesNotBlock(s, step.id, step.c);
    }
  }

  // ------------------------------------------------------- runs that show it

  lemma Extend(cfg: Config, states: seq<State>, steps: seq<Step>, step: Step, after: State)
    returns (states': seq<State>, steps': seq<Step>)
    requires IsRun(cfg, states, steps)
    requires Enabled(states[|steps|], step) && after == Next(cfg, states[|steps|], step)
    ensures states' == states + [after] && steps' == steps + [step]
    ensures IsRun(cfg, states', steps') && states'[|steps'|] == after
  {
    states', steps' := states + [after], steps + [step];
    forall k | 0 <= k < |steps'| ensures StepAt(cfg, states', steps', k) {
      if k < |steps| {
        assert StepAt(cfg, states, steps, k);
      }
    }
  }

  /** How far the admission checks at `now` let a producer. */
  function Checked(cfg: Config, s: State, e: Event, paused: bool, now: int): Producer {
    if paused || s.calls.hungCalls >= cfg.maxHungCalls then Rejecting(e)
    else if s.breaker.openedAt == 0 || now - s.breaker.openedAt >= cfg.cooldown then Passed(e)
    else Rejecting(e)
  }

  /** A producer gets past the error budget and the hung-call limit, or is about to count a drop. */
  lemma PassesLimits(cfg: Config, states: seq<State>, steps: seq<Step>, s: State, t: Thread, e: Event, paused: bool)
    returns (states': seq<State>, steps': seq<Step>)
    requires IsRun(cfg, states, steps) && states[|steps|] == s
    requires !s.closed && t !in s.flow.producers && e !in s.flow.place
    ensures IsRun(cfg, states', steps')
    ensures states'[|steps'|] == Hold(s.(flow := EnterFlow(s.flow, t, e)), t,
                                      if paused || s.calls.hungCalls >= cfg.maxHungCalls then Rejecting(e) else Unhung(e))
  {
    var s1 := s.(flow := EnterFlow(s.flow, t, e));
    states', steps' := Extend(cfg, states, steps, Produce(t, Enter(e)), s1);
    var s2 := Hold(s1, t, if paused then Rejecting(e) else Funded(e));
    states', steps' := Extend(cfg, states', steps', Produce(t, Budget(paused)), s2);
    if !paused {
      states', steps' := PassesHung(cfg, states', steps', s1, t, e);
    }
  }

  lemma PassesHung(cfg: Config, states: seq<State>, steps: seq<Step>, s: State, t: Thread, e: Event)
    returns (states': seq<State>, steps': seq<Step>)
    requires IsRun(cfg, states, steps) && states[|steps|] == Hold(s, t, Funded(e))
    ensures IsRun(cfg, states', steps')
    ensures states'[|steps'|] == Hold(s, t, if s.calls.hungCalls >= cfg.maxHungCalls then Rejecting(e) else Unhung(e))
  {
    var s1 := Hold(s, t, if s.calls.hungCalls >= cfg.maxHungCalls then Rejecting(e) else Unhung(e));
    assert s1.flow.producers == Hold(s, t, Funded(e)).flow.producers[t := s1.flow.producers[t]];
    states', steps' := Extend(cfg, states, steps, Produce(t, SeeHung), s1);
  }

  /** A producer's admission checks from beginning to end, with the clock at `now`. */
  lemma PassesChecks(cfg: Config, states: seq<State>, steps: seq<Step>, s: State, t: Thread, e: Event, paused: bool, now: int)
    returns (states': seq<State>, steps': seq<Step>, clock: int)
    requires IsRun(cfg, states, steps) && states[|steps|] == s && now >= s.clock
    requires !s.closed && t !in s.flow.producers && e !in s.flow.place
    ensures IsRun(cfg, states', steps') && s.clock <= clock <= now
    ensures s.breaker.openedAt == 0 ==> clock == s.clock
    ensures states'[|steps'|] == Hold(s.(flow := EnterFlow(s.flow, t, e)), t, Checked(cfg, s, e, paused, now)).(clock := clock)
  {
    clock := s.clock;
    states', steps' := PassesLimits(cfg, states, steps, s, t, e, paused);
    if !paused && s.calls.hungCalls < cfg.maxHungCalls {
      states', steps', clock := PassesOpening(cfg, states', steps', states'[|steps'|], t, e, now);
      assert states'[|steps'|].flow.producers == EnterFlow(s.flow, t, e).producers[t := Checked(cfg, s, e, paused, now)];
    }
  }

  /** The load of the opening time and, if the breaker is open, the reading of the clock. */
  lemma PassesOpening(cfg: Config, states: seq<State>, steps: seq<Step>, s: State, t: Thread, e: Event, now: int)
    returns (states': seq<State>, steps': seq<Step>, clock: int)
    requires IsRun(cfg, states, steps) && states[|steps|] == s && now >= s.clock
    requires t in s.flow.producers && s.flow.producers[t] == Unhung(e)
    ensures IsRun(cfg, states', steps') && clock == if s.breaker.openedAt == 0 then s.clock else now
    ensures var passes := s.breaker.openedAt == 0 || now - s.breaker.openedAt >= cfg.cooldown;
            states'[|steps'|] == Hold(s, t, if passes then Passed(e) else Rejecting(e)).(clock := clock)
  {
    var at := s.breaker.openedAt;
    if at == 0 {
      clock := s.clock;
      states', steps' := Extend(cfg, states, steps, Produce(t, LoadOpening), Hold(s, t, Passed(e)));
    } else {
      clock := now;
      var s1 := Hold(s, t, Measuring(e, at));
      states', steps' := Extend(cfg, states, steps, Produce(t, LoadOpening), s1);
      var s2 := Hold(s1, t, if now - at >= cfg.cooldown then Passed(e) else Rejecting(e)).(clock := now);
      states', steps' := Extend(cfg, states', steps', Produce(t, ReadClock(now)), s2);
      assert s2.flow.producers == s.flow.producers[t := s2.flow.producers[t]];
    }
  }

  /** A producer's event gets into the queue. */
  lemma SendsEvent(cfg: Config, states: seq<State>, steps: seq<Step>, s: State, t: Thread, e: Event)
    returns (states': seq<State>, steps': seq<Step>)
    requires IsRun(cfg, states, steps) && states[|steps|] == s
    requires !s.closed && t !in s.flow.producers && e !in s.flow.place && |s.flow.queue| < cfg.queueSize
    requires s.calls.hungCalls < cfg.maxHungCalls && s.breaker.openedAt == 0
    ensures IsRun(cfg, states', steps')
    ensures states'[|steps'|] == s.(flow := PushFlow(s.flow, t, e), books := s.books.(sent := s.books.sent + 1))
  {
    var clock;
    states', steps', clock := PassesChecks(cfg, states, steps, s, t, e, false, s.clock);
    var s1 := states'[|steps'|];
    var s2 := SendStep(cfg, s1, t, e);
    states', steps' := Extend(cfg, states', steps', Produce(t, Send), s2);
    assert s2.flow.producers == PushFlow(s.flow, t, e).producers;
    assert s2.flow.place == PushFlow(s.flow, t, e).place;
  }

  /** The worker's call times out, with the goroutine wherever it is. */
  lemma TimesOut(cfg: Config, states: seq<State>, steps: seq<Step>, s: State, e: Event, id: CallId)
    returns (states': seq<State>, steps': seq<Step>)
    requires IsRun(cfg, states, steps) && states[|steps|] == s && s.flow.worker == Calling(e, id)
    ensures IsRun(cfg, states', steps')
    ensures states'[|steps'|] == CountTimedOutStep(CountHungStep(FlagStep(s, e, id), e), e)
  {
    var s1 := FlagStep(s, e, id);
    states', steps' := Extend(cfg, states, steps, Conclude(Flag), s1);
    var s2 := CountHungStep(s1, e);
    states', steps' := Extend(cfg, states', steps', Conclude(CountHung), s2);
    states', steps' := Extend(cfg, states', steps', Conclude(CountTimedOut), CountTimedOutStep(s2, e));
  }

  /** What recording a failure at `now` does to the breaker. */
  function FailedBreaker(cfg: Config, b: Breaker, now: int): Breaker {
    b.(failures := b.failures + 1, halfOpen := false, openedAt := if b.failures + 1 >= cfg.failureThreshold then now else b.openedAt)
  }

  lemma RecordsFailure(cfg: Config, states: seq<State>, steps: seq<Step>, s: State, now: int)
    returns (states': seq<State>, steps': seq<Step>)
    requires IsRun(cfg, states, steps) && states[|steps|] == s && s.flow.worker == Failing && now >= s.clock && now > 0
    ensures IsRun(cfg, states', steps')
    ensures states'[|steps'|] == MoveWorker(s, Waiting).(breaker := FailedBreaker(cfg, s.breaker, now), clock := now)
  {
    var b := s.breaker;
    var s1 := MoveWorker(s, Failed(now)).(clock := now);
    states', steps' := Extend(cfg, states, steps, Record(StartFailure(now)), s1);
    var s2 := MoveWorker(s1, Counted(now)).(breaker := b.(failures := b.failures + 1));
    states', steps' := Extend(cfg, states', steps', Record(Count), s2);
    var s3 := MoveWorker(s2, Opening(now)).(breaker := s2.breaker.(halfOpen := false));
    states', steps' := Extend(cfg, states', steps', Record(ClearFailed), s3);
    var s4 := MoveWorker(s3, Waiting).(breaker := FailedBreaker(cfg, b, now));
    states', steps' := Extend(cfg, states', steps', Record(StoreOpen), s4);
  }

  lemma RecordsSuccess(cfg: Config, states: seq<State>, steps: seq<Step>, s: State)
    returns (states': seq<State>, steps': seq<Step>)
    requires IsRun(cfg, states, steps) && states[|steps|] == s && s.flow.worker == Succeeding
    ensures IsRun(cfg, states', steps')
    ensures states'[|steps'|] == MoveWorker(s, Waiting).(breaker := s.breaker.(failures := 0, openedAt := 0, halfOpen := false))
  {
    var s1 := MoveWorker(s, Closing).(breaker := s.breaker.(failures := 0));
    states', steps' := Extend(cfg, states, steps, Record(Reset), s1);
    var s2 := MoveWorker(s1, Clearing).(breaker := s1.breaker.(openedAt := 0));
    states', steps' := Extend(cfg, states', steps', Record(StoreClosed), s2);
    var s3 := MoveWorker(s2, Waiting).(breaker := s2.breaker.(halfOpen := false));
    states', steps' := Extend(cfg, states', steps', Record(ClearProbe), s3);
  }

  /** What `allowDelivery` at `now` leaves: the worker let by, or about to count a drop. */
  function AfterBreaker(cfg: Config, s: State, e: Event, now: int): State {
    if s.breaker.openedAt == 0 then MoveWorker(s, Allowed(e))
    else if now - s.breaker.openedAt < cfg.cooldown then MoveWorker(s, Dropping(e)).(clock := now)
    else ProbeStep(MoveWorker(s, Probing(e)).(clock := now), e)
  }

  lemma PassesBreaker(cfg: Config, states: seq<State>, steps: seq<Step>, s: State, e: Event, now: int)
    returns (states': seq<State>, steps': seq<Step>)
    requires IsRun(cfg, states, steps) && states[|steps|] == s && s.flow.worker == Delivering(e) && now >= s.clock
    ensures IsRun(cfg, states', steps') && states'[|steps'|] == AfterBreaker(cfg, s, e, now)
  {
    if s.breaker.openedAt == 0 {
      states', steps' := Extend(cfg, states, steps, Gate(Load), MoveWorker(s, Allowed(e)));
    } else {
      var s1 := MoveWorker(s, Loaded(e, s.breaker.openedAt));
      states', steps' := Extend(cfg, states, steps, Gate(Load), s1);
      states', steps' := PassesOpenBreaker(cfg, states', steps', s1, e, now);
    }
  }

  lemma PassesOpenBreaker(cfg: Config, states: seq<State>, steps: seq<Step>, s: State, e: Event, now: int)
    returns (states': seq<State>, steps': seq<Step>)
    requires IsRun(cfg, states, steps) && states[|steps|] == s && now >= s.clock
    requires s.breaker.openedAt != 0 && s.flow.worker == Loaded(e, s.breaker.openedAt)
    ensures IsRun(cfg, states', steps') && states'[|steps'|] == AfterBreaker(cfg, s, e, now)
  {
    var passed := now - s.breaker.openedAt >= cfg.cooldown;
    var s1 := MoveWorker(s, if passed then Probing(e) else Dropping(e)).(clock := now);
    states', steps' := Extend(cfg, states, steps, Gate(Clock(now)), s1);
    if passed {
      states', steps' := Extend(cfg, states', steps', Gate(Probe), ProbeStep(s1, e));
    }
  }

  /** The limit is not reached, but the slot is taken: the half-open flag is given back and the event dropped. */
  lemma BacksOff(cfg: Config, states: seq<State>, steps: seq<Step>, s: State, e: Event)
    returns (states': seq<State>, steps': seq<Step>)
    requires IsRun(cfg, states, steps) && states[|steps|] == s && s.flow.worker == Ready(e) && s.calls.slot
    ensures IsRun(cfg, states', steps')
    ensures states'[|steps'|] == MoveWorker(s, Dropping(e)).(breaker := s.breaker.(halfOpen := false))
  {
    var s1 := MoveWorker(s, BackingOff(e));
    states', steps' := Extend(cfg, states, steps, Gate(TakeSlot), s1);
    states', steps' := Extend(cfg, states', steps', Gate(BackOff), MoveWorker(s1, Dropping(e)).(breaker := s.breaker.(halfOpen := false)));
  }

  /** What a call leaves that has run to its end with its timeout flag clear. */
  function AfterWholeCall(s: State, id: CallId, panicked: bool): State {
    s.(calls := s.calls.(slot := false, live := s.calls.live - {id}, results := s.calls.results[id := panicked]),
       books := if panicked then s.books.(panics := s.books.panics + 1) else s.books)
  }

  lemma RunsCall(cfg: Config, states: seq<State>, steps: seq<Step>, s: State, id: CallId, panicked: bool)
    returns (states': seq<State>, steps': seq<Step>)
    requires IsRun(cfg, states, steps) && states[|steps|] == s
    requires id in s.calls.live && s.calls.live[id] == Running && id !in s.calls.abandoned
    ensures IsRun(cfg, states', steps') && states'[|steps'|] == AfterWholeCall(s, id, panicked)
  {
    var s1 := ReturnStep(s, id, panicked);
    states', steps' := Extend(cfg, states, steps, InCall(id, Return(panicked)), s1);
    var s2 := s1.(calls := PostResult(s1.calls, id, panicked));
    states', steps' := Extend(cfg, states', steps', InCall(id, Post), s2);
    var s3 := s2.(calls := LookAtFlag(s2.calls, id));
    states', steps' := Extend(cfg, states', steps', InCall(id, Look), s3);
    var s4 := s3.(calls := FreeSlot(s3.calls, id));
    states', steps' := Extend(cfg, states', steps', InCall(id, Free), s4);
    assert s4.calls.live == s.calls.live - {id};
  }

  lemma FinishClose(cfg: Config, states: seq<State>, steps: seq<Step>, s: State)
    returns (states': seq<State>, steps': seq<Step>)
    requires IsRun(cfg, states, steps) && states[|steps|] == s
    requires !s.closed && s.flow.producers == map[] && s.flow.queue == [] && s.flow.worker == Waiting
    ensures IsRun(cfg, states', steps') && states'[|steps'|].returned && states'[|steps'|].books == s.books
  {
    var s1 := s.(closed := true);
    states', steps' := Extend(cfg, states, steps, Control(BeginClose), s1);
    var s2 := s1.(draining := true);
    states', steps' := Extend(cfg, states', steps', Control(SeeDone), s2);
    var s3 := MoveWorker(s2, Exited);
    states', steps' := Extend(cfg, states', steps', Control(DrainEnd), s3);
    states', steps' := Extend(cfg, states', steps', Control(EndClose), s3.(returned := true));
  }

  /** Event 0 is in the exporter's hands, called as call 0. */
  ghost function FirstCall(): State {
    State(Flow([], map[], Calling(0, 0), map[0 := InHand]), Books(1, 0, 0, 0, 0, 1, 0, 0),
          Calls(true, map[0 := Running], map[], {}, 1, 0, 0), Breaker(0, 0, false, 0), false, false, false, 0)
  }

  lemma ReachFirstCall(cfg: Config) returns (states: seq<State>, steps: seq<Step>)
    requires cfg.Valid()
    ensures IsRun(cfg, states, steps) && states[|steps|] == FirstCall()
  {
    states, steps := SendsEvent(cfg, [INITIAL], [], INITIAL, 0, 0);
    var s1 := states[|steps|];
    assert s1.flow.queue == [0] && s1.flow.producers == map[0 := Sent] && s1.flow.place == map[0 := Queued];
    assert s1.flow.producers - {0} == map[];
    var s2 := s1.(flow := Flow([0], map[], Waiting, map[0 := Queued]), books := Books(1, 0, 0, 0, 0, 1, 0, 0));
    states, steps := Extend(cfg, states, steps, Produce(0, Accept), s2);
    var s3 := s2.(flow := Flow([], map[], Delivering(0), map[0 := InHand]));
    states, steps := Extend(cfg, states, steps, Gate(Take), s3);
    var s4 := MoveWorker(s3, Allowed(0));
    states, steps := Extend(cfg, states, steps, Gate(Load), s4);
    var s5 := MoveWorker(s4, Ready(0));
    states, steps := Extend(cfg, states, steps, Gate(SeeLimit), s5);
    states, steps := Extend(cfg, states, steps, Gate(TakeSlot), FirstCall());
  }

  /** A panic of a timed-out call does happen: one accepted event, and after Close both a timeout and a panic on the
      books. */
  lemma LatePanicIsCountedTwice(cfg: Config) returns (states: seq<State>, steps: seq<Step>)
    requires cfg.Valid()
    ensures IsRun(cfg, states, steps) && states[|steps|].returned
    ensures var b := states[|steps|].books; b.accepted == 1 && b.timedOut == 1 && b.panics == 1
  {
    states, steps := ReachFirstCall(cfg);
    states, steps := TimesOut(cfg, states, steps, FirstCall(), 0, 0);
    var s1 := ReturnStep(states[|steps|], 0, true);
    states, steps := Extend(cfg, states, steps, InCall(0, Return(true)), s1);
    states, steps := RecordsFailure(cfg, states, steps, s1, 1);
    states, steps := FinishClose(cfg, states, steps, states[|steps|]);
  }

  /** The call posts its result. */
  lemma Posts(cfg: Config, states: seq<State>, steps: seq<Step>, s: State)
    returns (states': seq<State>, steps': seq<Step>)
    requires IsRun(cfg, states, steps) && states[|steps|] == s && 0 in s.calls.live && s.calls.live[0] == Running
    ensures IsRun(cfg, states', steps')
    ensures states'[|steps'|] == s.(calls := PostResult(s.calls, 0, false))
  {
    var s1 := ReturnStep(s, 0, false);
    states', steps' := Extend(cfg, states, steps, InCall(0, Return(false)), s1);
    var s2 := s1.(calls := PostResult(s1.calls, 0, false));
    states', steps' := Extend(cfg, states', steps', InCall(0, Post), s2);
    assert s2.calls.live == PostResult(s.calls, 0, false).live;
  }

  /** With the default limit of one, a timeout taken just after its call looked at the flag starves the exporter for good. */
  lemma StarvationIsReachable(cfg: Config) returns (states: seq<State>, steps: seq<Step>)
    requires cfg.Valid() && cfg.maxHungCalls == 1
    ensures IsRun(cfg, states, steps) && Starved(cfg, states[|steps|]) && states[|steps|].calls.live == map[]
  {
    states, steps := ReachFirstCall(cfg);
    states, steps := Posts(cfg, states, steps, FirstCall());
    var s1 := states[|steps|];
    var s2 := s1.(calls := LookAtFlag(s1.calls, 0));
    states, steps := Extend(cfg, states, steps, InCall(0, Look), s2);
    var s3 := s2.(calls := FreeSlot(s2.calls, 0));
    states, steps := Extend(cfg, states, steps, InCall(0, Free), s3);
    assert s3.calls.live == map[];
    states, steps := Extend(cfg, states, steps, Conclude(Flag), FlagStep(s3, 0, 0));
  }

  /** Between the two atomics of a timeout the call may give back what was not yet added: `hungCalls` is then negative. */
  lemma HungCallsCanBeNegative(cfg: Config) returns (states: seq<State>, steps: seq<Step>)
    requires cfg.Valid()
    ensures IsRun(cfg, states, steps) && states[|steps|].calls.hungCalls == -1
  {
    states, steps := ReachFirstCall(cfg);
    var s1 := FlagStep(FirstCall(), 0, 0);
    states, steps := Extend(cfg, states, steps, Conclude(Flag), s1);
    states, steps := Posts(cfg, states, steps, s1);
    var s2 := states[|steps|];
    var s3 := s2.(calls := LookAtFlag(s2.calls, 0));
    states, steps := Extend(cfg, states, steps, InCall(0, Look), s3);
    states, steps := Extend(cfg, states, steps, InCall(0, GiveBack), s3.(calls := GiveBackHung(s3.calls, 0)));
  }
}
