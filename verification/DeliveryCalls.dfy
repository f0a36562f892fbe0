/** What every step of the governed exporter keeps about exporter calls, panics, the breaker and closing. */
module DeliveryCalls {
  import opened GoStrings
  import opened Delivery
  import opened DeliveryBooks

  // ------------------------------------------------------ exporter calls

  /** The call's goroutine still has to give its share of `hungCalls` back. */
  ghost predicate Owing(c: Calls, id: CallId) {
    id in c.live && id in c.abandoned && !c.live[id].Freeing?
  }

  /** The worker has set the timeout flag and not yet counted `hungCalls` up. */
  function Pending(w: Worker): int {
    if w.Flagged? then 1 else 0
  }

  ghost predicate CallOk(c: Calls, w: Worker, id: CallId) {
    && (id in c.live ==> c.slot && id < c.next)
    && (id in c.results || id in c.abandoned ==> id < c.next)
    && (id in c.live ==> (id in c.results <==> !c.live[id].Running? && !c.live[id].Returned?))
    && (id in c.live && c.live[id].Owes? ==> id in c.abandoned)
    && (id in c.live && id !in c.results && id !in c.abandoned ==> w.Calling? && w.id == id)
    && (w.Calling? && id in c.live ==> id == w.id)
    && (Owing(c, id) ==> c.hungCalls + Pending(w) == c.leaks + 1)
  }

  /** At most one exporter call is live, it holds the slot, and `hungCalls`, with what the worker has yet to add, is the
      leaks with what the call has yet to give back. */
  ghost predicate CallsInv(c: Calls, w: Worker) {
    && (forall id: CallId :: CallOk(c, w, id))
    && (forall id, id' :: id in c.live && id' in c.live ==> id == id')
    && (c.slot ==> exists id :: id in c.live)
    && (w.Calling? ==> w.id < c.next && w.id !in c.abandoned && (w.id in c.live || w.id in c.results))
    && (w.Flagged? ==> w.id in c.abandoned)
    && ((forall id: CallId :: !Owing(c, id)) ==> c.hungCalls + Pending(w) == c.leaks)
  }

  lemma WorkerKeepsCalls(c: Calls, w: Worker, w': Worker)
    requires CallsInv(c, w) && Pending(w) == Pending(w')
    requires w.Calling? ==> w' == w || w.id in c.results
    requires w'.Calling? || w'.Flagged? ==> w' == w
    ensures CallsInv(c, w')
  {
    forall id: CallId ensures CallOk(c, w', id) { assert CallOk(c, w, id); }
  }

  lemma StartKeepsCalls(c: Calls, w: Worker, e: Event)
    requires CallsInv(c, w) && !c.slot && Pending(w) == 0
    ensures CallsInv(StartCall(c), Calling(e, c.next))
  {
    var c', w' := StartCall(c), Calling(e, c.next);
    assert CallOk(c, w, c.next);
    forall id: CallId ensures CallOk(c', w', id) && (id in c'.live ==> id == c.next) && Owing(c', id) == Owing(c, id) {
      assert CallOk(c, w, id);
    }
    assert c.next in c'.live;
    assert (forall id: CallId :: !Owing(c', id)) ==> c'.hungCalls == c'.leaks;
  }

  /** Moving a call on within what it owes. */
  lemma MoveKeepsCalls(c: Calls, w: Worker, id: CallId, c': Calls)
    requires CallsInv(c, w) && id in c.live
    requires id in c'.live && c' == c.(live := c.live[id := c'.live[id]], results := c'.results)
    requires c'.results == c.results || (id in c'.results && c'.results == c.results[id := c'.results[id]])
    requires id in c'.results <==> !c'.live[id].Running? && !c'.live[id].Returned?
    requires c'.live[id].Owes? ==> id in c.abandoned
    requires Owing(c', id) == Owing(c, id)
    ensures CallsInv(c', w)
  {
    forall d: CallId ensures CallOk(c', w, d) && (d in c'.live <==> d in c.live) && Owing(c', d) == Owing(c, d) {
      assert CallOk(c, w, d) && CallOk(c, w, id);
    }
    assert (forall d: CallId :: !Owing(c', d)) ==> c'.hungCalls + Pending(w) == c'.leaks;
  }

  lemma GiveBackKeepsCalls(c: Calls, w: Worker, id: CallId)
    requires CallsInv(c, w) && id in c.live && c.live[id].Owes?
    ensures CallsInv(GiveBackHung(c, id), w)
  {
    var c' := GiveBackHung(c, id);
    assert CallOk(c, w, id) && Owing(c, id);
    forall d: CallId ensures CallOk(c', w, d) && (d in c'.live <==> d in c.live) && !Owing(c', d) {
      assert CallOk(c, w, d);
    }
    assert id in c'.live;
  }

  lemma FreeKeepsCalls(c: Calls, w: Worker, id: CallId)
    requires CallsInv(c, w) && id in c.live && c.live[id].Freeing?
    ensures CallsInv(FreeSlot(c, id), w)
  {
    var c' := FreeSlot(c, id);
    assert CallOk(c, w, id);
    forall d: CallId ensures CallOk(c', w, d) && d !in c'.live && !Owing(c', d) && !Owing(c, d) {
      assert CallOk(c, w, d);
    }
    assert forall d: CallId :: !Owing(c, d);
  }

  lemma FlagKeepsCalls(c: Calls, e: Event, id: CallId)
    requires CallsInv(c, Calling(e, id))
    ensures CallsInv(SetFlag(c, id), Flagged(e, id))
  {
    var c', w := SetFlag(c, id), Calling(e, id);
    assert CallOk(c, w, id);
    forall d: CallId ensures !Owing(c, d) && (Owing(c', d) <==> d == id && d in c.live && !c.live[d].Freeing?) {
      assert CallOk(c, w, d);
    }
    forall d: CallId ensures CallOk(c', Flagged(e, id), d) {
      assert CallOk(c, w, d);
    }
  }

  lemma CountHungKeepsCalls(c: Calls, e: Event, id: CallId)
    requires CallsInv(c, Flagged(e, id))
    ensures CallsInv(c.(hungCalls := c.hungCalls + 1), Hung(e))
  {
    var c' := c.(hungCalls := c.hungCalls + 1);
    forall d: CallId ensures CallOk(c', Hung(e), d) && Owing(c', d) == Owing(c, d) {
      assert CallOk(c, Flagged(e, id), d);
    }
    assert (forall d: CallId :: !Owing(c', d)) ==> c'.hungCalls == c'.leaks;
  }

  lemma GateKeepsCalls(cfg: Config, s: State, g: GateStep)
    requires CallsInv(s.calls, s.flow.worker) && CanPass(s, g)
    ensures CallsInv(Gated(cfg, s, g).calls, Gated(cfg, s, g).flow.worker)
  {
    var c, w := s.calls, s.flow.worker;
    if g.TakeSlot? && !c.slot {
      StartKeepsCalls(c, w, w.event);
    } else {
      WorkerKeepsCalls(c, w, Gated(cfg, s, g).flow.worker);
    }
  }

  lemma ConclusionKeepsCalls(s: State, o: OutcomeStep)
    requires CallsInv(s.calls, s.flow.worker) && CanConclude(s, o)
    ensures CallsInv(Concluded(s, o).calls, Concluded(s, o).flow.worker)
  {
    var c, w := s.calls, s.flow.worker;
    match o
    case Flag => FlagKeepsCalls(c, w.event, w.id);
    case CountHung => CountHungKeepsCalls(c, w.event, w.id);
    case _ => WorkerKeepsCalls(c, w, Concluded(s, o).flow.worker);
  }

  lemma CallKeepsCalls(s: State, id: CallId, step: CallStep)
    requires CallsInv(s.calls, s.flow.worker) && CanCall(s.calls, id, step)
    ensures CallsInv(AfterCall(s, id, step).calls, s.flow.worker)
  {
    var c, w := s.calls, s.flow.worker;
    assert CallOk(c, w, id);
    match step
    case GiveBack => GiveBackKeepsCalls(c, w, id);
    case Free => FreeKeepsCalls(c, w, id);
    case _ => MoveKeepsCalls(c, w, id, AfterCall(s, id, step).calls);
  }

  lemma RecordKeepsCalls(cfg: Config, s: State, r: RecordStep)
    requires CallsInv(s.calls, s.flow.worker) && CanRecord(s, r)
    ensures CallsInv(Recorded(cfg, s, r).calls, Recorded(cfg, s, r).flow.worker)
  {
    WorkerKeepsCalls(s.calls, s.flow.worker, Recorded(cfg, s, r).flow.worker);
  }

  lemma ControlKeepsCalls(s: State, m: ControlStep)
    requires CallsInv(s.calls, s.flow.worker) && CanControl(s, m)
    ensures CallsInv(Controlled(s, m).calls, Controlled(s, m).flow.worker)
  {
    WorkerKeepsCalls(s.calls, s.flow.worker, Controlled(s, m).flow.worker);
  }

  /** Producers touch neither the worker, nor calls, nor the breaker. */
  lemma ProducerKeepsRest(cfg: Config, s: State, t: Thread, p: ProducerStep)
    requires CanProduce(s, t, p)
    ensures var s' := Produced(cfg, s, t, p);
            && s'.flow.worker == s.flow.worker && s'.calls == s.calls && s'.breaker == s.breaker
            && s'.closed == s.closed && s'.draining == s.draining && s'.returned == s.returned && s'.clock >= s.clock
            && s'.books.panics == s.books.panics && s'.books.latePanics == s.books.latePanics
  {
  }

  lemma StepKeepsCalls(cfg: Config, s: State, step: Step)
    requires CallsInv(s.calls, s.flow.worker) && Enabled(s, step)
    ensures CallsInv(Next(cfg, s, step).calls, Next(cfg, s, step).flow.worker)
  {
    if step.Produce? {
      ProducerKeepsRest(cfg, s, step.t, step.p);
    } else if step.Gate? {
      GateKeepsCalls(cfg, s, step.g);
    } else if step.Conclude? {
      ConclusionKeepsCalls(s, step.o);
    } else if step.InCall? {
      CallOnlyMoves(s, step.id, step.c);
      CallKeepsCalls(s, step.id, step.c);
    } else if step.Record? {
      RecordKeepsCalls(cfg, s, step.r);
    } else {
      ControlKeepsCalls(s, step.m);
    }
  }

  // ------------------------------------------------------- panics, counted

  /** A panic that is counted while the worker still waits for the call. */
  ghost function PendingPanic(c: Calls, w: Worker): int {
    if w.Calling? then PanicSeen(c, w.id) else 0
  }

  /** What the counters say of panics whose event has its outcome. */
  ghost function SettledPanics(s: State): int {
    s.books.panics - s.books.latePanics - PendingPanic(s.calls, s.flow.worker)
  }

  ghost predicate PanicLedger(s: State) {
    && SettledPanics(s) == Outcomes(s.flow.place, Panicked)
    && s.books.latePanics >= 0
  }

  ghost function PanickedNow(s: State, step: Step): nat
    requires Enabled(s, step)
  {
    if step.Conclude? && Verdict(s, step.o) == Some(Panicked) then 1 else 0
  }

  lemma ProducerCountsPanicked(cfg: Config, s: State, t: Thread, p: ProducerStep)
    requires FlowInv(s.flow) && CanProduce(s, t, p)
    ensures Outcomes(Produced(cfg, s, t, p).flow.place, Panicked) == Outcomes(s.flow.place, Panicked)
  {
    var f := s.flow;
    if p.Enter? {
      OutcomesMoved(f.place, p.e, With(t), Panicked);
    } else if p.Send? || p.Reject? {
      var e := f.producers[t].event;
      assert EventOk(f, e) && HeldBy(f, t, e);
      OutcomesMoved(f.place, e, TurnedAway, Panicked);
      OutcomesMoved(f.place, e, Queued, Panicked);
    }
  }

  lemma GateCountsPanicked(cfg: Config, s: State, g: GateStep)
    requires FlowInv(s.flow) && CanPass(s, g)
    ensures Outcomes(Gated(cfg, s, g).flow.place, Panicked) == Outcomes(s.flow.place, Panicked)
  {
    var f := s.flow;
    if g.Take? {
      assert EventOk(f, f.queue[0]);
      OutcomesMoved(f.place, f.queue[0], InHand, Panicked);
    } else if g.Drop? {
      assert EventOk(f, f.worker.event);
      OutcomesMoved(f.place, f.worker.event, Delivered(Dropped), Panicked);
    } else {
      GateOnlyMoves(cfg, s, g);
    }
  }

  lemma ConclusionCountsPanicked(s: State, o: OutcomeStep)
    requires FlowInv(s.flow) && CanConclude(s, o)
    ensures Outcomes(Concluded(s, o).flow.place, Panicked) == Outcomes(s.flow.place, Panicked) + PanickedNow(s, Conclude(o))
  {
    ConclusionMoves(s, o);
    if Verdict(s, o).Some? {
      assert EventOk(s.flow, s.flow.worker.event);
      OutcomesMoved(s.flow.place, s.flow.worker.event, Delivered(Verdict(s, o).value), Panicked);
    }
  }

  lemma StepCountsPanicked(cfg: Config, s: State, step: Step)
    requires FlowInv(s.flow) && Enabled(s, step)
    ensures Outcomes(Next(cfg, s, step).flow.place, Panicked) == Outcomes(s.flow.place, Panicked) + PanickedNow(s, step)
  {
    if step.Produce? {
      ProducerCountsPanicked(cfg, s, step.t, step.p);
    } else if step.Gate? {
      GateCountsPanicked(cfg, s, step.g);
    } else if step.Conclude? {
      ConclusionCountsPanicked(s, step.o);
    } else if step.Record? {
      RecordOnlyMoves(cfg, s, step.r);
    } else if step.InCall? {
      CallOnlyMoves(s, step.id, step.c);
    } else {
      ControlOnlyMoves(s, step.m);
    }
  }

  lemma GateKeepsPanics(cfg: Config, s: State, g: GateStep)
    requires CallsInv(s.calls, s.flow.worker) && CanPass(s, g)
    ensures SettledPanics(Gated(cfg, s, g)) == SettledPanics(s) && Gated(cfg, s, g).books.latePanics == s.books.latePanics
  {
    assert CallOk(s.calls, s.flow.worker, s.calls.next);
  }

  lemma ConclusionSettlesPanics(s: State, o: OutcomeStep)
    requires CallsInv(s.calls, s.flow.worker) && CanConclude(s, o)
    ensures SettledPanics(Concluded(s, o)) == SettledPanics(s) + PanickedNow(s, Conclude(o))
    ensures Concluded(s, o).books.latePanics >= s.books.latePanics
  {
    if s.flow.worker.Calling? {
      assert CallOk(s.calls, s.flow.worker, s.flow.worker.id);
    }
  }

  lemma CallSettlesPanics(s: State, id: CallId, step: CallStep)
    requires CallsInv(s.calls, s.flow.worker) && CanCall(s.calls, id, step)
    ensures SettledPanics(AfterCall(s, id, step)) == SettledPanics(s)
    ensures AfterCall(s, id, step).books.latePanics >= s.books.latePanics
  {
    assert CallOk(s.calls, s.flow.worker, id);
  }

  lemma RecordKeepsPanics(cfg: Config, s: State, r: RecordStep)
    requires CanRecord(s, r)
    ensures SettledPanics(Recorded(cfg, s, r)) == SettledPanics(s) && Recorded(cfg, s, r).books == s.books
  {
  }

  lemma ControlKeepsPanics(s: State, m: ControlStep)
    requires CanControl(s, m)
    ensures SettledPanics(Controlled(s, m)) == SettledPanics(s) && Controlled(s, m).books == s.books
  {
  }

  lemma StepSettlesPanics(cfg: Config, s: State, step: Step)
    requires CallsInv(s.calls, s.flow.worker) && Enabled(s, step)
    ensures SettledPanics(Next(cfg, s, step)) == SettledPanics(s) + PanickedNow(s, step)
    ensures Next(cfg, s, step).books.latePanics >= s.books.latePanics
  {
    if step.Produce? {
      ProducerKeepsRest(cfg, s, step.t, step.p);
    } else if step.Gate? {
      GateKeepsPanics(cfg, s, step.g);
    } else if step.Conclude? {
      ConclusionSettlesPanics(s, step.o);
    } else if step.InCall? {
      CallSettlesPanics(s, step.id, step.c);
    } else if step.Record? {
      RecordKeepsPanics(cfg, s, step.r);
    } else {
      ControlKeepsPanics(s, step.m);
    }
  }

  lemma StepKeepsPanicLedger(cfg: Config, s: State, step: Step)
    requires FlowInv(s.flow) && CallsInv(s.calls, s.flow.worker) && PanicLedger(s) && Enabled(s, step)
    ensures PanicLedger(Next(cfg, s, step))
  {
    StepCountsPanicked(cfg, s, step);
    StepSettlesPanics(cfg, s, step);
  }

  /** The calls that both timed out and panicked. */
  ghost function LateCalls(c: Calls): set<CallId> {
    set id | id in c.abandoned && PanicSeen(c, id) == 1
  }

  ghost predicate LateLedger(s: State) {
    s.books.latePanics == |LateCalls(s.calls)|
  }

  lemma NoLateCalls(s: State)
    requires s.calls.abandoned == {} && s.books.latePanics == 0
    ensures LateLedger(s)
  {
    assert LateCalls(s.calls) == {};
  }

  lemma SameLateCalls(c: Calls, c': Calls)
    requires c'.abandoned == c.abandoned && forall id :: id in c.abandoned ==> PanicSeen(c', id) == PanicSeen(c, id)
    ensures LateCalls(c') == LateCalls(c)
  {
  }

  lemma FlagKeepsLate(c: Calls, id: CallId)
    requires id !in c.abandoned
    ensures |LateCalls(SetFlag(c, id))| == |LateCalls(c)| + PanicSeen(c, id)
  {
    var c' := SetFlag(c, id);
    assert forall d :: PanicSeen(c', d) == PanicSeen(c, d);
    if PanicSeen(c, id) == 1 {
      assert LateCalls(c') == LateCalls(c) + {id};
    } else {
      assert LateCalls(c') == LateCalls(c);
    }
  }

  lemma ReturnKeepsLate(c: Calls, id: CallId, panicked: bool)
    requires id in c.live && c.live[id].Running? && id !in c.results
    ensures |LateCalls(MoveCall(c, id, Returned(panicked)))| == |LateCalls(c)| + if panicked && id in c.abandoned then 1 else 0
  {
    var c' := MoveCall(c, id, Returned(panicked));
    assert forall d :: d != id ==> PanicSeen(c', d) == PanicSeen(c, d);
    if panicked && id in c.abandoned {
      assert LateCalls(c') == LateCalls(c) + {id};
    } else {
      SameLateCalls(c, c');
    }
  }

  lemma CallKeepsLate(s: State, id: CallId, step: CallStep)
    requires CallsInv(s.calls, s.flow.worker) && LateLedger(s) && CanCall(s.calls, id, step)
    ensures LateLedger(AfterCall(s, id, step))
  {
    var c := s.calls;
    assert CallOk(c, s.flow.worker, id);
    match step
    case Return(panicked) => ReturnKeepsLate(c, id, panicked);
    case Post => SameLateCalls(c, PostResult(c, id, c.live[id].panicked));
    case Look => SameLateCalls(c, LookAtFlag(c, id));
    case GiveBack => SameLateCalls(c, GiveBackHung(c, id));
    case Free => SameLateCalls(c, FreeSlot(c, id));
  }

  lemma ConclusionKeepsLate(s: State, o: OutcomeStep)
    requires CallsInv(s.calls, s.flow.worker) && LateLedger(s) && CanConclude(s, o)
    ensures LateLedger(Concluded(s, o))
  {
    match o
    case Flag => FlagKeepsLate(s.calls, s.flow.worker.id);
    case CountHung => SameLateCalls(s.calls, Concluded(s, o).calls);
    case _ =>
  }

  lemma GateKeepsLate(cfg: Config, s: State, g: GateStep)
    requires CallsInv(s.calls, s.flow.worker) && LateLedger(s) && CanPass(s, g)
    ensures LateLedger(Gated(cfg, s, g))
  {
    if g.TakeSlot? && !s.calls.slot {
      assert CallOk(s.calls, s.flow.worker, s.calls.next);
      SameLateCalls(s.calls, StartCall(s.calls));
    }
  }

  lemma RecordKeepsLate(cfg: Config, s: State, r: RecordStep)
    requires LateLedger(s) && CanRecord(s, r)
    ensures LateLedger(Recorded(cfg, s, r))
  {
  }

  /** Every step keeps `latePanics` the number of calls that both timed out and panicked. */
  lemma StepKeepsLate(cfg: Config, s: State, step: Step)
    requires CallsInv(s.calls, s.flow.worker) && LateLedger(s) && Enabled(s, step)
    ensures LateLedger(Next(cfg, s, step))
  {
    match step
    case Produce(t, p) => ProducerKeepsRest(cfg, s, t, p);
    case Gate(g) => GateKeepsLate(cfg, s, g);
    case Conclude(o) => ConclusionKeepsLate(s, o);
    case Record(r) => RecordKeepsLate(cfg, s, r);
    case InCall(id, c) => CallKeepsLate(s, id, c);
    case Control(_) =>
  }

  // --------------------------------------------------- breaker and closing

  ghost predicate BreakerInv(cfg: Config, b: Breaker, w: Worker) {
    && (b.openedAt != 0 ==> b.openedAt > 0 && (b.failures >= cfg.failureThreshold || w.Closing?))
    && (w.Failed? || w.Counted? || w.Opening? ==> w.at > 0)
    && (w.Opening? ==> !b.halfOpen)
    && (w.Closing? ==> b.failures == 0)
    && b.failures >= 0 && b.forcing >= 0
  }

  ghost predicate CloseInv(s: State) {
    && (s.closed ==> s.flow.producers == map[])
    && (s.draining ==> s.closed)
    && (s.flow.worker.Exited? ==> s.closed && s.flow.queue == [])
    && (s.returned ==> s.flow.worker.Exited?)
  }

  lemma GateKeepsBreaker(cfg: Config, s: State, g: GateStep)
    requires BreakerInv(cfg, s.breaker, s.flow.worker) && CanPass(s, g)
    ensures BreakerInv(cfg, Gated(cfg, s, g).breaker, Gated(cfg, s, g).flow.worker)
  {
  }

  lemma RecordKeepsBreaker(cfg: Config, s: State, r: RecordStep)
    requires BreakerInv(cfg, s.breaker, s.flow.worker) && CanRecord(s, r)
    ensures BreakerInv(cfg, Recorded(cfg, s, r).breaker, Recorded(cfg, s, r).flow.worker)
  {
  }

  lemma ConclusionKeepsBreaker(cfg: Config, s: State, o: OutcomeStep)
    requires BreakerInv(cfg, s.breaker, s.flow.worker) && CanConclude(s, o)
    ensures BreakerInv(cfg, Concluded(s, o).breaker, Concluded(s, o).flow.worker)
  {
  }

  lemma StepKeepsBreaker(cfg: Config, s: State, step: Step)
    requires BreakerInv(cfg, s.breaker, s.flow.worker) && Enabled(s, step)
    ensures BreakerInv(cfg, Next(cfg, s, step).breaker, Next(cfg, s, step).flow.worker)
  {
    if step.Produce? {
      ProducerKeepsRest(cfg, s, step.t, step.p);
    } else if step.Gate? {
      GateKeepsBreaker(cfg, s, step.g);
    } else if step.Conclude? {
      ConclusionKeepsBreaker(cfg, s, step.o);
    } else if step.Record? {
      RecordKeepsBreaker(cfg, s, step.r);
    }
  }

  /** Once closed, there is no producer to take a step but one that finds `closed` set. */
  lemma StepKeepsClose(cfg: Config, s: State, step: Step)
    requires CloseInv(s) && Enabled(s, step)
    ensures CloseInv(Next(cfg, s, step))
  {
    if step.Produce? {
      ProducerKeepsRest(cfg, s, step.t, step.p);
    } else if step.Gate? && !step.g.Take? && !step.g.Drop? {
      GateOnlyMoves(cfg, s, step.g);
    } else if step.Conclude? {
      ConclusionMoves(s, step.o);
    } else if step.Record? {
      RecordOnlyMoves(cfg, s, step.r);
    } else if step.InCall? {
      CallOnlyMoves(s, step.id, step.c);
    }
  }
}
