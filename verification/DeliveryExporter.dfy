/** The governed exporter as an object (rpc/mux_export_delivery.go), with its channels, counters and breaker variables as
    fields and one method for each of its functions. The object carries a run of the state machine that ends where its
    fields are, so what holds of every run holds of the object. Each call here runs without others in between. */
module DeliveryExporter {
  import opened GoStrings
  import opened Delivery
  import opened DeliveryBooks
  import opened DeliveryCalls
  import opened DeliveryRuns

  /** What the wrapped exporter does with a call: it returns or panics in time, or is still out at the timeout. */
  datatype CallResult = Completes(panicked: bool) | OutOfTime

  /** The readings of the clock and the exporter's answer in one pass of `export`. */
  datatype Pass = Pass(now: int, later: int, result: CallResult)

  function ResultOutcome(result: CallResult): Outcome {
    match result
    case Completes(panicked) => if panicked then Panicked else Exported
    case OutOfTime => TimedOut
  }

  /** What becomes of the event, gate by gate. */
  function PassOutcome(cfg: Config, s: State, pass: Pass): Outcome {
    if s.breaker.openedAt != 0 && (pass.now - s.breaker.openedAt < cfg.cooldown || s.breaker.halfOpen) then Dropped
    else if s.calls.hungCalls >= cfg.maxHungCalls then Dropped
    else if s.calls.slot then Dropped
    else ResultOutcome(pass.result)
  }

  /** Whether a producer's event gets into the queue. */
  predicate Admits(cfg: Config, s: State, paused: bool, now: int) {
    && !s.closed && !paused && s.calls.hungCalls < cfg.maxHungCalls
    && (s.breaker.openedAt == 0 || now - s.breaker.openedAt >= cfg.cooldown)
    && |s.flow.queue| < cfg.queueSize
  }

  // ------------------------------------------------- one pass of the worker

  /** What receiving and recording a result leaves. */
  ghost function AfterReceipt(cfg: Config, s: State, e: Event, panicked: bool, later: int): State {
    if panicked then
      s.(flow := FinishFlow(s.flow, e, Panicked, Waiting), breaker := FailedBreaker(cfg, s.breaker, later), clock := later)
    else
      s.(flow := FinishFlow(s.flow, e, Exported, Waiting), books := s.books.(exported := s.books.exported + 1),
         breaker := s.breaker.(failures := 0, openedAt := 0, halfOpen := false))
  }

  lemma RunsReceipt(cfg: Config, states: seq<State>, steps: seq<Step>, s: State, e: Event, id: CallId, panicked: bool, later: int)
    returns (states': seq<State>, steps': seq<Step>)
    requires IsRun(cfg, states, steps) && states[|steps|] == s && s.flow.worker == Calling(e, id)
    requires id in s.calls.results && s.calls.results[id] == panicked && later >= s.clock && later > 0
    ensures IsRun(cfg, states', steps') && states'[|steps'|] == AfterReceipt(cfg, s, e, panicked, later)
  {
    var s1 := ReceiveStep(s, e, panicked);
    states', steps' := Extend(cfg, states, steps, Conclude(Receive), s1);
    if panicked {
      states', steps' := RecordsFailure(cfg, states', steps', s1, later);
    } else {
      var s2 := CountExportedStep(s1, e);
      states', steps' := Extend(cfg, states', steps', Conclude(CountExported), s2);
      states', steps' := RecordsSuccess(cfg, states', steps', s2);
    }
  }

  /** What a call that completes leaves, from the free slot to the recorded outcome. */
  ghost function AfterCompletion(cfg: Config, s: State, e: Event, panicked: bool, later: int): State {
    AfterReceipt(cfg, AfterWholeCall(s.(calls := StartCall(s.calls)), s.calls.next, panicked), e, panicked, later)
  }

  /** What a call leaves that is still out at the timeout. */
  ghost function AfterTimeout(cfg: Config, s: State, e: Event, later: int): State {
    var id := s.calls.next;
    s.(flow := FinishFlow(s.flow, e, TimedOut, Waiting),
       calls := SetFlag(StartCall(s.calls), id).(hungCalls := s.calls.hungCalls + 1),
       books := s.books.(timedOut := s.books.timedOut + 1),
       breaker := FailedBreaker(cfg, s.breaker, later), clock := later)
  }

  /** What `export` leaves, once the breaker has let the worker by. */
  ghost function AfterGates(cfg: Config, s: State, e: Event, result: CallResult, later: int): State {
    if s.calls.hungCalls >= cfg.maxHungCalls then DropStep(s, e)
    else if s.calls.slot then DropStep(s.(breaker := s.breaker.(halfOpen := false)), e)
    else match result
         case Completes(panicked) => AfterCompletion(cfg, s, e, panicked, later)
         case OutOfTime => AfterTimeout(cfg, s, e, later)
  }

  ghost function AfterExport(cfg: Config, s: State, e: Event, pass: Pass): State {
    var s' := AfterBreaker(cfg, s, e, pass.now);
    if s'.flow.worker.Allowed? then AfterGates(cfg, s', e, pass.result, pass.later) else DropStep(s', e)
  }

  lemma NextIsNew(cfg: Config, states: seq<State>, steps: seq<Step>)
    requires IsRun(cfg, states, steps)
    ensures var c := states[|steps|].calls; c.next !in c.abandoned && c.next !in c.results
  {
    RunKeepsInv(cfg, states, steps, |steps|);
    assert CallOk(states[|steps|].calls, states[|steps|].flow.worker, states[|steps|].calls.next);
  }

  lemma RunsCompletion(cfg: Config, states: seq<State>, steps: seq<Step>, s: State, e: Event, panicked: bool, later: int)
    returns (states': seq<State>, steps': seq<Step>)
    requires IsRun(cfg, states, steps) && states[|steps|] == s && s.flow.worker == Ready(e) && !s.calls.slot
    requires later >= s.clock && later > 0
    ensures IsRun(cfg, states', steps') && states'[|steps'|] == AfterCompletion(cfg, s, e, panicked, later)
  {
    var id := s.calls.next;
    NextIsNew(cfg, states, steps);
    var s1 := TakeSlotStep(s, e);
    states', steps' := Extend(cfg, states, steps, Gate(TakeSlot), s1);
    states', steps' := RunsCall(cfg, states', steps', s1, id, panicked);
    states', steps' := RunsReceipt(cfg, states', steps', AfterWholeCall(s1, id, panicked), e, id, panicked, later);
  }

  lemma RunsTimeout(cfg: Config, states: seq<State>, steps: seq<Step>, s: State, e: Event, later: int)
    returns (states': seq<State>, steps': seq<Step>)
    requires IsRun(cfg, states, steps) && states[|steps|] == s && s.flow.worker == Ready(e) && !s.calls.slot
    requires later >= s.clock && later > 0
    ensures IsRun(cfg, states', steps') && states'[|steps'|] == AfterTimeout(cfg, s, e, later)
  {
    NextIsNew(cfg, states, steps);
    var s1 := TakeSlotStep(s, e);
    states', steps' := Extend(cfg, states, steps, Gate(TakeSlot), s1);
    states', steps' := RunsHanging(cfg, states', steps', s1, e, s.calls.next, later);
  }

  /** The call is still out at the timeout, which is recorded. */
  lemma RunsHanging(cfg: Config, states: seq<State>, steps: seq<Step>, s: State, e: Event, id: CallId, later: int)
    returns (states': seq<State>, steps': seq<Step>)
    requires IsRun(cfg, states, steps) && states[|steps|] == s && s.flow.worker == Calling(e, id)
    requires later >= s.clock && later > 0
    ensures IsRun(cfg, states', steps')
    ensures states'[|steps'|] == MoveWorker(CountTimedOutStep(CountHungStep(FlagStep(s, e, id), e), e), Waiting)
                                 .(breaker := FailedBreaker(cfg, s.breaker, later), clock := later)
  {
    states', steps' := TimesOut(cfg, states, steps, s, e, id);
    states', steps' := RecordsFailure(cfg, states', steps', states'[|steps'|], later);
  }

  lemma RunsGates(cfg: Config, states: seq<State>, steps: seq<Step>, s: State, e: Event, result: CallResult, later: int)
    returns (states': seq<State>, steps': seq<Step>)
    requires IsRun(cfg, states, steps) && states[|steps|] == s && s.flow.worker == Allowed(e)
    requires later >= s.clock && later > 0
    ensures IsRun(cfg, states', steps') && states'[|steps'|] == AfterGates(cfg, s, e, result, later)
  {
    if s.calls.hungCalls >= cfg.maxHungCalls {
      var s1 := MoveWorker(s, Dropping(e));
      states', steps' := Extend(cfg, states, steps, Gate(SeeLimit), s1);
      states', steps' := Extend(cfg, states', steps', Gate(Drop), DropStep(s1, e));
    } else {
      var s1 := MoveWorker(s, Ready(e));
      states', steps' := Extend(cfg, states, steps, Gate(SeeLimit), s1);
      if s.calls.slot {
        states', steps' := BacksOff(cfg, states', steps', s1, e);
        var s2 := states'[|steps'|];
        states', steps' := Extend(cfg, states', steps', Gate(Drop), DropStep(s2, e));
      } else if result.Completes? {
        states', steps' := RunsCompletion(cfg, states', steps', s1, e, result.panicked, later);
      } else {
        states', steps' := RunsTimeout(cfg, states', steps', s1, e, later);
      }
    }
  }

  /** A pass of `export` is a run of the worker, the call's goroutine and nobody else. */
  lemma RunsExport(cfg: Config, states: seq<State>, steps: seq<Step>, s: State, e: Event, pass: Pass)
    returns (states': seq<State>, steps': seq<Step>)
    requires IsRun(cfg, states, steps) && states[|steps|] == s && s.flow.worker == Delivering(e)
    requires s.clock <= pass.now <= pass.later && pass.later > 0
    ensures IsRun(cfg, states', steps') && states'[|steps'|] == AfterExport(cfg, s, e, pass)
  {
    states', steps' := PassesBreaker(cfg, states, steps, s, e, pass.now);
    var s1 := AfterBreaker(cfg, s, e, pass.now);
    if s1.flow.worker.Allowed? {
      states', steps' := RunsGates(cfg, states', steps', s1, e, pass.result, pass.later);
    } else {
      states', steps' := Extend(cfg, states', steps', Gate(Drop), DropStep(s1, e));
    }
  }

  /** The worker is done with event `e`, which has outcome `v` and is on the books as that and as nothing else. */
  ghost predicate Finishes(s: State, s': State, e: Event, v: Outcome) {
    && s'.flow == FinishFlow(s.flow, e, v, Waiting)
    && s'.books == s.books.(exported := s.books.exported + (if v == Exported then 1 else 0),
                            dropped := s.books.dropped + (if v == Dropped then 1 else 0),
                            timedOut := s.books.timedOut + (if v == TimedOut then 1 else 0),
                            panics := s.books.panics + (if v == Panicked then 1 else 0))
    && s'.closed == s.closed && s'.draining == s.draining && s'.returned == s.returned
  }

  lemma GatesFinish(cfg: Config, s: State, e: Event, result: CallResult, later: int)
    requires s.clock <= later
    ensures var v := if s.calls.hungCalls >= cfg.maxHungCalls || s.calls.slot then Dropped else ResultOutcome(result);
            Finishes(s, AfterGates(cfg, s, e, result, later), e, v)
    ensures s.clock <= AfterGates(cfg, s, e, result, later).clock <= later
  {
  }

  lemma BreakerDecides(cfg: Config, s: State, e: Event, now: int)
    requires s.clock <= now
    ensures var s' := AfterBreaker(cfg, s, e, now);
            && s' == s.(flow := s.flow.(worker := s'.flow.worker), breaker := s.breaker.(halfOpen := s'.breaker.halfOpen), clock := s'.clock)
            && s.clock <= s'.clock <= now
            && s'.flow.worker == if s.breaker.openedAt != 0 && (now - s.breaker.openedAt < cfg.cooldown || s.breaker.halfOpen)
                                 then Dropping(e) else Allowed(e)
  {
  }

  lemma FinishesAfterMove(s: State, s1: State, s2: State, e: Event, v: Outcome)
    requires Finishes(s1, s2, e, v)
    requires s1.flow == s.flow.(worker := s1.flow.worker) && s1.books == s.books
    requires s1.closed == s.closed && s1.draining == s.draining && s1.returned == s.returned
    ensures Finishes(s, s2, e, v)
  {
  }

  /** A pass of `export` delivers its event with the outcome that the gates and the call decide, and changes nothing else
      of what events flow through. */
  lemma ExportFinishes(cfg: Config, s: State, e: Event, pass: Pass)
    requires s.flow.worker == Delivering(e) && s.clock <= pass.now <= pass.later
    ensures Finishes(s, AfterExport(cfg, s, e, pass), e, PassOutcome(cfg, s, pass))
    ensures s.clock <= AfterExport(cfg, s, e, pass).clock <= pass.later
  {
    BreakerDecides(cfg, s, e, pass.now);
    var s1 := AfterBreaker(cfg, s, e, pass.now);
    if s1.flow.worker.Allowed? {
      GatesFinish(cfg, s1, e, pass.result, pass.later);
    }
    FinishesAfterMove(s, s1, AfterExport(cfg, s, e, pass), e, PassOutcome(cfg, s, pass));
  }

  // --------------------------------------------------- one event offered

  ghost function AfterEvent(cfg: Config, s: State, e: Event, paused: bool, now: int, clock: int): State {
    if s.closed then s
    else if Admits(cfg, s, paused, now) then
      s.(flow := s.flow.(queue := s.flow.queue + [e], place := s.flow.place[e := Queued]),
         books := s.books.(sent := s.books.sent + 1, accepted := s.books.accepted + 1), clock := clock)
    else
      s.(flow := s.flow.(place := s.flow.place[e := TurnedAway]),
         books := s.books.(dropped := s.books.dropped + 1, entryDrops := s.books.entryDrops + 1), clock := clock)
  }

  lemma RunsRejection(cfg: Config, states: seq<State>, steps: seq<Step>, f: Flow, s: State, t: Thread, e: Event)
    returns (states': seq<State>, steps': seq<Step>)
    requires IsRun(cfg, states, steps) && states[|steps|] == s && t !in f.producers
    requires s.flow == HoldFlow(EnterFlow(f, t, e), t, Rejecting(e))
    ensures IsRun(cfg, states', steps')
    ensures states'[|steps'|] == s.(flow := f.(place := f.place[e := TurnedAway]),
                                    books := s.books.(dropped := s.books.dropped + 1, entryDrops := s.books.entryDrops + 1))
  {
    states', steps' := Extend(cfg, states, steps, Produce(t, Reject), RejectStep(s, t, e));
    assert s.flow.producers - {t} == f.producers;
    assert s.flow.place[e := TurnedAway] == f.place[e := TurnedAway];
  }

  lemma RunsAcceptance(cfg: Config, states: seq<State>, steps: seq<Step>, f: Flow, s: State, t: Thread, e: Event)
    returns (states': seq<State>, steps': seq<Step>)
    requires IsRun(cfg, states, steps) && states[|steps|] == s && t !in f.producers && |f.queue| < cfg.queueSize
    requires s.flow == HoldFlow(EnterFlow(f, t, e), t, Passed(e))
    ensures IsRun(cfg, states', steps')
    ensures states'[|steps'|] == s.(flow := f.(queue := f.queue + [e], place := f.place[e := Queued]),
                                    books := s.books.(sent := s.books.sent + 1, accepted := s.books.accepted + 1))
  {
    var s1 := SendStep(cfg, s, t, e);
    states', steps' := Extend(cfg, states, steps, Produce(t, Send), s1);
    states', steps' := Extend(cfg, states', steps', Produce(t, Accept), AcceptStep(s1, t));
    assert s1.flow.producers - {t} == f.producers;
    assert s1.flow.place == f.place[e := Queued];
  }

  lemma RunsEvent(cfg: Config, states: seq<State>, steps: seq<Step>, s: State, t: Thread, e: Event, paused: bool, now: int)
    returns (states': seq<State>, steps': seq<Step>, clock: int)
    requires IsRun(cfg, states, steps) && states[|steps|] == s && now >= s.clock
    requires t !in s.flow.producers && e !in s.flow.place
    ensures IsRun(cfg, states', steps') && s.clock <= clock <= now
    ensures states'[|steps'|] == AfterEvent(cfg, s, e, paused, now, clock)
  {
    if s.closed {
      states', steps', clock := states, steps, s.clock;
      return;
    }
    states', steps', clock := PassesChecks(cfg, states, steps, s, t, e, paused, now);
    var s1 := states'[|steps'|];
    if Checked(cfg, s, e, paused, now) == Rejecting(e) {
      states', steps' := RunsRejection(cfg, states', steps', s.flow, s1, t, e);
    } else if |s.flow.queue| < cfg.queueSize {
      states', steps' := RunsAcceptance(cfg, states', steps', s.flow, s1, t, e);
    } else {
      var s2 := Hold(s1, t, Rejecting(e));
      states', steps' := Extend(cfg, states', steps', Produce(t, Send), s2);
      assert s2.flow.producers == HoldFlow(EnterFlow(s.flow, t, e), t, Rejecting(e)).producers;
      states', steps' := RunsRejection(cfg, states', steps', s.flow, s2, t, e);
    }
  }

  // -------------------------------------------------- closing, forcing, hung calls

  lemma RunsTake(cfg: Config, states: seq<State>, steps: seq<Step>, s: State) returns (states': seq<State>, steps': seq<Step>)
    requires IsRun(cfg, states, steps) && states[|steps|] == s && s.flow.worker == Waiting && s.flow.queue != []
    ensures IsRun(cfg, states', steps') && states'[|steps'|] == s.(flow := TakeFlow(s.flow))
  {
    states', steps' := Extend(cfg, states, steps, Gate(Take), s.(flow := TakeFlow(s.flow)));
  }

  lemma RunsBegin(cfg: Config, states: seq<State>, steps: seq<Step>, s: State) returns (states': seq<State>, steps': seq<Step>)
    requires IsRun(cfg, states, steps) && states[|steps|] == s
    requires !s.closed && s.flow.producers == map[] && s.flow.worker == Waiting
    ensures IsRun(cfg, states', steps') && states'[|steps'|] == s.(closed := true, draining := true)
  {
    states', steps' := Extend(cfg, states, steps, Control(BeginClose), s.(closed := true));
    states', steps' := Extend(cfg, states', steps', Control(SeeDone), s.(closed := true, draining := true));
  }

  lemma RunsEnd(cfg: Config, states: seq<State>, steps: seq<Step>, s: State)
    returns (states': seq<State>, steps': seq<Step>)
    requires IsRun(cfg, states, steps) && states[|steps|] == s
    requires s.closed && s.draining && s.flow.worker == Waiting && s.flow.queue == []
    ensures IsRun(cfg, states', steps') && states'[|steps'|] == MoveWorker(s, Exited).(returned := true)
  {
    var s1 := MoveWorker(s, Exited);
    states', steps' := Extend(cfg, states, steps, Control(DrainEnd), s1);
    states', steps' := Extend(cfg, states', steps', Control(EndClose), s1.(returned := true));
  }

  lemma RunsForce(cfg: Config, states: seq<State>, steps: seq<Step>, s: State)
    returns (states': seq<State>, steps': seq<Step>)
    requires IsRun(cfg, states, steps) && states[|steps|] == s && s.breaker.forcing == 0
    ensures IsRun(cfg, states', steps')
    ensures states'[|steps'|] == s.(breaker := s.breaker.(openedAt := 0, halfOpen := false))
  {
    var s1 := s.(breaker := s.breaker.(openedAt := 0, forcing := 1));
    states', steps' := Extend(cfg, states, steps, Control(ForceClosed), s1);
    states', steps' := Extend(cfg, states', steps', Control(ForceProbe), s1.(breaker := s1.breaker.(halfOpen := false, forcing := 0)));
  }

  /** What a call leaves that comes back after its timeout. */
  ghost function AfterHungCall(s: State, id: CallId, panicked: bool): State {
    s.(calls := s.calls.(slot := false, live := s.calls.live - {id}, results := s.calls.results[id := panicked],
                         hungCalls := s.calls.hungCalls - 1),
       books := if panicked then s.books.(panics := s.books.panics + 1, latePanics := s.books.latePanics + 1) else s.books)
  }

  lemma RunsHungCall(cfg: Config, states: seq<State>, steps: seq<Step>, s: State, id: CallId, panicked: bool)
    returns (states': seq<State>, steps': seq<Step>)
    requires IsRun(cfg, states, steps) && states[|steps|] == s
    requires id in s.calls.live && s.calls.live[id] == Running && id in s.calls.abandoned
    ensures IsRun(cfg, states', steps') && states'[|steps'|] == AfterHungCall(s, id, panicked)
  {
    var s1 := ReturnStep(s, id, panicked);
    states', steps' := Extend(cfg, states, steps, InCall(id, Return(panicked)), s1);
    var s2 := s1.(calls := PostResult(s1.calls, id, panicked));
    states', steps' := Extend(cfg, states', steps', InCall(id, Post), s2);
    states', steps' := RunsGivingBack(cfg, states', steps', s2, id);
    assert states'[|steps'|].calls.live == s.calls.live - {id};
  }

  lemma RunsGivingBack(cfg: Config, states: seq<State>, steps: seq<Step>, s: State, id: CallId)
    returns (states': seq<State>, steps': seq<Step>)
    requires IsRun(cfg, states, steps) && states[|steps|] == s
    requires id in s.calls.live && s.calls.live[id] == Posted && id in s.calls.abandoned
    ensures IsRun(cfg, states', steps')
    ensures states'[|steps'|] == s.(calls := s.calls.(slot := false, live := s.calls.live - {id}, hungCalls := s.calls.hungCalls - 1))
  {
    var s1 := s.(calls := LookAtFlag(s.calls, id));
    states', steps' := Extend(cfg, states, steps, InCall(id, Look), s1);
    var s2 := s1.(calls := GiveBackHung(s1.calls, id));
    states', steps' := Extend(cfg, states', steps', InCall(id, GiveBack), s2);
    var s3 := s2.(calls := FreeSlot(s2.calls, id));
    states', steps' := Extend(cfg, states', steps', InCall(id, Free), s3);
    assert s3.calls.live == s.calls.live - {id};
  }

  // ------------------------------------------------ a run that blocks the breaker

  /** Nothing is under way after `n` failures in a row, and the events from `n` on are new. */
  ghost predicate Quiet(s: State, n: nat) {
    && s.flow.queue == [] && s.flow.producers == map[] && s.flow.worker == Waiting && (forall e :: e in s.flow.place ==> e < n)
    && !s.closed && !s.calls.slot && s.calls.hungCalls == 0 && s.breaker == Breaker(n, 0, false, 0) && s.clock <= 1
  }

  /** The worker has taken event `n`. */
  ghost function Taken(s: State, n: nat): State {
    s.(flow := s.flow.(worker := Delivering(n), place := s.flow.place[n := Queued][n := InHand]),
       books := s.books.(sent := s.books.sent + 1, accepted := s.books.accepted + 1))
  }

  lemma TakesNext(cfg: Config, states: seq<State>, steps: seq<Step>, s: State, n: nat)
    returns (states': seq<State>, steps': seq<Step>)
    requires cfg.Valid() && IsRun(cfg, states, steps) && states[|steps|] == s && Quiet(s, n)
    ensures IsRun(cfg, states', steps') && states'[|steps'|] == Taken(s, n).(clock := states'[|steps'|].clock)
    ensures states'[|steps'|].clock <= 1
  {
    var clock;
    states', steps', clock := RunsEvent(cfg, states, steps, s, 0, n, false, s.clock);
    states', steps' := RunsTake(cfg, states', steps', states'[|steps'|]);
    assert (s.flow.queue + [n])[1..] == [];
  }

  /** A call that panics is one more failure, and leaves nothing under way. */
  lemma PanickedPass(cfg: Config, s: State, n: nat)
    requires cfg.Valid() && n + 1 < cfg.failureThreshold
    requires s.flow.queue == [] && s.flow.producers == map[] && s.flow.worker == Delivering(n) && (forall e :: e in s.flow.place ==> e < n + 1)
    requires !s.closed && !s.calls.slot && s.calls.hungCalls == 0 && s.breaker == Breaker(n, 0, false, 0) && s.clock <= 1
    ensures Quiet(AfterExport(cfg, s, n, Pass(1, 1, Completes(true))), n + 1)
  {
  }

  lemma {:induction false} ReachFailures(cfg: Config, n: nat) returns (states: seq<State>, steps: seq<Step>)
    requires cfg.Valid() && n < cfg.failureThreshold
    ensures IsRun(cfg, states, steps) && Quiet(states[|steps|], n)
    decreases n
  {
    if n == 0 {
      states, steps := [INITIAL], [];
    } else {
      states, steps := ReachFailures(cfg, n - 1);
      states, steps := TakesNext(cfg, states, steps, states[|steps|], n - 1);
      var s := states[|steps|];
      states, steps := RunsExport(cfg, states, steps, s, n - 1, Pass(1, 1, Completes(true)));
      PanickedPass(cfg, s, n - 1);
    }
  }

  /** The breaker was opened at time 1 by a timeout whose call is still out, and the event after it is in the queue. */
  lemma ReachOpen(cfg: Config) returns (states: seq<State>, steps: seq<Step>)
    requires cfg.Valid()
    ensures IsRun(cfg, states, steps)
    ensures var s := states[|steps|];
            && s.flow.queue == [cfg.failureThreshold] && s.flow.worker == Waiting && s.calls.hungCalls == 1
            && s.breaker == Breaker(cfg.failureThreshold, 1, false, 0) && s.clock == 1
  {
    var n := cfg.failureThreshold - 1;
    states, steps := ReachFailures(cfg, n);
    states, steps := TakesNext(cfg, states, steps, states[|steps|], n);
    var s1 := states[|steps|];
    var clock;
    states, steps, clock := RunsEvent(cfg, states, steps, s1, 0, n + 1, false, s1.clock);
    var s2 := states[|steps|];
    states, steps := RunsExport(cfg, states, steps, s2, n, Pass(1, 1, OutOfTime));
  }

  /** With the default limit of one hung call, and whatever the threshold, a probe let by after the cooldown while the
      timed-out call is still out blocks the breaker. */
  lemma BlockingIsReachable(cfg: Config) returns (states: seq<State>, steps: seq<Step>)
    requires cfg.Valid() && cfg.maxHungCalls == 1
    ensures IsRun(cfg, states, steps) && Blocked(states[|steps|])
  {
    states, steps := ReachOpen(cfg);
    var e := cfg.failureThreshold;
    states, steps := RunsTake(cfg, states, steps, states[|steps|]);
    var s1 := states[|steps|];
    states, steps := PassesBreaker(cfg, states, steps, s1, e, 1 + cfg.cooldown);
    var s2 := states[|steps|];
    states, steps := Extend(cfg, states, steps, Gate(SeeLimit), MoveWorker(s2, Dropping(e)));
  }

  /** The passes follow one another in time. */
  predicate Chronological(clock: int, passes: seq<Pass>)
    decreases |passes|
  {
    passes == [] ||
    (clock <= passes[0].now <= passes[0].later && passes[0].later > 0 && Chronological(passes[0].later, passes[1..]))
  }

  lemma ChronologicalLater(clock: int, clock': int, passes: seq<Pass>)
    requires Chronological(clock, passes) && clock' <= clock
    ensures Chronological(clock', passes)
  {
  }

  // -------------------------------------------------------------- the object

  class Exporter {
    const cfg: Config

    var queue: seq<Event>
    var accepted: int
    var exported: int
    var dropped: int
    var timedOut: int
    var panics: int
    var inFlight: bool
    var hungCalls: int
    var consecutiveFailures: int
    var breakerOpenedAt: int
    var halfOpen: bool
    var closed: bool

    ghost var states: seq<State>
    ghost var steps: seq<Step>
    ghost var state: State

    ghost predicate Traced()
      reads this`states, this`steps, this`state
    {
      IsRun(cfg, states, steps) && state == states[|steps|]
    }

    /** The fields agree with a state. */
    ghost predicate Agrees(s: State)
      reads this
    {
      && queue == s.flow.queue
      && accepted == s.books.accepted && exported == s.books.exported && dropped == s.books.dropped
      && timedOut == s.books.timedOut && panics == s.books.panics
      && inFlight == s.calls.slot && hungCalls == s.calls.hungCalls
      && consecutiveFailures == s.breaker.failures && breakerOpenedAt == s.breaker.openedAt
      && halfOpen == s.breaker.halfOpen && closed == s.closed
    }

    /** The fields are where the run has got to. */
    ghost predicate Valid()
      reads this
    {
      Traced() && Agrees(state)
    }

    constructor (cfg: Config)
      ensures Valid() && this.cfg == cfg && state == INITIAL
    {
      this.cfg := cfg;
      queue, accepted, exported, dropped, timedOut, panics := [], 0, 0, 0, 0, 0;
      inFlight, hungCalls, consecutiveFailures, breakerOpenedAt, halfOpen, closed := false, 0, 0, 0, false, false;
      states, steps, state := [INITIAL], [], INITIAL;
    }

    /** `recordSuccess` on the breaker's variables. */
    method RecordSuccess()
      modifies this`consecutiveFailures, this`breakerOpenedAt, this`halfOpen
      ensures consecutiveFailures == 0 && breakerOpenedAt == 0 && !halfOpen
    {
      consecutiveFailures := 0;
      breakerOpenedAt := 0;
      halfOpen := false;
    }

    /** `recordFailure` on the breaker's variables. */
    method RecordFailure(now: int, ghost b: Breaker)
      requires consecutiveFailures == b.failures && breakerOpenedAt == b.openedAt
      modifies this`consecutiveFailures, this`breakerOpenedAt, this`halfOpen
      ensures var b' := FailedBreaker(cfg, b, now);
              consecutiveFailures == b'.failures && breakerOpenedAt == b'.openedAt && halfOpen == b'.halfOpen
    {
      consecutiveFailures := consecutiveFailures + 1;
      halfOpen := false;
      if consecutiveFailures >= cfg.failureThreshold {
        breakerOpenedAt := now;
      }
    }

    /** `allowDelivery`: lets the worker by exactly when the breaker leaves it allowed. */
    method AllowDelivery(ghost s: State, ghost e: Event, now: int) returns (ok: bool)
      requires breakerOpenedAt == s.breaker.openedAt && halfOpen == s.breaker.halfOpen
      modifies this`halfOpen
      ensures var s' := AfterBreaker(cfg, s, e, now); halfOpen == s'.breaker.halfOpen && (ok <==> s'.flow.worker.Allowed?)
    {
      if breakerOpenedAt == 0 {
        return true;
      }
      if now - breakerOpenedAt < cfg.cooldown {
        return false;
      }
      ok := !halfOpen;
      halfOpen := true;
    }

    /** The call and what comes of it, on the fields. */
    method CallExporter(ghost s: State, ghost e: Event, result: CallResult, later: int)
      requires Agrees(s) && !inFlight
      modifies this`exported, this`timedOut, this`panics, this`inFlight, this`hungCalls,
               this`consecutiveFailures, this`breakerOpenedAt, this`halfOpen
      ensures Agrees(match result
                     case Completes(panicked) => AfterCompletion(cfg, s, e, panicked, later)
                     case OutOfTime => AfterTimeout(cfg, s, e, later))
    {
      match result
      case Completes(panicked) =>
        if panicked {
          panics := panics + 1;
          RecordFailure(later, s.breaker);
        } else {
          exported := exported + 1;
          RecordSuccess();
        }
      case OutOfTime =>
        inFlight := true;
        hungCalls := hungCalls + 1;
        timedOut := timedOut + 1;
        RecordFailure(later, s.breaker);
    }

    /** `export` on the fields. */
    method ExportFields(ghost s: State, ghost e: Event, pass: Pass)
      requires Agrees(s) && s.flow.worker == Delivering(e) && s.clock <= pass.now
      modifies this`exported, this`dropped, this`timedOut, this`panics, this`inFlight, this`hungCalls,
               this`consecutiveFailures, this`breakerOpenedAt, this`halfOpen
      ensures Agrees(AfterExport(cfg, s, e, pass))
    {
      BreakerDecides(cfg, s, e, pass.now);
      ghost var s1 := AfterBreaker(cfg, s, e, pass.now);
      var allowed := AllowDelivery(s, e, pass.now);
      if !allowed {
        dropped := dropped + 1;
        return;
      }
      if hungCalls >= cfg.maxHungCalls {
        dropped := dropped + 1;
        return;
      }
      if inFlight {
        halfOpen := false;
        dropped := dropped + 1;
        return;
      }
      CallExporter(s1, e, pass.result, pass.later);
    }

    /** `export`: the event is delivered with the outcome that the gates and the call decide, and the worker is back where
        it waits. */
    method Export(ghost e: Event, pass: Pass)
      requires Valid() && state.flow.worker == Delivering(e)
      requires state.clock <= pass.now <= pass.later && pass.later > 0
      modifies this
      ensures Valid() && old(state).clock <= state.clock <= pass.later
      ensures Finishes(old(state), state, e, PassOutcome(cfg, old(state), pass))
    {
      ExportFields(state, e, pass);
      ExportFinishes(cfg, state, e, pass);
      states, steps := RunsExport(cfg, states, steps, state, e, pass);
      state := states[|steps|];
    }

    /** One turn of the worker's loop: the oldest event leaves the queue and is exported. */
    method Deliver(pass: Pass)
      requires Valid() && state.flow.worker == Waiting && queue != []
      requires state.clock <= pass.now <= pass.later && pass.later > 0
      modifies this
      ensures Valid() && state.clock <= pass.later && queue == old(queue)[1..]
      ensures Finishes(old(state).(flow := TakeFlow(old(state).flow)), state, old(queue)[0],
                       PassOutcome(cfg, old(state), pass))
    {
      ghost var e := queue[0];
      queue := queue[1..];
      states, steps := RunsTake(cfg, states, steps, state);
      state := state.(flow := TakeFlow(state.flow));
      assert PassOutcome(cfg, state, pass) == PassOutcome(cfg, old(state), pass);
      Export(e, pass);
    }

    /** `drain`: every event that was queued is delivered, and nothing is left. */
    method Drain(passes: seq<Pass>)
      requires Valid() && state.flow.worker == Waiting
      requires |passes| == |queue| && Chronological(state.clock, passes)
      modifies this
      ensures Valid() && state.flow.worker == Waiting && queue == []
      ensures state.flow.producers == old(state).flow.producers
      ensures closed == old(closed) && state.draining == old(state).draining && accepted == old(accepted)
      ensures forall e :: e in old(queue) ==> e in state.flow.place && state.flow.place[e].Delivered?
      ensures exported + dropped + timedOut + panics
              == old(exported) + old(dropped) + old(timedOut) + old(panics) + |old(queue)|
    {
      var i := 0;
      while queue != []
        invariant Valid() && state.flow.worker == Waiting
        invariant 0 <= i <= |passes| && queue == old(queue)[i..] && Chronological(state.clock, passes[i..])
        invariant state.flow.producers == old(state).flow.producers
        invariant closed == old(closed) && state.draining == old(state).draining && accepted == old(accepted)
        invariant forall k :: 0 <= k < i ==>
                  old(queue)[k] in state.flow.place && state.flow.place[old(queue)[k]].Delivered?
        invariant exported + dropped + timedOut + panics
                  == old(exported) + old(dropped) + old(timedOut) + old(panics) + i
        decreases |queue|
      {
        assert passes[i..][1..] == passes[i + 1..];
        ghost var before := state;
        Deliver(passes[i]);
        assert old(queue)[i..][1..] == old(queue)[i + 1..];
        ChronologicalLater(passes[i].later, state.clock, passes[i + 1..]);
        i := i + 1;
      }
    }

    /** `Close`: the first call drains the queue and stops the worker; further calls do nothing. */
    method Close(passes: seq<Pass>)
      requires Valid()
      requires !closed ==>
                 && state.flow.producers == map[] && state.flow.worker == Waiting
                 && |passes| == |queue| && Chronological(state.clock, passes)
      modifies this
      ensures Valid() && closed
      ensures old(closed) ==> state == old(state)
      ensures !old(closed) ==>
                && queue == [] && state.flow.worker == Exited && accepted == old(accepted)
                && accepted + |LateCalls(state.calls)| == exported + timedOut + panics + (dropped - state.books.entryDrops)
                && forall e :: e in old(queue) ==> e in state.flow.place && state.flow.place[e].Delivered?
    {
      if closed {
        return;
      }
      closed := true;
      states, steps := RunsBegin(cfg, states, steps, state);
      state := state.(closed := true, draining := true);
      Drain(passes);
      states, steps := RunsEnd(cfg, states, steps, state);
      state := states[|steps|];
      CountersAddUpExactly(cfg, states, steps, |steps|);
    }

    /** `ExportRPCMuxDiagnosisEvent` on the fields. */
    method OfferFields(ghost s: State, e: Event, paused: bool, now: int, ghost clock: int) returns (queued: bool)
      requires Agrees(s)
      modifies this`queue, this`accepted, this`dropped
      ensures Agrees(AfterEvent(cfg, s, e, paused, now, clock)) && queued == Admits(cfg, s, paused, now)
    {
      if closed {
        return false;
      }
      if paused || hungCalls >= cfg.maxHungCalls || (breakerOpenedAt != 0 && now - breakerOpenedAt < cfg.cooldown) {
        dropped := dropped + 1;
        return false;
      }
      if |queue| < cfg.queueSize {
        queue := queue + [e];
        accepted := accepted + 1;
        return true;
      }
      dropped := dropped + 1;
      return false;
    }

    /** `ExportRPCMuxDiagnosisEvent`: the event is queued exactly when every admission check lets it by. */
    method Offer(t: Thread, e: Event, paused: bool, now: int) returns (queued: bool)
      requires Valid() && t !in state.flow.producers && e !in state.flow.place && now >= state.clock
      modifies this
      ensures Valid() && queued == Admits(cfg, old(state), paused, now)
      ensures queue == if queued then old(queue) + [e] else old(queue)
      ensures accepted == old(accepted) + (if queued then 1 else 0)
      ensures dropped == old(dropped) + (if queued || closed then 0 else 1)
      ensures exported == old(exported) && timedOut == old(timedOut) && panics == old(panics) && closed == old(closed)
      ensures state.calls == old(state).calls && state.breaker == old(state).breaker
      ensures state.flow.worker == old(state).flow.worker && state.flow.producers == old(state).flow.producers
      ensures state.flow.place == if closed then old(state).flow.place
                                  else old(state).flow.place[e := if queued then Queued else TurnedAway]
    {
      ghost var s, clock := state, 0;
      states, steps, clock := RunsEvent(cfg, states, steps, s, t, e, paused, now);
      queued := OfferFields(s, e, paused, now, clock);
      state := AfterEvent(cfg, s, e, paused, now, clock);
    }

    /** A call comes back after its timeout: it gives back the slot and its share of `hungCalls`, and is not exported. */
    method FinishHungCall(ghost id: CallId, panicked: bool)
      requires Valid() && id in state.calls.live && state.calls.live[id] == Running && id in state.calls.abandoned
      modifies this
      ensures Valid() && !inFlight && hungCalls == old(hungCalls) - 1
      ensures panics == old(panics) + (if panicked then 1 else 0) && exported == old(exported) && dropped == old(dropped)
      ensures state.flow == old(state).flow && state.breaker == old(state).breaker && id !in state.calls.live
    {
      if panicked {
        panics := panics + 1;
      }
      hungCalls := hungCalls - 1;
      inFlight := false;
      states, steps := RunsHungCall(cfg, states, steps, state, id, panicked);
      state := states[|steps|];
    }

    /** An operator's forced probe: from a breaker that blocks, and would drop every event, to one that lets the next event
        by to the hung-call limit and the slot. */
    method ForceProbe()
      requires Valid() && state.breaker.forcing == 0
      modifies this
      ensures Valid() && !Blocked(state)
      ensures state == old(state).(breaker := old(state).breaker.(openedAt := 0, halfOpen := false))
      ensures Blocked(old(state)) ==> forall pass :: PassOutcome(cfg, old(state), pass) == Dropped
      ensures forall pass ::
                PassOutcome(cfg, state, pass) == if hungCalls >= cfg.maxHungCalls || inFlight then Dropped else ResultOutcome(pass.result)
    {
      breakerOpenedAt := 0;
      halfOpen := false;
      states, steps := RunsForce(cfg, states, steps, state);
      state := states[|steps|];
    }
  }
}
