/** Governed export delivery (rpc/mux_export_delivery.go): a bounded queue, one worker, a one-slot gate for exporter
    calls, timeouts and panics, a circuit breaker, and a drain on close. Producers, the worker, the goroutines of the
    exporter calls, operators who force probes and Close interleave freely. Every load, store, addition and
    compare-and-swap of a shared variable, every channel operation and every reading of the clock is a step of its own. */
module Delivery {
  import opened GoStrings

  type Event = nat
  type Thread = nat
  type CallId = nat

  datatype Config = Config(queueSize: int, maxHungCalls: int, failureThreshold: int, cooldown: int) {
    ghost predicate Valid() {
      queueSize > 0 && maxHungCalls > 0 && failureThreshold > 0 && cooldown > 0
    }
  }

  /** A producer under the read lock: let in, past the error budget, past the hung-call limit, with the opening time it
      loaded, past the breaker, about to count a drop, or with its event in the queue. */
  datatype Producer =
    | Inside(event: Event)
    | Funded(event: Event)
    | Unhung(event: Event)
    | Measuring(event: Event, at: int)
    | Passed(event: Event)
    | Rejecting(event: Event)
    | Sent

  /** The worker: waiting for an event; with an event at the gates; in a call; counting what came of it; or in the stores
      with which a success (`Succeeding` on) or a failure (`Failing` on) is recorded. */
  datatype Worker =
    | Waiting
    | Delivering(event: Event)
    | Loaded(event: Event, at: int)
    | Probing(event: Event)
    | Allowed(event: Event)
    | Ready(event: Event)
    | BackingOff(event: Event)
    | Dropping(event: Event)
    | Calling(event: Event, id: CallId)
    | Completed(event: Event)
    | Flagged(event: Event, id: CallId)
    | Hung(event: Event)
    | Succeeding
    | Closing
    | Clearing
    | Failing
    | Failed(at: int)
    | Counted(at: int)
    | Opening(at: int)
    | Exited

  datatype Outcome = Exported | Panicked | TimedOut | Dropped

  /** Where an event is: with a producer under the read lock, turned away there, in the queue, in the worker's hands,
      or delivered with an outcome. */
  datatype Where = With(t: Thread) | TurnedAway | Queued | InHand | Delivered(outcome: Outcome)

  /** What events flow through. */
  datatype Flow = Flow(queue: seq<Event>, producers: map<Thread, Producer>, worker: Worker, place: map<Event, Where>)

  /** The exporter's counters; `sent`, `entryDrops` and `latePanics` count events sent into the queue, events dropped
      before it, and panics of calls whose event timed out, before or after the timeout. */
  datatype Books = Books(accepted: int, exported: int, dropped: int, timedOut: int, panics: int,
                         sent: int, entryDrops: int, latePanics: int)

  /** A call's goroutine: in the exporter, past it, with its result posted, having seen the timeout flag, and about to
      free the slot. */
  datatype Call = Running | Returned(panicked: bool) | Posted | Owes | Freeing

  /** The `inFlight` slot and the goroutines of calls; `results` holds what calls have posted, `abandoned` the calls whose
      timeout flag is set, and `leaks` counts flags that were set when the call had already looked. */
  datatype Calls = Calls(slot: bool, live: map<CallId, Call>, results: map<CallId, bool>, abandoned: set<CallId>,
                         next: CallId, hungCalls: int, leaks: int)

  /** The breaker's variables, and how many forced probes are between their two stores. */
  datatype Breaker = Breaker(failures: int, openedAt: int, halfOpen: bool, forcing: int)

  datatype State = State(flow: Flow, books: Books, calls: Calls, breaker: Breaker,
                         closed: bool, draining: bool, returned: bool, clock: int)

  /** A new exporter. */
  const INITIAL := State(Flow([], map[], Waiting, map[]), Books(0, 0, 0, 0, 0, 0, 0, 0), Calls(false, map[], map[], {}, 0, 0, 0),
                         Breaker(0, 0, false, 0), false, false, false, 0)

  // ------------------------------------------------ how events move

  function Hand(w: Worker): Option<Event> {
    if w.Delivering? || w.Loaded? || w.Probing? || w.Allowed? || w.Ready? || w.BackingOff? || w.Dropping?
       || w.Calling? || w.Completed? || w.Flagged? || w.Hung?
    then Some(w.event) else None
  }

  function EnterFlow(f: Flow, t: Thread, e: Event): Flow {
    f.(producers := f.producers[t := Inside(e)], place := f.place[e := With(t)])
  }

  function HoldFlow(f: Flow, t: Thread, p: Producer): Flow {
    f.(producers := f.producers[t := p])
  }

  function LeaveFlow(f: Flow, t: Thread, e: Event): Flow {
    f.(producers := f.producers - {t}, place := f.place[e := TurnedAway])
  }

  function PushFlow(f: Flow, t: Thread, e: Event): Flow {
    f.(queue := f.queue + [e], producers := f.producers[t := Sent], place := f.place[e := Queued])
  }

  function DoneFlow(f: Flow, t: Thread): Flow {
    f.(producers := f.producers - {t})
  }

  function TakeFlow(f: Flow): Flow
    requires f.queue != []
  {
    f.(queue := f.queue[1..], worker := Delivering(f.queue[0]), place := f.place[f.queue[0] := InHand])
  }

  function FinishFlow(f: Flow, e: Event, o: Outcome, next: Worker): Flow {
    f.(worker := next, place := f.place[e := Delivered(o)])
  }

  function MoveWorker(s: State, w: Worker): State {
    s.(flow := s.flow.(worker := w))
  }

  function Hold(s: State, t: Thread, p: Producer): State {
    s.(flow := HoldFlow(s.flow, t, p))
  }

  // -------------------------------------------------------------- producers

  /** `ExportRPCMuxDiagnosisEvent`, one access at a time: the lock and `closed`, the error budget, `hungCalls`,
      `breakerOpenedAt`, the clock, the queue, and the counter of what happened. */
  datatype ProducerStep =
    | Enter(e: Event)
    | Budget(paused: bool)
    | SeeHung
    | LoadOpening
    | ReadClock(now: int)
    | Send
    | Reject
    | Accept

  ghost predicate CanProduce(s: State, t: Thread, p: ProducerStep) {
    var f := s.flow;
    match p
    case Enter(e) => t !in f.producers && e !in f.place
    case Budget(_) => t in f.producers && f.producers[t].Inside?
    case SeeHung => t in f.producers && f.producers[t].Funded?
    case LoadOpening => t in f.producers && f.producers[t].Unhung?
    case ReadClock(now) => t in f.producers && f.producers[t].Measuring? && now >= s.clock
    case Send => t in f.producers && f.producers[t].Passed?
    case Reject => t in f.producers && f.producers[t].Rejecting?
    case Accept => t in f.producers && f.producers[t].Sent?
  }

  function SendStep(cfg: Config, s: State, t: Thread, e: Event): State {
    if |s.flow.queue| < cfg.queueSize then s.(flow := PushFlow(s.flow, t, e), books := s.books.(sent := s.books.sent + 1))
    else Hold(s, t, Rejecting(e))
  }

  function RejectStep(s: State, t: Thread, e: Event): State {
    s.(flow := LeaveFlow(s.flow, t, e), books := s.books.(dropped := s.books.dropped + 1, entryDrops := s.books.entryDrops + 1))
  }

  function AcceptStep(s: State, t: Thread): State {
    s.(flow := DoneFlow(s.flow, t), books := s.books.(accepted := s.books.accepted + 1))
  }

  /** Where an admission check leaves its producer. */
  function Admission(cfg: Config, s: State, p: ProducerStep, origin: Producer): Producer
    requires origin != Sent
  {
    var e := origin.event;
    match p
    case Budget(paused) => if paused then Rejecting(e) else Funded(e)
    case SeeHung => if s.calls.hungCalls >= cfg.maxHungCalls then Rejecting(e) else Unhung(e)
    case LoadOpening => if s.breaker.openedAt == 0 then Passed(e) else Measuring(e, s.breaker.openedAt)
    case ReadClock(now) => if origin.Measuring? && now - origin.at >= cfg.cooldown then Passed(e) else Rejecting(e)
    case _ => origin
  }

  ghost function Produced(cfg: Config, s: State, t: Thread, p: ProducerStep): State
    requires CanProduce(s, t, p)
  {
    match p
    case Enter(e) => if s.closed then s else s.(flow := EnterFlow(s.flow, t, e))
    case Send => SendStep(cfg, s, t, s.flow.producers[t].event)
    case Reject => RejectStep(s, t, s.flow.producers[t].event)
    case Accept => AcceptStep(s, t)
    case _ => Hold(s, t, Admission(cfg, s, p, s.flow.producers[t])).(clock := if p.ReadClock? then p.now else s.clock)
  }

  // -------------------------------------------------------------- the gates

  /** The start of `export`, one access at a time: `allowDelivery` loads the opening time, reads the clock and tries the
      half-open flag; then come `hungCalls` and the slot, and the counter of a drop. */
  datatype GateStep = Take | Load | Clock(now: int) | Probe | SeeLimit | TakeSlot | BackOff | Drop

  ghost predicate CanPass(s: State, g: GateStep) {
    var w := s.flow.worker;
    match g
    case Take => w.Waiting? && s.flow.queue != []
    case Load => w.Delivering?
    case Clock(now) => w.Loaded? && now >= s.clock
    case Probe => w.Probing?
    case SeeLimit => w.Allowed?
    case TakeSlot => w.Ready?
    case BackOff => w.BackingOff?
    case Drop => w.Dropping?
  }

  function StartCall(c: Calls): Calls {
    c.(slot := true, live := c.live[c.next := Running], next := c.next + 1)
  }

  function TakeSlotStep(s: State, e: Event): State {
    if s.calls.slot then MoveWorker(s, BackingOff(e))
    else MoveWorker(s, Calling(e, s.calls.next)).(calls := StartCall(s.calls))
  }

  function ProbeStep(s: State, e: Event): State {
    if s.breaker.halfOpen then MoveWorker(s, Dropping(e))
    else MoveWorker(s, Allowed(e)).(breaker := s.breaker.(halfOpen := true))
  }

  function DropStep(s: State, e: Event): State {
    s.(flow := FinishFlow(s.flow, e, Dropped, Waiting), books := s.books.(dropped := s.books.dropped + 1))
  }

  ghost function Gated(cfg: Config, s: State, g: GateStep): State
    requires CanPass(s, g)
  {
    var w := s.flow.worker;
    match g
    case Take => s.(flow := TakeFlow(s.flow))
    case Load => MoveWorker(s, if s.breaker.openedAt == 0 then Allowed(w.event) else Loaded(w.event, s.breaker.openedAt))
    case Clock(now) => MoveWorker(s, if now - w.at < cfg.cooldown then Dropping(w.event) else Probing(w.event)).(clock := now)
    case Probe => ProbeStep(s, w.event)
    case SeeLimit => MoveWorker(s, if s.calls.hungCalls >= cfg.maxHungCalls then Dropping(w.event) else Ready(w.event))
    case TakeSlot => TakeSlotStep(s, w.event)
    case BackOff => MoveWorker(s, Dropping(w.event)).(breaker := s.breaker.(halfOpen := false))
    case Drop => DropStep(s, w.event)
  }

  // ------------------------------------------------- what comes of a call

  /** The end of `export`: a result is received and counted, or the timeout flag is set and `hungCalls` and `timedOut`
      are counted up. */
  datatype OutcomeStep = Receive | CountExported | Flag | CountHung | CountTimedOut

  ghost predicate CanConclude(s: State, o: OutcomeStep) {
    var w := s.flow.worker;
    match o
    case Receive => w.Calling? && w.id in s.calls.results
    case CountExported => w.Completed?
    case Flag => w.Calling?
    case CountHung => w.Flagged?
    case CountTimedOut => w.Hung?
  }

  function ReceiveStep(s: State, e: Event, panicked: bool): State {
    if panicked then s.(flow := FinishFlow(s.flow, e, Panicked, Failing)) else MoveWorker(s, Completed(e))
  }

  function CountExportedStep(s: State, e: Event): State {
    s.(flow := FinishFlow(s.flow, e, Exported, Succeeding), books := s.books.(exported := s.books.exported + 1))
  }

  /** The call has counted a panic. */
  function PanicSeen(c: Calls, id: CallId): int {
    if (id in c.live && c.live[id] == Returned(true)) || (id in c.results && c.results[id]) then 1 else 0
  }

  function SetFlag(c: Calls, id: CallId): Calls {
    c.(abandoned := c.abandoned + {id}, leaks := if id !in c.live || c.live[id].Freeing? then c.leaks + 1 else c.leaks)
  }

  function FlagStep(s: State, e: Event, id: CallId): State {
    MoveWorker(s, Flagged(e, id)).(calls := SetFlag(s.calls, id),
                                   books := s.books.(latePanics := s.books.latePanics + PanicSeen(s.calls, id)))
  }

  function CountHungStep(s: State, e: Event): State {
    MoveWorker(s, Hung(e)).(calls := s.calls.(hungCalls := s.calls.hungCalls + 1))
  }

  function CountTimedOutStep(s: State, e: Event): State {
    s.(flow := FinishFlow(s.flow, e, TimedOut, Failing), books := s.books.(timedOut := s.books.timedOut + 1))
  }

  ghost function Concluded(s: State, o: OutcomeStep): State
    requires CanConclude(s, o)
  {
    var w := s.flow.worker;
    match o
    case Receive => ReceiveStep(s, w.event, s.calls.results[w.id])
    case CountExported => CountExportedStep(s, w.event)
    case Flag => FlagStep(s, w.event, w.id)
    case CountHung => CountHungStep(s, w.event)
    case CountTimedOut => CountTimedOutStep(s, w.event)
  }

  // ---------------------------------------------------- recordSuccess, recordFailure

  /** The stores of `recordSuccess`, and the clock, the addition and the stores of `recordFailure`. */
  datatype RecordStep = Reset | StoreClosed | ClearProbe | StartFailure(now: int) | Count | ClearFailed | StoreOpen

  ghost predicate CanRecord(s: State, r: RecordStep) {
    var w := s.flow.worker;
    match r
    case Reset => w.Succeeding?
    case StoreClosed => w.Closing?
    case ClearProbe => w.Clearing?
    case StartFailure(now) => w.Failing? && now >= s.clock && now > 0
    case Count => w.Failed?
    case ClearFailed => w.Counted?
    case StoreOpen => w.Opening?
  }

  ghost function Recorded(cfg: Config, s: State, r: RecordStep): State
    requires CanRecord(s, r)
  {
    var b, w := s.breaker, s.flow.worker;
    match r
    case Reset => MoveWorker(s, Closing).(breaker := b.(failures := 0))
    case StoreClosed => MoveWorker(s, Clearing).(breaker := b.(openedAt := 0))
    case ClearProbe => MoveWorker(s, Waiting).(breaker := b.(halfOpen := false))
    case StartFailure(now) => MoveWorker(s, Failed(now)).(clock := now)
    case Count => MoveWorker(s, Counted(w.at)).(breaker := b.(failures := b.failures + 1))
    case ClearFailed => MoveWorker(s, Opening(w.at)).(breaker := b.(halfOpen := false))
    case StoreOpen => MoveWorker(s, Waiting).(breaker := if b.failures >= cfg.failureThreshold then b.(openedAt := w.at) else b)
  }

  // ------------------------------------------------------ a call's goroutine

  /** The exporter returns or panics, the result is posted, the timeout flag is looked at, `hungCalls` is given back if it
      was set, and the slot is freed. */
  datatype CallStep = Return(panicked: bool) | Post | Look | GiveBack | Free

  ghost predicate CanCall(c: Calls, id: CallId, step: CallStep) {
    && id in c.live
    && match step
       case Return(_) => c.live[id].Running?
       case Post => c.live[id].Returned?
       case Look => c.live[id].Posted?
       case GiveBack => c.live[id].Owes?
       case Free => c.live[id].Freeing?
  }

  function MoveCall(c: Calls, id: CallId, next: Call): Calls {
    c.(live := c.live[id := next])
  }

  function ReturnStep(s: State, id: CallId, panicked: bool): State {
    s.(calls := MoveCall(s.calls, id, Returned(panicked)),
       books := if !panicked then s.books
                else s.books.(panics := s.books.panics + 1,
                              latePanics := if id in s.calls.abandoned then s.books.latePanics + 1 else s.books.latePanics))
  }

  function PostResult(c: Calls, id: CallId, panicked: bool): Calls {
    MoveCall(c, id, Posted).(results := c.results[id := panicked])
  }

  function LookAtFlag(c: Calls, id: CallId): Calls {
    MoveCall(c, id, if id in c.abandoned then Owes else Freeing)
  }

  function GiveBackHung(c: Calls, id: CallId): Calls {
    MoveCall(c, id, Freeing).(hungCalls := c.hungCalls - 1)
  }

  function FreeSlot(c: Calls, id: CallId): Calls {
    c.(live := c.live - {id}, slot := false)
  }

  ghost function AfterCall(s: State, id: CallId, step: CallStep): State
    requires CanCall(s.calls, id, step)
  {
    match step
    case Return(panicked) => ReturnStep(s, id, panicked)
    case Post => s.(calls := PostResult(s.calls, id, s.calls.live[id].panicked))
    case Look => s.(calls := LookAtFlag(s.calls, id))
    case GiveBack => s.(calls := GiveBackHung(s.calls, id))
    case Free => s.(calls := FreeSlot(s.calls, id))
  }

  // ---------------------------------------------------- closing and forcing

  /** The worker sees `done` and ends its drain; an operator forces a probe in two stores; Close begins and returns. */
  datatype ControlStep = SeeDone | DrainEnd | ForceClosed | ForceProbe | BeginClose | EndClose

  ghost predicate CanControl(s: State, m: ControlStep) {
    var w := s.flow.worker;
    match m
    case SeeDone => w.Waiting? && s.closed
    case DrainEnd => w.Waiting? && s.draining && s.flow.queue == []
    case ForceClosed => true
    case ForceProbe => s.breaker.forcing > 0
    case BeginClose => !s.closed && s.flow.producers == map[]
    case EndClose => s.closed && w.Exited?
  }

  ghost function Controlled(s: State, m: ControlStep): State {
    match m
    case SeeDone => s.(draining := true)
    case DrainEnd => MoveWorker(s, Exited)
    case ForceClosed => s.(breaker := s.breaker.(openedAt := 0, forcing := s.breaker.forcing + 1))
    case ForceProbe => s.(breaker := s.breaker.(halfOpen := false, forcing := s.breaker.forcing - 1))
    case BeginClose => s.(closed := true)
    case EndClose => s.(returned := true)
  }

  // -------------------------------------------------------------- all steps

  datatype Step =
    | Produce(t: Thread, p: ProducerStep)
    | Gate(g: GateStep)
    | Conclude(o: OutcomeStep)
    | Record(r: RecordStep)
    | InCall(id: CallId, c: CallStep)
    | Control(m: ControlStep)

  ghost predicate Enabled(s: State, step: Step) {
    match step
    case Produce(t, p) => CanProduce(s, t, p)
    case Gate(g) => CanPass(s, g)
    case Conclude(o) => CanConclude(s, o)
    case Record(r) => CanRecord(s, r)
    case InCall(id, c) => CanCall(s.calls, id, c)
    case Control(m) => CanControl(s, m)
  }

  ghost function Next(cfg: Config, s: State, step: Step): State
    requires Enabled(s, step)
  {
    match step
    case Produce(t, p) => Produced(cfg, s, t, p)
    case Gate(g) => Gated(cfg, s, g)
    case Conclude(o) => Concluded(s, o)
    case Record(r) => Recorded(cfg, s, r)
    case InCall(id, c) => AfterCall(s, id, c)
    case Control(m) => Controlled(s, m)
  }
}
