/** What every step of the governed exporter keeps about its events: each is in one place, and the counters count them. */
module DeliveryBooks {
  import opened GoStrings
  import opened Delivery

  // -------------------------------------------------- every event in one place

  ghost predicate HeldBy(f: Flow, t: Thread, e: Event) {
    t in f.producers && f.producers[t] != Sent && f.producers[t].event == e
  }

  /** An event is with one producer, in the queue, in the worker's hands, turned away or delivered. */
  ghost predicate EventOk(f: Flow, e: Event) {
    && (e in f.queue <==> e in f.place && f.place[e] == Queued)
    && (Hand(f.worker) == Some(e) <==> e in f.place && f.place[e] == InHand)
    && (forall t: Thread :: HeldBy(f, t, e) <==> e in f.place && f.place[e] == With(t))
  }

  ghost predicate FlowInv(f: Flow) {
    Distinct(f.queue) && forall e: Event :: EventOk(f, e)
  }

  lemma EnterKeepsFlow(f: Flow, t: Thread, e: Event)
    requires FlowInv(f) && t !in f.producers && e !in f.place
    ensures FlowInv(EnterFlow(f, t, e))
  {
    var f' := EnterFlow(f, t, e);
    forall d: Event ensures EventOk(f', d) {
      assert EventOk(f, d) && EventOk(f, e);
      forall u: Thread ensures HeldBy(f', u, d) <==> HeldBy(f, u, d) || (u == t && d == e) {}
    }
  }

  lemma HoldKeepsFlow(f: Flow, t: Thread, p: Producer)
    requires FlowInv(f) && p != Sent && HeldBy(f, t, p.event)
    ensures FlowInv(HoldFlow(f, t, p))
  {
    var f' := HoldFlow(f, t, p);
    forall d: Event ensures EventOk(f', d) {
      assert EventOk(f, d);
      forall u: Thread ensures HeldBy(f', u, d) <==> HeldBy(f, u, d) {}
    }
  }

  lemma LeaveKeepsFlow(f: Flow, t: Thread, e: Event)
    requires FlowInv(f) && HeldBy(f, t, e)
    ensures FlowInv(LeaveFlow(f, t, e))
  {
    var f' := LeaveFlow(f, t, e);
    assert EventOk(f, e);
    forall d: Event ensures EventOk(f', d) {
      assert EventOk(f, d);
      forall u: Thread ensures HeldBy(f', u, d) <==> HeldBy(f, u, d) && u != t {}
    }
  }

  lemma PushKeepsFlow(f: Flow, t: Thread, e: Event)
    requires FlowInv(f) && HeldBy(f, t, e)
    ensures FlowInv(PushFlow(f, t, e))
  {
    var f' := PushFlow(f, t, e);
    assert EventOk(f, e);
    forall d: Event ensures EventOk(f', d) {
      assert EventOk(f, d);
      assert d in f'.queue <==> d in f.queue || d == e;
      forall u: Thread ensures HeldBy(f', u, d) <==> HeldBy(f, u, d) && u != t {}
    }
  }

  lemma DoneKeepsFlow(f: Flow, t: Thread)
    requires FlowInv(f) && t in f.producers && f.producers[t] == Sent
    ensures FlowInv(DoneFlow(f, t))
  {
    var f' := DoneFlow(f, t);
    forall d: Event ensures EventOk(f', d) {
      assert EventOk(f, d);
      forall u: Thread ensures HeldBy(f', u, d) <==> HeldBy(f, u, d) {}
    }
  }

  lemma TakeKeepsFlow(f: Flow)
    requires FlowInv(f) && f.queue != [] && f.worker.Waiting?
    ensures FlowInv(TakeFlow(f))
  {
    var f' := TakeFlow(f);
    assert f.queue == [f.queue[0]] + f.queue[1..];
    assert EventOk(f, f.queue[0]);
    forall d: Event ensures EventOk(f', d) {
      assert EventOk(f, d);
      forall u: Thread ensures HeldBy(f', u, d) <==> HeldBy(f, u, d) {}
    }
  }

  lemma FinishKeepsFlow(f: Flow, e: Event, o: Outcome, next: Worker)
    requires FlowInv(f) && Hand(f.worker) == Some(e) && Hand(next) == None
    ensures FlowInv(FinishFlow(f, e, o, next))
  {
    var f' := FinishFlow(f, e, o, next);
    assert EventOk(f, e);
    forall d: Event ensures EventOk(f', d) {
      assert EventOk(f, d);
      forall u: Thread ensures HeldBy(f', u, d) <==> HeldBy(f, u, d) {}
    }
  }

  lemma MoveKeepsFlow(f: Flow, w: Worker)
    requires FlowInv(f) && Hand(f.worker) == Hand(w)
    ensures FlowInv(f.(worker := w))
  {
    var f' := f.(worker := w);
    forall d: Event ensures EventOk(f', d) {
      assert EventOk(f, d);
      forall u: Thread ensures HeldBy(f', u, d) <==> HeldBy(f, u, d) {}
    }
  }

  /** An admission check keeps the producer's event. */
  lemma AdmissionHolds(cfg: Config, s: State, p: ProducerStep, origin: Producer)
    requires origin != Sent
    ensures var next := Admission(cfg, s, p, origin); next != Sent && next.event == origin.event
  {
  }

  lemma ProducerKeepsFlow(cfg: Config, s: State, t: Thread, p: ProducerStep)
    requires FlowInv(s.flow) && CanProduce(s, t, p)
    ensures FlowInv(Produced(cfg, s, t, p).flow)
  {
    var f := s.flow;
    match p
    case Enter(e) => EnterKeepsFlow(f, t, e);
    case Send =>
      PushKeepsFlow(f, t, f.producers[t].event);
      HoldKeepsFlow(f, t, Rejecting(f.producers[t].event));
    case Reject => LeaveKeepsFlow(f, t, f.producers[t].event);
    case Accept => DoneKeepsFlow(f, t);
    case _ =>
      AdmissionHolds(cfg, s, p, f.producers[t]);
      HoldKeepsFlow(f, t, Admission(cfg, s, p, f.producers[t]));
  }

  /** The step moves the worker and leaves its hand, and everything else that events flow through, as it was. */
  ghost predicate OnlyMoves(f: Flow, f': Flow) {
    f' == f.(worker := f'.worker) && Hand(f'.worker) == Hand(f.worker)
  }

  lemma GateOnlyMoves(cfg: Config, s: State, g: GateStep)
    requires CanPass(s, g) && !g.Take? && !g.Drop?
    ensures OnlyMoves(s.flow, Gated(cfg, s, g).flow) && Gated(cfg, s, g).books == s.books
  {
  }

  /** The outcome with which a concluding step delivers the event, if it does. */
  ghost function Verdict(s: State, o: OutcomeStep): Option<Outcome>
    requires CanConclude(s, o)
  {
    match o
    case Receive => if s.calls.results[s.flow.worker.id] then Some(Panicked) else None
    case CountExported => Some(Exported)
    case CountTimedOut => Some(TimedOut)
    case _ => None
  }

  lemma ConclusionMoves(s: State, o: OutcomeStep)
    requires CanConclude(s, o)
    ensures var s', e := Concluded(s, o), s.flow.worker.event;
            match Verdict(s, o)
            case None => OnlyMoves(s.flow, s'.flow) && s'.books == s.books.(latePanics := s'.books.latePanics)
            case Some(v) => Hand(s'.flow.worker) == None && s'.flow == FinishFlow(s.flow, e, v, s'.flow.worker) && s'.books == Booked(s.books, v)
  {
  }

  lemma RecordOnlyMoves(cfg: Config, s: State, r: RecordStep)
    requires CanRecord(s, r)
    ensures OnlyMoves(s.flow, Recorded(cfg, s, r).flow) && Recorded(cfg, s, r).books == s.books
  {
  }

  lemma CallOnlyMoves(s: State, id: CallId, step: CallStep)
    requires CanCall(s.calls, id, step)
    ensures var s' := AfterCall(s, id, step);
            s'.flow == s.flow && s'.books == s.books.(panics := s'.books.panics, latePanics := s'.books.latePanics)
  {
  }

  lemma ControlOnlyMoves(s: State, m: ControlStep)
    requires CanControl(s, m)
    ensures OnlyMoves(s.flow, Controlled(s, m).flow) && Controlled(s, m).books == s.books
  {
  }

  lemma GateKeepsFlow(cfg: Config, s: State, g: GateStep)
    requires FlowInv(s.flow) && CanPass(s, g)
    ensures FlowInv(Gated(cfg, s, g).flow)
  {
    if g.Take? {
      TakeKeepsFlow(s.flow);
    } else if g.Drop? {
      FinishKeepsFlow(s.flow, s.flow.worker.event, Dropped, Waiting);
    } else {
      GateOnlyMoves(cfg, s, g);
      MoveKeepsFlow(s.flow, Gated(cfg, s, g).flow.worker);
    }
  }

  lemma ConclusionKeepsFlow(s: State, o: OutcomeStep)
    requires FlowInv(s.flow) && CanConclude(s, o)
    ensures FlowInv(Concluded(s, o).flow)
  {
    ConclusionMoves(s, o);
    var w' := Concluded(s, o).flow.worker;
    if Verdict(s, o).Some? {
      FinishKeepsFlow(s.flow, s.flow.worker.event, Verdict(s, o).value, w');
    } else {
      MoveKeepsFlow(s.flow, w');
    }
  }

  lemma StepKeepsFlow(cfg: Config, s: State, step: Step)
    requires FlowInv(s.flow) && Enabled(s, step)
    ensures FlowInv(Next(cfg, s, step).flow)
  {
    if step.Produce? {
      ProducerKeepsFlow(cfg, s, step.t, step.p);
    } else if step.Gate? {
      GateKeepsFlow(cfg, s, step.g);
    } else if step.Conclude? {
      ConclusionKeepsFlow(s, step.o);
    } else if step.Record? {
      RecordOnlyMoves(cfg, s, step.r);
      MoveKeepsFlow(s.flow, Recorded(cfg, s, step.r).flow.worker);
    } else if step.InCall? {
      CallOnlyMoves(s, step.id, step.c);
    } else {
      ControlOnlyMoves(s, step.m);
      MoveKeepsFlow(s.flow, Controlled(s, step.m).flow.worker);
    }
  }

  // ------------------------------------------------------------- the books

  ghost function WithOutcome(place: map<Event, Where>, o: Outcome): set<Event> {
    set e | e in place && place[e] == Delivered(o)
  }

  ghost function Outcomes(place: map<Event, Where>, o: Outcome): nat {
    |WithOutcome(place, o)|
  }

  ghost function DeliveredCount(place: map<Event, Where>): nat {
    Outcomes(place, Exported) + Outcomes(place, Panicked) + Outcomes(place, TimedOut) + Outcomes(place, Dropped)
  }

  lemma CardWithout(s: set<Event>, e: Event)
    ensures |s| == |s - {e}| + if e in s then 1 else 0
  {
    if e in s {
      assert s == (s - {e}) + {e};
    } else {
      assert s == s - {e};
    }
  }

  lemma SameElsewhere(place: map<Event, Where>, e: Event, w: Where, o: Outcome)
    ensures WithOutcome(place[e := w], o) - {e} == WithOutcome(place, o) - {e}
    ensures e in WithOutcome(place[e := w], o) <==> w == Delivered(o)
    ensures e in WithOutcome(place, o) <==> e in place && place[e] == Delivered(o)
  {
    var before, after := WithOutcome(place, o), WithOutcome(place[e := w], o);
    forall d | d != e ensures d in after <==> d in before {}
  }

  lemma OutcomesMoved(place: map<Event, Where>, e: Event, w: Where, o: Outcome)
    ensures Outcomes(place[e := w], o) ==
            Outcomes(place, o) - (if e in place && place[e] == Delivered(o) then 1 else 0) + (if w == Delivered(o) then 1 else 0)
  {
    SameElsewhere(place, e, w, o);
    CardWithout(WithOutcome(place, o), e);
    CardWithout(WithOutcome(place[e := w], o), e);
  }

  lemma OutcomesKept(place: map<Event, Where>, e: Event, w: Where)
    requires e !in place || !place[e].Delivered?
    requires !w.Delivered?
    ensures forall o :: Outcomes(place[e := w], o) == Outcomes(place, o)
  {
    forall o ensures Outcomes(place[e := w], o) == Outcomes(place, o) {
      OutcomesMoved(place, e, w, o);
    }
  }

  ghost function Senders(producers: map<Thread, Producer>): set<Thread> {
    set t | t in producers && producers[t].Sent?
  }

  lemma SendersMoved(producers: map<Thread, Producer>, t: Thread, p: Producer)
    requires t !in producers || !producers[t].Sent?
    ensures |Senders(producers[t := p])| == |Senders(producers)| + if p.Sent? then 1 else 0
  {
    assert Senders(producers[t := p]) == if p.Sent? then Senders(producers) + {t} else Senders(producers);
  }

  lemma SenderGone(producers: map<Thread, Producer>, t: Thread)
    requires t in producers
    ensures |Senders(producers - {t})| == |Senders(producers)| - if producers[t].Sent? then 1 else 0
  {
    assert Senders(producers - {t}) == Senders(producers) - {t};
  }

  /** Every event sent is in the queue, in hand or delivered, and each counter is the number of its outcomes. */
  ghost predicate Ledger(f: Flow, b: Books) {
    && b.sent == |f.queue| + (if Hand(f.worker).Some? then 1 else 0) + DeliveredCount(f.place)
    && b.accepted + |Senders(f.producers)| == b.sent
    && b.exported == Outcomes(f.place, Exported)
    && b.timedOut == Outcomes(f.place, TimedOut)
    && b.dropped == b.entryDrops + Outcomes(f.place, Dropped)
  }

  lemma EnterKeepsLedger(f: Flow, b: Books, t: Thread, e: Event)
    requires Ledger(f, b) && t !in f.producers && e !in f.place
    ensures Ledger(EnterFlow(f, t, e), b)
  {
    OutcomesKept(f.place, e, With(t));
    SendersMoved(f.producers, t, Inside(e));
  }

  lemma HoldKeepsLedger(f: Flow, b: Books, t: Thread, p: Producer)
    requires Ledger(f, b) && p != Sent && HeldBy(f, t, p.event)
    ensures Ledger(HoldFlow(f, t, p), b)
  {
    SendersMoved(f.producers, t, p);
  }

  lemma LeaveKeepsLedger(f: Flow, b: Books, t: Thread, e: Event)
    requires Ledger(f, b) && EventOk(f, e) && HeldBy(f, t, e)
    ensures Ledger(LeaveFlow(f, t, e), b.(dropped := b.dropped + 1, entryDrops := b.entryDrops + 1))
  {
    OutcomesKept(f.place, e, TurnedAway);
    SenderGone(f.producers, t);
  }

  lemma PushKeepsLedger(f: Flow, b: Books, t: Thread, e: Event)
    requires Ledger(f, b) && EventOk(f, e) && HeldBy(f, t, e)
    ensures Ledger(PushFlow(f, t, e), b.(sent := b.sent + 1))
  {
    OutcomesKept(f.place, e, Queued);
    SendersMoved(f.producers, t, Sent);
  }

  lemma DoneKeepsLedger(f: Flow, b: Books, t: Thread)
    requires Ledger(f, b) && t in f.producers && f.producers[t] == Sent
    ensures Ledger(DoneFlow(f, t), b.(accepted := b.accepted + 1))
  {
    SenderGone(f.producers, t);
  }

  lemma TakeKeepsLedger(f: Flow, b: Books)
    requires Ledger(f, b) && f.queue != [] && f.worker.Waiting? && EventOk(f, f.queue[0])
    ensures Ledger(TakeFlow(f), b)
  {
    OutcomesKept(f.place, f.queue[0], InHand);
  }

  ghost function Booked(b: Books, o: Outcome): Books {
    match o
    case Exported => b.(exported := b.exported + 1)
    case TimedOut => b.(timedOut := b.timedOut + 1)
    case Dropped => b.(dropped := b.dropped + 1)
    case Panicked => b
  }

  lemma FinishKeepsLedger(f: Flow, b: Books, e: Event, o: Outcome, next: Worker)
    requires Ledger(f, b) && Hand(f.worker) == Some(e) && EventOk(f, e) && Hand(next) == None
    ensures Ledger(FinishFlow(f, e, o, next), Booked(b, o))
    ensures Outcomes(FinishFlow(f, e, o, next).place, Panicked) == Outcomes(f.place, Panicked) + if o == Panicked then 1 else 0
  {
    OutcomesMoved(f.place, e, Delivered(o), Exported);
    OutcomesMoved(f.place, e, Delivered(o), Panicked);
    OutcomesMoved(f.place, e, Delivered(o), TimedOut);
    OutcomesMoved(f.place, e, Delivered(o), Dropped);
  }

  lemma SendKeepsLedger(cfg: Config, s: State, t: Thread, e: Event)
    requires FlowInv(s.flow) && Ledger(s.flow, s.books) && HeldBy(s.flow, t, e)
    ensures var s' := SendStep(cfg, s, t, e); Ledger(s'.flow, s'.books)
  {
    assert EventOk(s.flow, e);
    if |s.flow.queue| < cfg.queueSize {
      PushKeepsLedger(s.flow, s.books, t, e);
    } else {
      HoldKeepsLedger(s.flow, s.books, t, Rejecting(e));
    }
  }

  lemma RejectKeepsLedger(s: State, t: Thread, e: Event)
    requires FlowInv(s.flow) && Ledger(s.flow, s.books) && HeldBy(s.flow, t, e)
    ensures Ledger(RejectStep(s, t, e).flow, RejectStep(s, t, e).books)
  {
    assert EventOk(s.flow, e);
    LeaveKeepsLedger(s.flow, s.books, t, e);
  }

  lemma AdmissionKeepsLedger(cfg: Config, s: State, t: Thread, p: ProducerStep, origin: Producer)
    requires Ledger(s.flow, s.books) && origin != Sent && HeldBy(s.flow, t, origin.event)
    ensures Ledger(Hold(s, t, Admission(cfg, s, p, origin)).flow, s.books)
  {
    AdmissionHolds(cfg, s, p, origin);
    HoldKeepsLedger(s.flow, s.books, t, Admission(cfg, s, p, origin));
  }

  lemma ProducerKeepsLedger(cfg: Config, s: State, t: Thread, p: ProducerStep)
    requires FlowInv(s.flow) && Ledger(s.flow, s.books) && CanProduce(s, t, p)
    ensures Ledger(Produced(cfg, s, t, p).flow, Produced(cfg, s, t, p).books)
  {
    match p
    case Enter(e) => EnterKeepsLedger(s.flow, s.books, t, e);
    case Send => SendKeepsLedger(cfg, s, t, s.flow.producers[t].event);
    case Reject => RejectKeepsLedger(s, t, s.flow.producers[t].event);
    case Accept => DoneKeepsLedger(s.flow, s.books, t);
    case _ => AdmissionKeepsLedger(cfg, s, t, p, s.flow.producers[t]);
  }

  lemma MoveKeepsLedger(f: Flow, b: Books, f': Flow, b': Books)
    requires Ledger(f, b) && OnlyMoves(f, f') && b' == b.(panics := b'.panics, latePanics := b'.latePanics)
    ensures Ledger(f', b')
  {
  }

  lemma GateKeepsLedger(cfg: Config, s: State, g: GateStep)
    requires FlowInv(s.flow) && Ledger(s.flow, s.books) && CanPass(s, g)
    ensures Ledger(Gated(cfg, s, g).flow, Gated(cfg, s, g).books)
  {
    if g.Take? {
      assert EventOk(s.flow, s.flow.queue[0]);
      TakeKeepsLedger(s.flow, s.books);
    } else if g.Drop? {
      assert EventOk(s.flow, s.flow.worker.event);
      FinishKeepsLedger(s.flow, s.books, s.flow.worker.event, Dropped, Waiting);
    } else {
      GateOnlyMoves(cfg, s, g);
      MoveKeepsLedger(s.flow, s.books, Gated(cfg, s, g).flow, Gated(cfg, s, g).books);
    }
  }

  lemma ConclusionKeepsLedger(s: State, o: OutcomeStep)
    requires FlowInv(s.flow) && Ledger(s.flow, s.books) && CanConclude(s, o)
    ensures Ledger(Concluded(s, o).flow, Concluded(s, o).books)
  {
    ConclusionMoves(s, o);
    var s' := Concluded(s, o);
    if Verdict(s, o).Some? {
      assert EventOk(s.flow, s.flow.worker.event);
      FinishKeepsLedger(s.flow, s.books, s.flow.worker.event, Verdict(s, o).value, s'.flow.worker);
    } else {
      MoveKeepsLedger(s.flow, s.books, s'.flow, s'.books);
    }
  }

  lemma StepKeepsLedger(cfg: Config, s: State, step: Step)
    requires FlowInv(s.flow) && Ledger(s.flow, s.books) && Enabled(s, step)
    ensures Ledger(Next(cfg, s, step).flow, Next(cfg, s, step).books)
  {
    if step.Produce? {
      ProducerKeepsLedger(cfg, s, step.t, step.p);
    } else if step.Gate? {
      GateKeepsLedger(cfg, s, step.g);
    } else if step.Conclude? {
      ConclusionKeepsLedger(s, step.o);
    } else {
      OtherKeepsLedger(cfg, s, step);
    }
  }

  lemma OtherKeepsLedger(cfg: Config, s: State, step: Step)
    requires Ledger(s.flow, s.books) && Enabled(s, step) && (step.Record? || step.InCall? || step.Control?)
    ensures Ledger(Next(cfg, s, step).flow, Next(cfg, s, step).books)
  {
    if step.Record? {
      RecordOnlyMoves(cfg, s, step.r);
      MoveKeepsLedger(s.flow, s.books, Recorded(cfg, s, step.r).flow, s.books);
    } else if step.InCall? {
      CallOnlyMoves(s, step.id, step.c);
      MoveKeepsLedger(s.flow, s.books, s.flow, AfterCall(s, step.id, step.c).books);
    } else {
      ControlOnlyMoves(s, step.m);
      MoveKeepsLedger(s.flow, s.books, Controlled(s, step.m).flow, s.books);
    }
  }
}
