/** The in-memory idempotency store and its use by the middleware (rest/idempotency.go), as a state machine over
    interleaved requests: reserve, wake up, complete. */
module Idempotency {
  import opened GoStrings

  type Request = nat
  type EntryId = nat

  datatype StoredResponse = StoredResponse(status: int, header: map<string, seq<string>>, body: string)

  /** A `memoryIdempotencyEntry`. `done` counts how often its channel was closed; `key` is the key it was made for. */
  datatype Entry = Entry(key: string, fingerprint: string, resp: StoredResponse, ready: bool, expiresAt: int, done: nat)

  /** Where a request is: waiting for an entry's channel, between a fresh Reserve and its Complete, or finished. */
  datatype Phase =
    | Waiting(key: string, fingerprint: string, id: EntryId)
    | Running(key: string, fingerprint: string, id: EntryId)
    | Replayed(key: string, fingerprint: string, resp: StoredResponse)
    | Unavailable(key: string)
    | Conflict
    | Completed(key: string)

  /** A response that was kept for a key by a request with a fingerprint. */
  datatype Kept = Kept(key: string, fingerprint: string, resp: StoredResponse)

  /** `entries` maps keys to entry pointers and `cells` holds the entries pointed to; the rest observes the run. */
  datatype State = State(entries: map<string, EntryId>, cells: map<EntryId, Entry>, nextId: EntryId,
                         phases: map<Request, Phase>, kept: set<Kept>)

  const INITIAL := State(map[], map[], 0, map[], {})
  const NO_RESPONSE := StoredResponse(0, map[], "")

  // ------------------------------------------------------------- the steps

  ghost predicate Known(s: State) {
    forall key :: key in s.entries ==> s.entries[key] in s.cells
  }

  predicate IsStale(e: Entry, now: int) {
    now > e.expiresAt && e.ready
  }

  /** The entries after the purge that opens Reserve. */
  function Purged(entries: map<string, EntryId>, cells: map<EntryId, Entry>, now: int): map<string, EntryId>
    requires forall key :: key in entries ==> entries[key] in cells
  {
    map key | key in entries && !IsStale(cells[entries[key]], now) :: entries[key]
  }

  function Reserve(s: State, r: Request, key: string, fingerprint: string, ttl: int, now: int): State
    requires Known(s)
  {
    var entries := Purged(s.entries, s.cells, now);
    if key in entries then
      var id := entries[key];
      s.(entries := entries,
         phases := s.phases[r := if s.cells[id].fingerprint != fingerprint then Conflict else Waiting(key, fingerprint, id)])
    else
      s.(entries := entries[key := s.nextId],
         cells := s.cells[s.nextId := Entry(key, fingerprint, NO_RESPONSE, false, now + ttl, 0)],
         nextId := s.nextId + 1,
         phases := s.phases[r := Running(key, fingerprint, s.nextId)])
  }

  /** The second locked section of Reserve, once the channel is closed: whatever entry the key has now is used. */
  function Wake(s: State, r: Request, key: string, fingerprint: string): State
    requires Known(s)
  {
    if key !in s.entries || !s.cells[s.entries[key]].ready then s.(phases := s.phases[r := Unavailable(key)])
    else s.(phases := s.phases[r := Replayed(key, fingerprint, s.cells[s.entries[key]].resp)])
  }

  function Complete(s: State, r: Request, key: string, resp: StoredResponse, keep: bool, ttl: int, now: int): State
    requires Known(s)
  {
    if key !in s.entries then s.(phases := s.phases[r := Completed(key)])
    else
      var id := s.entries[key];
      var e := s.cells[id];
      if keep then
        s.(cells := s.cells[id := e.(resp := resp, ready := true, expiresAt := now + ttl, done := e.done + 1)],
           phases := s.phases[r := Completed(key)], kept := s.kept + {Kept(key, e.fingerprint, resp)})
      else
        s.(entries := s.entries - {key}, cells := s.cells[id := e.(done := e.done + 1)], phases := s.phases[r := Completed(key)])
  }

  datatype Step =
    | ReserveStep(r: Request, key: string, fingerprint: string, ttl: int, now: int)
    | WakeStep(r: Request)
    | CompleteStep(r: Request, resp: StoredResponse, keep: bool, ttl: int, now: int)

  /** A request reserves once, wakes only when its channel is closed, and completes after a fresh reservation. */
  ghost predicate Enabled(s: State, step: Step) {
    && Known(s)
    && match step
       case ReserveStep(r, _, _, _, _) => r !in s.phases
       case WakeStep(r) =>
         r in s.phases && s.phases[r].Waiting? && s.phases[r].id in s.cells && s.cells[s.phases[r].id].done > 0
       case CompleteStep(r, _, _, _, _) => r in s.phases && s.phases[r].Running?
  }

  ghost function Next(s: State, step: Step): State
    requires Enabled(s, step)
  {
    match step
    case ReserveStep(r, key, fingerprint, ttl, now) => Reserve(s, r, key, fingerprint, ttl, now)
    case WakeStep(r) => Wake(s, r, s.phases[r].key, s.phases[r].fingerprint)
    case CompleteStep(r, resp, keep, ttl, now) => Complete(s, r, s.phases[r].key, resp, keep, ttl, now)
  }

  // ---------------------------------------------------------- the invariant

  /** A key's entry exists, was made for it, and its channel is closed exactly when it is ready. */
  ghost predicate KeyOk(s: State, key: string) {
    key in s.entries ==>
      && s.entries[key] in s.cells
      && s.cells[s.entries[key]].key == key
      && s.cells[s.entries[key]].done == if s.cells[s.entries[key]].ready then 1 else 0
  }

  /** No channel is closed twice; a ready entry holds a response kept for its key and fingerprint. */
  ghost predicate CellOk(s: State, id: EntryId) {
    id in s.cells ==>
      && id < s.nextId
      && s.cells[id].done <= 1
      && (s.cells[id].ready ==> s.cells[id].done == 1 && Kept(s.cells[id].key, s.cells[id].fingerprint, s.cells[id].resp) in s.kept)
  }

  /** A running request owns the entry of its key, which is not ready; a waiting one points at an entry made for its
      key and fingerprint; a replay is a kept response. */
  ghost predicate PhaseOk(s: State, r: Request) {
    r in s.phases ==>
      match s.phases[r]
      case Running(key, fingerprint, id) =>
        && key in s.entries && s.entries[key] == id && id in s.cells
        && s.cells[id].fingerprint == fingerprint && !s.cells[id].ready && s.cells[id].done == 0
      case Waiting(key, fingerprint, id) => id in s.cells && s.cells[id].key == key && s.cells[id].fingerprint == fingerprint
      case Replayed(key, _, resp) => exists fingerprint :: Kept(key, fingerprint, resp) in s.kept
      case _ => true
  }

  /** No two requests run on the same entry. */
  ghost predicate RunningApart(s: State, r: Request, r': Request) {
    r in s.phases && r' in s.phases && r != r' && s.phases[r].Running? && s.phases[r'].Running? ==> s.phases[r].id != s.phases[r'].id
  }

  ghost predicate Inv(s: State) {
    && (forall key: string :: KeyOk(s, key))
    && (forall id: EntryId :: CellOk(s, id))
    && (forall r: Request :: PhaseOk(s, r))
    && (forall r: Request, r': Request :: RunningApart(s, r, r'))
  }

  lemma InvKnows(s: State)
    requires Inv(s)
    ensures Known(s)
  {
    forall key | key in s.entries ensures s.entries[key] in s.cells {
      assert KeyOk(s, key);
    }
  }

  lemma ReserveKeepsInv(s: State, r: Request, key: string, fingerprint: string, ttl: int, now: int)
    requires Inv(s) && Known(s) && r !in s.phases
    ensures Inv(Reserve(s, r, key, fingerprint, ttl, now))
  {
    var s' := Reserve(s, r, key, fingerprint, ttl, now);
    assert s.nextId !in s.cells by { assert CellOk(s, s.nextId); }
    forall k: string ensures KeyOk(s', k) { assert KeyOk(s, k); }
    forall id: EntryId ensures CellOk(s', id) { assert CellOk(s, id); }
    assert KeyOk(s, key);
    forall q: Request ensures PhaseOk(s', q) { assert PhaseOk(s, q); }
    forall q: Request, q': Request ensures RunningApart(s', q, q') {
      assert RunningApart(s, q, q');
      assert PhaseOk(s, q) && PhaseOk(s, q');
    }
  }

  lemma WakeKeepsInv(s: State, r: Request)
    requires Inv(s) && Enabled(s, WakeStep(r))
    ensures Inv(Next(s, WakeStep(r)))
  {
    var s' := Next(s, WakeStep(r));
    var key := s.phases[r].key;
    forall k: string ensures KeyOk(s', k) { assert KeyOk(s, k); }
    forall id: EntryId ensures CellOk(s', id) { assert CellOk(s, id); }
    assert KeyOk(s, key);
    if key in s.entries {
      assert CellOk(s, s.entries[key]);
    }
    forall q: Request ensures PhaseOk(s', q) { assert PhaseOk(s, q); }
    forall q: Request, q': Request ensures RunningApart(s', q, q') { assert RunningApart(s, q, q'); }
  }

  lemma CompleteKeepsInv(s: State, r: Request, resp: StoredResponse, keep: bool, ttl: int, now: int)
    requires Inv(s) && Enabled(s, CompleteStep(r, resp, keep, ttl, now))
    ensures Inv(Next(s, CompleteStep(r, resp, keep, ttl, now)))
  {
    var s' := Next(s, CompleteStep(r, resp, keep, ttl, now));
    var Running(key, fingerprint, id) := s.phases[r];
    assert PhaseOk(s, r) && KeyOk(s, key) && CellOk(s, id);
    forall k: string ensures KeyOk(s', k) { assert KeyOk(s, k); }
    forall i: EntryId ensures CellOk(s', i) { assert CellOk(s, i); }
    forall q: Request ensures PhaseOk(s', q) {
      assert PhaseOk(s, q) && RunningApart(s, r, q);
      if q in s.phases && s.phases[q].Running? {
        assert KeyOk(s, s.phases[q].key);
      }
    }
    forall q: Request, q': Request ensures RunningApart(s', q, q') { assert RunningApart(s, q, q'); }
  }

  lemma StepKeepsInv(s: State, step: Step)
    requires Inv(s) && Enabled(s, step)
    ensures Inv(Next(s, step))
  {
    match step
    case ReserveStep(r, key, fingerprint, ttl, now) => ReserveKeepsInv(s, r, key, fingerprint, ttl, now);
    case WakeStep(r) => WakeKeepsInv(s, r);
    case CompleteStep(r, resp, keep, ttl, now) => CompleteKeepsInv(s, r, resp, keep, ttl, now);
  }

  // ------------------------------------------------------------ whole runs

  ghost predicate StepAt(states: seq<State>, steps: seq<Step>, k: int)
    requires 0 <= k < |steps| && |states| == |steps| + 1
  {
    Enabled(states[k], steps[k]) && states[k + 1] == Next(states[k], steps[k])
  }

  /** An interleaving of requests from an empty store. */
  ghost predicate IsRun(states: seq<State>, steps: seq<Step>) {
    && |states| == |steps| + 1
    && states[0] == INITIAL
    && forall k :: 0 <= k < |steps| ==> StepAt(states, steps, k)
  }

  lemma {:induction false} RunKeepsInv(states: seq<State>, steps: seq<Step>, k: nat)
    requires IsRun(states, steps) && k <= |steps|
    ensures Inv(states[k])
  {
    if k > 0 {
      RunKeepsInv(states, steps, k - 1);
      assert StepAt(states, steps, k - 1);
      StepKeepsInv(states[k - 1], steps[k - 1]);
    }
  }

  /** Exclusion: in every interleaving at most one request per key is between a fresh Reserve and its Complete. */
  lemma AtMostOneRuns(states: seq<State>, steps: seq<Step>, k: nat, r: Request, r': Request)
    requires IsRun(states, steps) && k <= |steps|
    requires r in states[k].phases && r' in states[k].phases
    requires states[k].phases[r].Running? && states[k].phases[r'].Running? && states[k].phases[r].key == states[k].phases[r'].key
    ensures r == r'
  {
    RunKeepsInv(states, steps, k);
    assert PhaseOk(states[k], r) && PhaseOk(states[k], r') && RunningApart(states[k], r, r');
  }

  /** Every Complete closes the channel of the entry that its own Reserve made, for the first and only time; in
      particular no channel is ever closed twice. */
  lemma DoneIsClosedOnce(states: seq<State>, steps: seq<Step>, k: nat, id: EntryId)
    requires IsRun(states, steps) && k <= |steps| && id in states[k].cells
    ensures states[k].cells[id].done <= 1
    ensures k < |steps| && steps[k].CompleteStep? ==>
              && steps[k].r in states[k].phases && states[k].phases[steps[k].r].Running?
              && var own := states[k].phases[steps[k].r].id;
                 && own in states[k].cells && own in states[k + 1].cells
                 && states[k].cells[own].done == 0 && states[k + 1].cells[own].done == 1
                 && id in states[k + 1].cells && (id != own ==> states[k + 1].cells[id] == states[k].cells[id])
  {
    RunKeepsInv(states, steps, k);
    assert CellOk(states[k], id);
    if k < |steps| && steps[k].CompleteStep? {
      assert StepAt(states, steps, k);
      assert PhaseOk(states[k], steps[k].r);
    }
  }

  /** Every replay is a response that was kept for that key. */
  lemma ReplayWasKept(states: seq<State>, steps: seq<Step>, k: nat, r: Request)
    requires IsRun(states, steps) && k <= |steps|
    requires r in states[k].phases && states[k].phases[r].Replayed?
    ensures exists fingerprint :: Kept(states[k].phases[r].key, fingerprint, states[k].phases[r].resp) in states[k].kept
  {
    RunKeepsInv(states, steps, k);
    assert PhaseOk(states[k], r);
  }

  // ------------------------------------------- whose response is replayed

  /** The step reserves the key afresh: it makes a new entry and its request goes on to run the handler. */
  ghost predicate ReservesAfresh(s: State, step: Step, key: string)
    requires Enabled(s, step)
  {
    step.ReserveStep? && step.key == key && key !in Purged(s.entries, s.cells, step.now)
  }

  ghost predicate FreshAt(states: seq<State>, steps: seq<Step>, k: int, key: string)
    requires 0 <= k < |steps| && |states| == |steps| + 1
  {
    Enabled(states[k], steps[k]) && ReservesAfresh(states[k], steps[k], key)
  }

  /** The last fresh reservation of the key among the first `k` steps. */
  ghost function LastFresh(states: seq<State>, steps: seq<Step>, k: nat, key: string): (i: Option<nat>)
    requires IsRun(states, steps) && k <= |steps|
    ensures i.Some? ==> i.value < k && FreshAt(states, steps, i.value, key)
    ensures forall j :: (if i.Some? then i.value + 1 else 0) <= j < k ==> !FreshAt(states, steps, j, key)
  {
    if k == 0 then None
    else if FreshAt(states, steps, k - 1, key) then Some(k - 1)
    else LastFresh(states, steps, k - 1, key)
  }

  /** Step `j` completes request `r` and keeps `resp`. */
  ghost predicate Keeps(steps: seq<Step>, j: nat, r: Request, resp: StoredResponse)
    requires j < |steps|
  {
    steps[j].CompleteStep? && steps[j].r == r && steps[j].keep && steps[j].resp == resp
  }

  /** The key's entry was made by the last fresh reservation, whose request is still running, or has completed and kept
      what the entry holds. */
  ghost predicate EntryFrom(states: seq<State>, steps: seq<Step>, k: nat, key: string)
    requires IsRun(states, steps) && k <= |steps|
  {
    var s := states[k];
    key in s.entries && s.entries[key] in s.cells ==>
      && LastFresh(states, steps, k, key).Some?
      && var i := LastFresh(states, steps, k, key).value;
         var e := s.cells[s.entries[key]];
         && e.fingerprint == steps[i].fingerprint
         && (!e.ready ==> steps[i].r in s.phases && s.phases[steps[i].r] == Running(key, e.fingerprint, s.entries[key]))
         && (e.ready ==> exists j :: i < j < k && Keeps(steps, j, steps[i].r, e.resp))
  }

  lemma {:induction false} EntriesHaveOrigins(states: seq<State>, steps: seq<Step>, k: nat, key: string)
    requires IsRun(states, steps) && k <= |steps|
    ensures EntryFrom(states, steps, k, key)
  {
    if k > 0 {
      EntriesHaveOrigins(states, steps, k - 1, key);
      RunKeepsInv(states, steps, k - 1);
      assert StepAt(states, steps, k - 1);
      match steps[k - 1]
      case ReserveStep(_, _, _, _, _) => OriginAfterReserve(states, steps, k - 1, key);
      case WakeStep(_) => OriginAfterWake(states, steps, k - 1, key);
      case CompleteStep(_, _, _, _, _) => OriginAfterComplete(states, steps, k - 1, key);
    }
  }

  lemma OriginAfterReserve(states: seq<State>, steps: seq<Step>, k: nat, key: string)
    requires IsRun(states, steps) && k < |steps| && steps[k].ReserveStep? && StepAt(states, steps, k)
    requires Inv(states[k]) && EntryFrom(states, steps, k, key)
    ensures EntryFrom(states, steps, k + 1, key)
  {
    var s := states[k];
    assert KeyOk(s, key);
    assert s.nextId !in s.cells by { assert CellOk(s, s.nextId); }
  }

  lemma OriginAfterWake(states: seq<State>, steps: seq<Step>, k: nat, key: string)
    requires IsRun(states, steps) && k < |steps| && steps[k].WakeStep? && StepAt(states, steps, k)
    requires Inv(states[k]) && EntryFrom(states, steps, k, key)
    ensures EntryFrom(states, steps, k + 1, key)
  {
    assert KeyOk(states[k], key);
  }

  lemma OriginAfterComplete(states: seq<State>, steps: seq<Step>, k: nat, key: string)
    requires IsRun(states, steps) && k < |steps| && steps[k].CompleteStep? && StepAt(states, steps, k)
    requires Inv(states[k]) && EntryFrom(states, steps, k, key)
    ensures EntryFrom(states, steps, k + 1, key)
  {
    var s, r := states[k], steps[k].r;
    assert KeyOk(s, key) && PhaseOk(s, r) && KeyOk(s, s.phases[r].key);
    if key in s.entries && s.phases[r].key == key {
      var i := LastFresh(states, steps, k, key).value;
      assert PhaseOk(s, steps[i].r) && RunningApart(s, r, steps[i].r);
      assert Keeps(steps, k, r, steps[k].resp) || !steps[k].keep;
    }
  }

  /** Whose response a waiter is served: the one kept by the last request that reserved the key afresh. It is the response
      to the waiter's own fingerprint exactly when that request had the same one. */
  lemma ReplayIsOwnExactly(states: seq<State>, steps: seq<Step>, k: nat) returns (i: nat, j: nat)
    requires IsRun(states, steps) && k < |steps| && steps[k].WakeStep?
    requires steps[k].r in states[k + 1].phases && states[k + 1].phases[steps[k].r].Replayed?
    ensures var r := steps[k].r;
            var replay := states[k + 1].phases[r];
            && i < j < k && LastFresh(states, steps, k, replay.key) == Some(i) && Keeps(steps, j, steps[i].r, replay.resp)
            && replay.key in states[k].entries && states[k].entries[replay.key] in states[k].cells
            && var e := states[k].cells[states[k].entries[replay.key]];
               e.resp == replay.resp && (e.fingerprint == replay.fingerprint <==> steps[i].fingerprint == replay.fingerprint)
  {
    assert StepAt(states, steps, k);
    RunKeepsInv(states, steps, k);
    var s, key := states[k], states[k + 1].phases[steps[k].r].key;
    assert KeyOk(s, key);
    EntriesHaveOrigins(states, steps, k, key);
    i := LastFresh(states, steps, k, key).value;
    j :| i < j < k && Keeps(steps, j, steps[i].r, s.cells[s.entries[key]].resp);
  }

  // ---------------------------------------- keys that are never given up

  /** The step does not take the key's entry away: it is not purged as expired, and its request keeps the response. */
  ghost predicate Retains(s: State, step: Step, key: string)
    requires Enabled(s, step)
  {
    match step
    case ReserveStep(_, _, _, _, now) => key in s.entries ==> !IsStale(s.cells[s.entries[key]], now)
    case WakeStep(_) => true
    case CompleteStep(r, _, keep, _, _) => s.phases[r].key == key ==> keep
  }

  /** The request's handler was started. */
  ghost predicate Ran(s: State, r: Request) {
    r in s.phases && (s.phases[r].Running? || s.phases[r].Completed?)
  }

  /** What then holds of a request for the key: the key keeps its entry, a waiter's is the one it waits for, a replay is
      for its own fingerprint, and nobody is turned away unserved. */
  ghost predicate Served(s: State, r: Request, key: string) {
    r in s.phases && s.phases[r] != Conflict && s.phases[r].key == key ==>
      && s.phases[r] != Unavailable(key)
      && (Ran(s, r) ==> key in s.entries)
      && (s.phases[r].Waiting? ==> key in s.entries && s.entries[key] == s.phases[r].id)
      && (s.phases[r].Replayed? ==> Kept(key, s.phases[r].fingerprint, s.phases[r].resp) in s.kept)
  }

  ghost predicate RanOnce(s: State, r: Request, r': Request, key: string) {
    Ran(s, r) && Ran(s, r') && s.phases[r].key == key && s.phases[r'].key == key ==> r == r'
  }

  ghost predicate RetainedInv(s: State, key: string) {
    && Inv(s)
    && (forall r: Request :: Served(s, r, key))
    && (forall r: Request, r': Request :: RanOnce(s, r, r', key))
  }

  lemma RetainingStepKeepsInv(s: State, step: Step, key: string)
    requires RetainedInv(s, key) && Enabled(s, step) && Retains(s, step, key)
    ensures RetainedInv(Next(s, step), key)
  {
    var s' := Next(s, step);
    StepKeepsInv(s, step);
    match step
    case ReserveStep(_, _, _, _, _) =>
      forall q: Request ensures Served(s', q, key) { assert Served(s, q, key); }
      forall q: Request, q': Request ensures RanOnce(s', q, q', key) {
        assert RanOnce(s, q, q', key) && Served(s, q, key) && Served(s, q', key);
      }
    case WakeStep(r) =>
      assert Served(s, r, key) && PhaseOk(s, r) && KeyOk(s, key);
      if key in s.entries {
        assert CellOk(s, s.entries[key]);
      }
      forall q: Request ensures Served(s', q, key) { assert Served(s, q, key); }
      forall q: Request, q': Request ensures RanOnce(s', q, q', key) { assert RanOnce(s, q, q', key); }
    case CompleteStep(r, _, _, _, _) =>
      assert PhaseOk(s, r) && KeyOk(s, s.phases[r].key);
      forall q: Request ensures Served(s', q, key) { assert Served(s, q, key); }
      forall q: Request, q': Request ensures RanOnce(s', q, q', key) { assert RanOnce(s, q, q', key); }
  }

  ghost predicate RetainsAt(states: seq<State>, steps: seq<Step>, k: int, key: string)
    requires 0 <= k < |steps| && |states| == |steps| + 1
  {
    Enabled(states[k], steps[k]) && Retains(states[k], steps[k], key)
  }

  lemma {:induction false} RetainedRunKeepsInv(states: seq<State>, steps: seq<Step>, k: nat, key: string)
    requires IsRun(states, steps) && k <= |steps|
    requires forall m :: 0 <= m < k ==> RetainsAt(states, steps, m, key)
    ensures RetainedInv(states[k], key)
  {
    if k > 0 {
      RetainedRunKeepsInv(states, steps, k - 1, key);
      assert StepAt(states, steps, k - 1) && RetainsAt(states, steps, k - 1, key);
      RetainingStepKeepsInv(states[k - 1], steps[k - 1], key);
    }
  }

  /** Idempotency proper, key by key: as long as the key's entry neither expires nor is released, whatever happens to other
      keys, its handler runs at most once, nobody who waits for it is turned away, and every duplicate is served the
      response kept for its own key and fingerprint. */
  lemma HandlerRunsOncePerKey(states: seq<State>, steps: seq<Step>, k: nat, key: string, r: Request, r': Request)
    requires IsRun(states, steps) && k <= |steps|
    requires forall m :: 0 <= m < k ==> RetainsAt(states, steps, m, key)
    ensures Ran(states[k], r) && Ran(states[k], r') && states[k].phases[r].key == states[k].phases[r'].key == key ==> r == r'
    ensures r in states[k].phases ==> states[k].phases[r] != Unavailable(key)
    ensures r in states[k].phases && states[k].phases[r].Replayed? && states[k].phases[r].key == key ==>
              Kept(key, states[k].phases[r].fingerprint, states[k].phases[r].resp) in states[k].kept
  {
    RetainedRunKeepsInv(states, steps, k, key);
    assert Served(states[k], r, key) && RanOnce(states[k], r, r', key);
  }

  /** With a release the fingerprint is not rechecked after waking: request 1 waits with one fingerprint and is
      replayed the response to another, kept for the same key by request 2. */
  lemma ReleasedWaiterGetsForeignResponse(key: string, mine: string, other: string, resp: StoredResponse)
    returns (states: seq<State>, steps: seq<Step>)
    requires mine != other
    ensures IsRun(states, steps) && |steps| == 6
    ensures 1 in states[6].phases && states[6].phases[1] == Replayed(key, mine, resp)
    ensures states[6].kept == {Kept(key, other, resp)}
  {
    var e1 := Entry(key, other, NO_RESPONSE, false, 1, 0);
    var s3 := WaiterAfterRelease(key, mine);
    states, steps := ReachRelease(key, mine, resp);
    var s4 := s3.(entries := map[key := 1], cells := s3.cells[1 := e1], nextId := 2, phases := s3.phases[2 := Running(key, other, 1)]);
    states, steps := Extend(states, steps, ReserveStep(2, key, other, 1, 0), s4);
    var s5 := s4.(cells := s4.cells[1 := e1.(resp := resp, ready := true, done := 1)],
                  phases := s4.phases[2 := Completed(key)], kept := {Kept(key, other, resp)});
    states, steps := Extend(states, steps, CompleteStep(2, resp, true, 1, 0), s5);
    states, steps := Extend(states, steps, WakeStep(1), s5.(phases := s5.phases[1 := Replayed(key, mine, resp)]));
  }

  /** Request 0 released the key while request 1 was waiting for it. */
  ghost function WaiterAfterRelease(key: string, mine: string): State {
    State(map[], map[0 := Entry(key, mine, NO_RESPONSE, false, 1, 1)], 1,
          map[0 := Completed(key), 1 := Waiting(key, mine, 0)], {})
  }

  lemma ReachRelease(key: string, mine: string, resp: StoredResponse) returns (states: seq<State>, steps: seq<Step>)
    ensures IsRun(states, steps) && |steps| == 3 && states[3] == WaiterAfterRelease(key, mine)
  {
    var e0 := Entry(key, mine, NO_RESPONSE, false, 1, 0);
    var s1 := State(map[key := 0], map[0 := e0], 1, map[0 := Running(key, mine, 0)], {});
    states, steps := Extend([INITIAL], [], ReserveStep(0, key, mine, 1, 0), s1);
    assert Purged(s1.entries, s1.cells, 0) == s1.entries;
    var s2 := s1.(phases := s1.phases[1 := Waiting(key, mine, 0)]);
    states, steps := Extend(states, steps, ReserveStep(1, key, mine, 1, 0), s2);
    assert s2.entries - {key} == map[];
    states, steps := Extend(states, steps, CompleteStep(0, resp, false, 1, 0), WaiterAfterRelease(key, mine));
  }

  /** Without any release, when the entry expires before the waiter wakes: request 2 reserves the expired key afresh. */
  lemma ExpiredWaiterGetsForeignResponse(key: string, mine: string, other: string, first: StoredResponse, resp: StoredResponse)
    returns (states: seq<State>, steps: seq<Step>)
    requires mine != other
    ensures IsRun(states, steps) && |steps| == 6
    ensures forall k :: 0 <= k < 6 && steps[k].CompleteStep? ==> steps[k].keep
    ensures 1 in states[6].phases && states[6].phases[1] == Replayed(key, mine, resp)
    ensures states[6].kept == {Kept(key, mine, first), Kept(key, other, resp)}
  {
    var e1 := Entry(key, other, NO_RESPONSE, false, 3, 0);
    var s3 := WaiterBeforeExpiry(key, mine, first);
    states, steps := ReachExpiry(key, mine, first);
    assert Purged(s3.entries, s3.cells, 2) == map[];
    var s4 := s3.(entries := map[key := 1], cells := s3.cells[1 := e1], nextId := 2, phases := s3.phases[2 := Running(key, other, 1)]);
    states, steps := Extend(states, steps, ReserveStep(2, key, other, 1, 2), s4);
    var s5 := s4.(cells := s4.cells[1 := e1.(resp := resp, ready := true, done := 1)],
                  phases := s4.phases[2 := Completed(key)], kept := s4.kept + {Kept(key, other, resp)});
    states, steps := Extend(states, steps, CompleteStep(2, resp, true, 1, 2), s5);
    states, steps := Extend(states, steps, WakeStep(1), s5.(phases := s5.phases[1 := Replayed(key, mine, resp)]));
  }

  /** Request 0 kept its response while request 1 was waiting for it. */
  ghost function WaiterBeforeExpiry(key: string, mine: string, first: StoredResponse): State {
    State(map[key := 0], map[0 := Entry(key, mine, first, true, 1, 1)], 1,
          map[0 := Completed(key), 1 := Waiting(key, mine, 0)], {Kept(key, mine, first)})
  }

  lemma ReachExpiry(key: string, mine: string, first: StoredResponse) returns (states: seq<State>, steps: seq<Step>)
    ensures IsRun(states, steps) && |steps| == 3 && states[3] == WaiterBeforeExpiry(key, mine, first)
    ensures forall k :: 0 <= k < 3 && steps[k].CompleteStep? ==> steps[k].keep
  {
    var e0 := Entry(key, mine, NO_RESPONSE, false, 1, 0);
    var s1 := State(map[key := 0], map[0 := e0], 1, map[0 := Running(key, mine, 0)], {});
    states, steps := Extend([INITIAL], [], ReserveStep(0, key, mine, 1, 0), s1);
    assert Purged(s1.entries, s1.cells, 0) == s1.entries;
    var s2 := s1.(phases := s1.phases[1 := Waiting(key, mine, 0)]);
    states, steps := Extend(states, steps, ReserveStep(1, key, mine, 1, 0), s2);
    states, steps := Extend(states, steps, CompleteStep(0, first, true, 1, 0), WaiterBeforeExpiry(key, mine, first));
  }

  lemma Extend(states: seq<State>, steps: seq<Step>, step: Step, after: State) returns (states': seq<State>, steps': seq<Step>)
    requires IsRun(states, steps)
    requires Enabled(states[|steps|], step) && after == Next(states[|steps|], step)
    ensures IsRun(states', steps') && steps' == steps + [step] && states'[|steps'|] == after
  {
    states', steps' := states + [after], steps + [step];
    forall k | 0 <= k < |steps'| ensures StepAt(states', steps', k) {
      if k < |steps| {
        assert StepAt(states, steps, k);
      }
    }
  }

  // -------------------------------------------------------------- the store

  datatype Reservation = ConflictingKey | WaitFor(id: EntryId) | Fresh(id: EntryId)

  class MemoryStore {
    var entries: map<string, EntryId>
    var cells: map<EntryId, Entry>
    var nextId: EntryId
    ghost var phases: map<Request, Phase>
    ghost var kept: set<Kept>

    ghost function View(): State
      reads this
    {
      State(entries, cells, nextId, phases, kept)
    }

    constructor ()
      ensures View() == INITIAL
    {
      entries, cells, nextId, phases, kept := map[], map[], 0, map[], {};
    }

    method Purge(now: int)
      requires Known(View())
      modifies this`entries
      ensures entries == Purged(old(entries), cells, now)
    {
      var todo := entries.Keys;
      while todo != {}
        invariant todo <= old(entries).Keys
        invariant forall key :: key in entries <==>
                    key in old(entries) && (key in todo || !IsStale(cells[old(entries)[key]], now))
        invariant forall key :: key in entries ==> entries[key] == old(entries)[key]
      {
        var key :| key in todo;
        todo := todo - {key};
        if IsStale(cells[entries[key]], now) {
          entries := entries - {key};
        }
      }
    }

    /** The first locked section of Reserve. */
    method ReserveLocked(ghost r: Request, key: string, fingerprint: string, ttl: int, now: int) returns (res: Reservation)
      requires Known(View())
      modifies this
      ensures View() == Reserve(old(View()), r, key, fingerprint, ttl, now)
      ensures match res
              case ConflictingKey => phases[r] == Conflict
              case WaitFor(id) => phases[r] == Waiting(key, fingerprint, id)
              case Fresh(id) => phases[r] == Running(key, fingerprint, id)
    {
      Purge(now);
      if key in entries {
        var id := entries[key];
        if cells[id].fingerprint != fingerprint {
          phases := phases[r := Conflict];
          return ConflictingKey;
        }
        phases := phases[r := Waiting(key, fingerprint, id)];
        return WaitFor(id);
      }
      res := Fresh(nextId);
      entries := entries[key := nextId];
      cells := cells[nextId := Entry(key, fingerprint, NO_RESPONSE, false, now + ttl, 0)];
      phases := phases[r := Running(key, fingerprint, nextId)];
      nextId := nextId + 1;
    }

    /** The second locked section of Reserve, after the channel was closed. */
    method WakeLocked(ghost r: Request, key: string, ghost fingerprint: string) returns (resp: Option<StoredResponse>)
      requires Known(View())
      modifies this
      ensures View() == Wake(old(View()), r, key, fingerprint)
      ensures phases[r] == if resp.Some? then Replayed(key, fingerprint, resp.value) else Unavailable(key)
    {
      if key !in entries || !cells[entries[key]].ready {
        phases := phases[r := Unavailable(key)];
        return None;
      }
      phases := phases[r := Replayed(key, fingerprint, cells[entries[key]].resp)];
      return Some(cells[entries[key]].resp);
    }

    method CompleteLocked(ghost r: Request, key: string, resp: StoredResponse, keep: bool, ttl: int, now: int)
      requires Known(View())
      modifies this
      ensures View() == Complete(old(View()), r, key, resp, keep, ttl, now)
    {
      phases := phases[r := Completed(key)];
      if key !in entries {
        return;
      }
      var id := entries[key];
      var e := cells[id];
      if keep {
        e := e.(resp := resp, ready := true, expiresAt := now + ttl);
        kept := kept + {Kept(key, e.fingerprint, resp)};
      } else {
        entries := entries - {key};
      }
      cells := cells[id := e.(done := e.done + 1)];
    }
  }
}
