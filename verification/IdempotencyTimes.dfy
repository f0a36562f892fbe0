/** The idempotency store over time (rest/idempotency.go): what the time to live of a kept response means for the requests
    that repeat it, told by the steps of a run. */
module IdempotencyTimes {
  import opened GoStrings
  import opened Idempotency

  ghost predicate HasTime(step: Step) {
    step.ReserveStep? || step.CompleteStep?
  }

  /** Time does not run backwards. */
  ghost predicate IsTimely(steps: seq<Step>) {
    forall i, j :: 0 <= i < j < |steps| && HasTime(steps[i]) && HasTime(steps[j]) ==> steps[i].now <= steps[j].now
  }

  /** Step `k` completes a request for the key and keeps its response. */
  ghost predicate KeepsAt(states: seq<State>, steps: seq<Step>, k: int, key: string)
    requires 0 <= k < |steps| && |states| == |steps| + 1
  {
    && steps[k].CompleteStep? && steps[k].keep
    && steps[k].r in states[k].phases && states[k].phases[steps[k].r].Running? && states[k].phases[steps[k].r].key == key
  }

  /** When the response that step `k` keeps expires. */
  ghost function Deadline(step: Step): int
    requires step.CompleteStep?
  {
    step.now + step.ttl
  }

  // ------------------------------------------------------ while it is held

  /** The key's entry holds the response, for requests with the fingerprint, until the deadline. */
  ghost predicate Holds(s: State, key: string, fingerprint: string, resp: StoredResponse, deadline: int) {
    && key in s.entries && s.entries[key] in s.cells
    && var e := s.cells[s.entries[key]];
       e.ready && e.fingerprint == fingerprint && e.resp == resp && e.expiresAt == deadline
  }

  lemma StepHolds(s: State, step: Step, key: string, fingerprint: string, resp: StoredResponse, deadline: int)
    requires Inv(s) && Enabled(s, step) && Holds(s, key, fingerprint, resp, deadline)
    requires step.ReserveStep? ==> step.now <= deadline
    ensures Holds(Next(s, step), key, fingerprint, resp, deadline)
  {
    assert KeyOk(s, key);
    match step
    case ReserveStep(_, _, _, _, _) =>
      assert s.nextId !in s.cells by { assert CellOk(s, s.nextId); }
    case WakeStep(_) =>
    case CompleteStep(r, _, _, _, _) =>
      assert PhaseOk(s, r) && KeyOk(s, s.phases[r].key);
  }

  lemma CompletionHolds(states: seq<State>, steps: seq<Step>, k: nat, key: string)
    requires IsRun(states, steps) && k < |steps| && KeepsAt(states, steps, k, key)
    ensures Holds(states[k + 1], key, states[k].phases[steps[k].r].fingerprint, steps[k].resp, Deadline(steps[k]))
  {
    assert StepAt(states, steps, k);
    RunKeepsInv(states, steps, k);
    assert PhaseOk(states[k], steps[k].r);
  }

  lemma {:induction false} HeldWhileInTime(states: seq<State>, steps: seq<Step>, k: nat, j: nat, key: string)
    requires IsRun(states, steps) && k < j <= |steps| && KeepsAt(states, steps, k, key)
    requires forall m :: k < m < j && steps[m].ReserveStep? ==> steps[m].now <= Deadline(steps[k])
    ensures Holds(states[j], key, states[k].phases[steps[k].r].fingerprint, steps[k].resp, Deadline(steps[k]))
  {
    if j == k + 1 {
      CompletionHolds(states, steps, k, key);
    } else {
      HeldWhileInTime(states, steps, k, j - 1, key);
      assert StepAt(states, steps, j - 1);
      RunKeepsInv(states, steps, j - 1);
      StepHolds(states[j - 1], steps[j - 1], key, states[k].phases[steps[k].r].fingerprint, steps[k].resp, Deadline(steps[k]));
    }
  }

  /** A repeat within the time to live does not run the handler: with the same fingerprint it is at once served the response
      that was kept, with another it is a conflict. */
  lemma RepeatInTimeIsReplayed(states: seq<State>, steps: seq<Step>, k: nat, j: nat, key: string)
    requires IsRun(states, steps) && IsTimely(steps) && k < j < |steps| && KeepsAt(states, steps, k, key)
    requires steps[j].ReserveStep? && steps[j].key == key && steps[j].now <= Deadline(steps[k])
    ensures !FreshAt(states, steps, j, key)
    ensures var r, fingerprint := steps[j].r, steps[j].fingerprint;
            var after := states[j + 1];
            && r in after.phases
            && if fingerprint != states[k].phases[steps[k].r].fingerprint then after.phases[r] == Conflict
               else
                 && Enabled(after, WakeStep(r)) && r in Next(after, WakeStep(r)).phases
                 && Next(after, WakeStep(r)).phases[r] == Replayed(key, fingerprint, steps[k].resp)
  {
    HeldWhileInTime(states, steps, k, j, key);
    assert StepAt(states, steps, j);
    RunKeepsInv(states, steps, j);
    RunKeepsInv(states, steps, j + 1);
    InvKnows(states[j + 1]);
    StepHolds(states[j], steps[j], key, states[k].phases[steps[k].r].fingerprint, steps[k].resp, Deadline(steps[k]));
    assert KeyOk(states[j], key) && KeyOk(states[j + 1], key);
  }

  // -------------------------------------------------------- when it expires

  ghost predicate HeldOrGone(s: State, key: string, deadline: int) {
    key in s.entries ==> s.entries[key] in s.cells && s.cells[s.entries[key]].ready && s.cells[s.entries[key]].expiresAt == deadline
  }

  lemma StepHoldsOrLoses(s: State, step: Step, key: string, deadline: int)
    requires Inv(s) && Enabled(s, step) && HeldOrGone(s, key, deadline) && !(step.ReserveStep? && step.key == key)
    ensures HeldOrGone(Next(s, step), key, deadline)
  {
    assert KeyOk(s, key);
    match step
    case ReserveStep(_, _, _, _, _) =>
      assert s.nextId !in s.cells by { assert CellOk(s, s.nextId); }
    case WakeStep(_) =>
    case CompleteStep(r, _, _, _, _) =>
      assert PhaseOk(s, r) && KeyOk(s, s.phases[r].key);
  }

  lemma {:induction false} HeldOrGoneUntilReserved(states: seq<State>, steps: seq<Step>, k: nat, j: nat, key: string)
    requires IsRun(states, steps) && IsTimely(steps) && k < j <= |steps| && KeepsAt(states, steps, k, key)
    requires forall m :: k < m < j && steps[m].ReserveStep? && steps[m].key == key ==> steps[m].now <= Deadline(steps[k])
    ensures HeldOrGone(states[j], key, Deadline(steps[k]))
  {
    if j == k + 1 {
      CompletionHolds(states, steps, k, key);
    } else {
      var step := steps[j - 1];
      if step.ReserveStep? && step.key == key {
        HeldWhileInTime(states, steps, k, j, key);
      } else {
        HeldOrGoneUntilReserved(states, steps, k, j - 1, key);
        assert StepAt(states, steps, j - 1);
        RunKeepsInv(states, steps, j - 1);
        StepHoldsOrLoses(states[j - 1], step, key, Deadline(steps[k]));
      }
    }
  }

  /** The first repeat after the time to live reserves the key afresh. */
  lemma FirstLateRepeatIsFresh(states: seq<State>, steps: seq<Step>, k: nat, j: nat, key: string)
    requires IsRun(states, steps) && IsTimely(steps) && k < j < |steps| && KeepsAt(states, steps, k, key)
    requires steps[j].ReserveStep? && steps[j].key == key && steps[j].now > Deadline(steps[k])
    requires forall m :: k < m < j && steps[m].ReserveStep? && steps[m].key == key ==> steps[m].now <= Deadline(steps[k])
    ensures FreshAt(states, steps, j, key)
    ensures steps[j].r in states[j + 1].phases && states[j + 1].phases[steps[j].r].Running?
  {
    HeldOrGoneUntilReserved(states, steps, k, j, key);
    assert StepAt(states, steps, j);
  }

  // ------------------------------------------------- the handler, by the steps

  /** A ready entry expires at the deadline of the completion that made it ready. */
  lemma {:induction false} DeadlineHasOrigin(states: seq<State>, steps: seq<Step>, k: nat, key: string) returns (m: nat)
    requires IsRun(states, steps) && k <= |steps| && key in states[k].entries && states[k].entries[key] in states[k].cells
    requires states[k].cells[states[k].entries[key]].ready
    ensures m < k && KeepsAt(states, steps, m, key)
    ensures states[k].cells[states[k].entries[key]].expiresAt == Deadline(steps[m])
  {
    assert StepAt(states, steps, k - 1);
    RunKeepsInv(states, steps, k - 1);
    var s := states[k - 1];
    assert s.nextId !in s.cells by { assert CellOk(s, s.nextId); }
    if KeepsAt(states, steps, k - 1, key) {
      m := k - 1;
      assert PhaseOk(s, steps[k - 1].r);
    } else {
      ReadyBefore(s, steps[k - 1], key);
      m := DeadlineHasOrigin(states, steps, k - 1, key);
    }
  }

  lemma ReadyBefore(s: State, step: Step, key: string)
    requires Inv(s) && Enabled(s, step)
    requires var s' := Next(s, step); key in s'.entries && s'.entries[key] in s'.cells && s'.cells[s'.entries[key]].ready
    requires !(step.CompleteStep? && step.keep && s.phases[step.r].key == key)
    ensures key in s.entries && s.entries[key] in s.cells && Next(s, step).entries[key] == s.entries[key]
    ensures Next(s, step).cells[s.entries[key]] == s.cells[s.entries[key]]
  {
    assert KeyOk(s, key);
    assert s.nextId !in s.cells by { assert CellOk(s, s.nextId); }
    if step.CompleteStep? {
      assert PhaseOk(s, step.r) && KeyOk(s, s.phases[step.r].key);
    }
  }

  /** Every completion of a request for the key keeps its response, and nothing is reserved after it has expired. */
  ghost predicate IsRetained(states: seq<State>, steps: seq<Step>, n: nat, key: string)
    requires n <= |steps| && |states| == |steps| + 1
  {
    forall m :: 0 <= m < n && steps[m].CompleteStep? && CompletesKey(states, steps, m, key) ==>
      steps[m].keep && forall j :: m < j < n && steps[j].ReserveStep? ==> steps[j].now <= Deadline(steps[m])
  }

  ghost predicate CompletesKey(states: seq<State>, steps: seq<Step>, m: int, key: string)
    requires 0 <= m < |steps| && |states| == |steps| + 1
  {
    && steps[m].CompleteStep?
    && steps[m].r in states[m].phases && states[m].phases[steps[m].r].Running? && states[m].phases[steps[m].r].key == key
  }

  lemma RetainedStepsRetain(states: seq<State>, steps: seq<Step>, n: nat, m: nat, key: string)
    requires IsRun(states, steps) && n <= |steps| && IsRetained(states, steps, n, key) && m < n
    ensures RetainsAt(states, steps, m, key)
  {
    assert StepAt(states, steps, m);
    RunKeepsInv(states, steps, m);
    var s := states[m];
    assert KeyOk(s, key);
    if steps[m].ReserveStep? && key in s.entries && s.cells[s.entries[key]].ready {
      var origin := DeadlineHasOrigin(states, steps, m, key);
      assert CompletesKey(states, steps, origin, key);
    }
    if steps[m].CompleteStep? && s.phases[steps[m].r].key == key {
      assert CompletesKey(states, steps, m, key);
    }
  }

  /** Idempotency by the steps alone: as long as every response for the key is kept and none has expired, the key's handler
      runs at most once, nobody who waits for it is turned away, and every duplicate is served the response kept for its own
      key and fingerprint. */
  lemma HandlerRunsOnceInTime(states: seq<State>, steps: seq<Step>, n: nat, key: string, r: Request, r': Request)
    requires IsRun(states, steps) && n <= |steps| && IsRetained(states, steps, n, key)
    ensures Ran(states[n], r) && Ran(states[n], r') && states[n].phases[r].key == states[n].phases[r'].key == key ==> r == r'
    ensures r in states[n].phases ==> states[n].phases[r] != Unavailable(key)
    ensures r in states[n].phases && states[n].phases[r].Replayed? && states[n].phases[r].key == key ==>
              Kept(key, states[n].phases[r].fingerprint, states[n].phases[r].resp) in states[n].kept
  {
    forall m | 0 <= m < n ensures RetainsAt(states, steps, m, key) {
      RetainedStepsRetain(states, steps, n, m, key);
    }
    HandlerRunsOncePerKey(states, steps, n, key, r, r');
  }
}
