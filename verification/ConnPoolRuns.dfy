/** What a run of the connection pool does to one connection (rpc/connpool.go): when it was dialled and last released, why a
    release keeps it or closes it, and what a discard means. Everything is told by the steps of the run. */
module ConnPoolRuns {
  import opened GoStrings
  import opened ConnPool

  // -------------------------------------------------------------- one get

  /** A get changes neither where a connection is that was not idle, nor the times of any. */
  lemma {:induction false} GetKeeps(cfg: Config, s: State, t: Thread, now: int, c: Conn)
    requires IdleKnown(s) && c in s.conns && c in s.place
    ensures var after := TryGet(cfg, s, t, now).0;
            && c in after.conns && c in after.place
            && after.conns[c].created == s.conns[c].created && after.conns[c].lastUsed == s.conns[c].lastUsed
            && (c !in s.idle ==> after.place[c] == s.place[c])
    decreases |s.idle|
  {
    if !s.closed && s.idle != [] {
      assert s.idle[|s.idle| - 1] in s.idle;
      if Expired(cfg, s.conns[s.idle[|s.idle| - 1]], now) {
        GetKeeps(cfg, CloseIdle(s), t, now, c);
      }
    }
  }

  lemma {:induction false} GetAddsNone(cfg: Config, s: State, t: Thread, now: int)
    requires IdleKnown(s)
    ensures TryGet(cfg, s, t, now).0.conns.Keys == s.conns.Keys
    decreases |s.idle|
  {
    if !s.closed && s.idle != [] && Expired(cfg, s.conns[s.idle[|s.idle| - 1]], now) {
      GetAddsNone(cfg, CloseIdle(s), t, now);
    }
  }

  // ------------------------------------------------------------ the times

  /** When the connection was dialled, among the first `k` steps. */
  ghost function DialTime(steps: seq<Step>, k: nat, c: Conn): Option<int>
    requires k <= |steps|
  {
    if k == 0 then None
    else if steps[k - 1].DialledStep? && steps[k - 1].conn == c then Some(steps[k - 1].now)
    else DialTime(steps, k - 1, c)
  }

  /** When it was last dialled or released. */
  ghost function UseTime(steps: seq<Step>, k: nat, c: Conn): Option<int>
    requires k <= |steps|
  {
    if k == 0 then None
    else if (steps[k - 1].DialledStep? || steps[k - 1].ReleaseStep?) && steps[k - 1].conn == c then Some(steps[k - 1].now)
    else UseTime(steps, k - 1, c)
  }

  /** The times after one step. */
  lemma StepKeepsTimes(cfg: Config, s: State, step: Step, c: Conn)
    requires Inv(cfg, s) && Enabled(s, step) && c in Next(cfg, s, step).conns
    ensures c in s.conns || (step.DialledStep? && step.conn == c)
    ensures var info := Next(cfg, s, step).conns[c];
            && info.created == (if step.DialledStep? && step.conn == c then step.now else s.conns[c].created)
            && info.lastUsed == if (step.DialledStep? || step.ReleaseStep?) && step.conn == c then step.now else s.conns[c].lastUsed
  {
    if step.TryGetStep? {
      GetAddsNone(cfg, s, step.thread, step.now);
      assert ConsistentAt(s, c);
      GetKeeps(cfg, s, step.thread, step.now, c);
    }
  }

  lemma {:induction false} TimesAreSteps(cfg: Config, states: seq<State>, steps: seq<Step>, k: nat, c: Conn)
    requires cfg.Valid() && IsRun(cfg, states, steps) && k <= |steps| && c in states[k].conns
    ensures DialTime(steps, k, c) == Some(states[k].conns[c].created) && UseTime(steps, k, c) == Some(states[k].conns[c].lastUsed)
  {
    if k > 0 {
      assert StepAt(cfg, states, steps, k - 1);
      RunKeepsInv(cfg, states, steps, k - 1);
      StepKeepsTimes(cfg, states[k - 1], steps[k - 1], c);
      if c in states[k - 1].conns {
        TimesAreSteps(cfg, states, steps, k - 1, c);
      }
    }
  }

  /** The connection's own times are within the limits that are set. */
  ghost predicate WithinTimes(cfg: Config, steps: seq<Step>, k: nat, c: Conn, now: int)
    requires k <= |steps|
  {
    && DialTime(steps, k, c).Some? && UseTime(steps, k, c).Some?
    && (cfg.maxLifetime > 0 ==> now - DialTime(steps, k, c).value <= cfg.maxLifetime)
    && (cfg.idleTimeout > 0 ==> now - UseTime(steps, k, c).value <= cfg.idleTimeout)
  }

  lemma LiveIsWithinTimes(cfg: Config, states: seq<State>, steps: seq<Step>, k: nat, c: Conn, now: int)
    requires cfg.Valid() && IsRun(cfg, states, steps) && k <= |steps| && c in states[k].conns
    ensures WithinTimes(cfg, steps, k, c, now) <==> !Expired(cfg, states[k].conns[c], now)
  {
    TimesAreSteps(cfg, states, steps, k, c);
  }

  /** Of the idle connections, number `j` is within its times and none that was put back later is. */
  ghost predicate IsLastWithinTimes(cfg: Config, steps: seq<Step>, k: nat, idle: seq<Conn>, j: nat, now: int)
    requires k <= |steps| && j < |idle|
  {
    && WithinTimes(cfg, steps, k, idle[j], now)
    && forall i :: j < i < |idle| ==> !WithinTimes(cfg, steps, k, idle[i], now)
  }

  /** What a get does, told by the steps: an open pool hands out the connection released last of those that were dialled and
      released recently enough; else it makes a place for a dial; else, when all places are taken, the caller waits. */
  lemma GetIsToldBySteps(cfg: Config, states: seq<State>, steps: seq<Step>, k: nat)
    requires cfg.Valid() && IsRun(cfg, states, steps) && k < |steps| && steps[k].TryGetStep? && !states[k].closed
    ensures IdleKnown(states[k])
    ensures var s, now := states[k], steps[k].now;
            var (after, got) := TryGet(cfg, s, steps[k].thread, now);
            && !got.PoolClosed?
            && (got.Reused? ==> |after.idle| < |s.idle| && IsLastWithinTimes(cfg, steps, k, s.idle, |after.idle|, now) && got.conn == s.idle[|after.idle|])
            && (!got.Reused? ==>
                  && (forall i :: 0 <= i < |s.idle| ==> !WithinTimes(cfg, steps, k, s.idle[i], now))
                  && (got == Wait <==> s.active - |s.idle| >= cfg.maxActive))
  {
    var s, now := states[k], steps[k].now;
    assert StepAt(cfg, states, steps, k);
    TryGetTakesNewestLive(cfg, s, steps[k].thread, now);
    forall i | 0 <= i < |s.idle| ensures WithinTimes(cfg, steps, k, s.idle[i], now) <==> !Expired(cfg, s.conns[s.idle[i]], now) {
      LiveIsWithinTimes(cfg, states, steps, k, s.idle[i], now);
    }
  }

  // ------------------------------------------------------------ releases

  /** Step `i` is the close or discard that releases the connection. */
  ghost predicate Releases(states: seq<State>, steps: seq<Step>, i: nat, c: Conn, discard: bool)
    requires i < |steps| && |states| == |steps| + 1
  {
    && steps[i].SwapStep? && steps[i].conn == c && steps[i].discard == discard
    && c in states[i].conns && !states[i].conns[c].released
  }

  lemma StepKeepsReleasing(cfg: Config, s: State, step: Step, c: Conn, discard: bool)
    requires Inv(cfg, s) && Enabled(s, step)
    requires var after := Next(cfg, s, step); c in after.place && after.place[c] == Releasing(discard)
    ensures || (c in s.place && s.place[c] == Releasing(discard) && !(step.ReleaseStep? && step.conn == c))
            || (step.SwapStep? && step.conn == c && step.discard == discard && c in s.conns && !s.conns[c].released)
  {
    assert ConsistentAt(s, c);
    match step
    case TryGetStep(t, now) =>
      StepKeepsInv(cfg, s, step);
      GetAddsNone(cfg, s, t, now);
      assert ConsistentAt(Next(cfg, s, step), c);
      GetKeeps(cfg, s, t, now, c);
      if s.place[c] == Idle {
        GetLeavesIdle(cfg, s, t, now, c);
      }
    case ClosePoolStep =>
      forall d | d in s.idle ensures d in s.place && s.place[d] == Idle { assert ConsistentAt(s, d); }
      if !s.closed {
        MarkClosingIs(s.place, s.idle);
      }
    case _ =>
  }

  /** A connection that was idle is idle, in use or gone after a get. */
  lemma {:induction false} GetLeavesIdle(cfg: Config, s: State, t: Thread, now: int, c: Conn)
    requires IdleKnown(s) && c in s.place && s.place[c] == Idle
    ensures var after := TryGet(cfg, s, t, now).0; c in after.place && !after.place[c].Releasing?
    decreases |s.idle|
  {
    if !s.closed && s.idle != [] && Expired(cfg, s.conns[s.idle[|s.idle| - 1]], now) {
      if s.idle[|s.idle| - 1] == c {
        GetKeepsGone(cfg, CloseIdle(s), t, now, c);
      } else {
        GetLeavesIdle(cfg, CloseIdle(s), t, now, c);
      }
    }
  }

  lemma {:induction false} GetKeepsGone(cfg: Config, s: State, t: Thread, now: int, c: Conn)
    requires IdleKnown(s) && c in s.place && s.place[c] == Gone
    ensures var after := TryGet(cfg, s, t, now).0; c in after.place && !after.place[c].Releasing?
    decreases |s.idle|
  {
    if !s.closed && s.idle != [] && Expired(cfg, s.conns[s.idle[|s.idle| - 1]], now) {
      GetKeepsGone(cfg, CloseIdle(s), t, now, c);
    }
  }

  /** A connection between its close and its release was closed or discarded by an earlier step, and not released since. */
  lemma {:induction false} ReleasingHasCause(cfg: Config, states: seq<State>, steps: seq<Step>, k: nat, c: Conn) returns (i: nat)
    requires cfg.Valid() && IsRun(cfg, states, steps) && k <= |steps| && c in states[k].place && states[k].place[c].Releasing?
    ensures i < k && Releases(states, steps, i, c, states[k].place[c].discard)
    ensures forall j :: i < j < k ==> !(steps[j].ReleaseStep? && steps[j].conn == c)
  {
    assert StepAt(cfg, states, steps, k - 1);
    RunKeepsInv(cfg, states, steps, k - 1);
    StepKeepsReleasing(cfg, states[k - 1], steps[k - 1], c, states[k].place[c].discard);
    if Releases(states, steps, k - 1, c, states[k].place[c].discard) {
      i := k - 1;
    } else {
      i := ReleasingHasCause(cfg, states, steps, k - 1, c);
    }
  }

  /** A release keeps the connection exactly when it was closed and not discarded, the pool is open and not in short mode, its
      lifetime has not passed and fewer are idle than may be; else the connection is closed. */
  lemma ReleaseKeepsExactly(cfg: Config, states: seq<State>, steps: seq<Step>, k: nat, c: Conn) returns (i: nat)
    requires cfg.Valid() && IsRun(cfg, states, steps) && k < |steps| && steps[k].ReleaseStep? && steps[k].conn == c
    ensures i < k && (Releases(states, steps, i, c, false) || Releases(states, steps, i, c, true))
    ensures forall j :: i < j < k ==> !(steps[j].ReleaseStep? && steps[j].conn == c)
    ensures DialTime(steps, k, c).Some?
    ensures var kept :=
              && Releases(states, steps, i, c, false) && !states[k].closed && !cfg.short
              && (cfg.maxLifetime <= 0 || steps[k].now - DialTime(steps, k, c).value <= cfg.maxLifetime)
              && |states[k].idle| < cfg.maxIdle;
            && states[k + 1].idle == (if kept then states[k].idle + [c] else states[k].idle)
            && c in states[k + 1].place && states[k + 1].place[c] == (if kept then Idle else Closing)
            && states[k + 1].closedN == states[k].closedN + if kept then 0 else 1
  {
    assert StepAt(cfg, states, steps, k);
    RunKeepsInv(cfg, states, steps, k);
    i := ReleasingHasCause(cfg, states, steps, k, c);
    TimesAreSteps(cfg, states, steps, k, c);
  }

  // ------------------------------------------------------------- discards

  /** On its way out for good. */
  ghost predicate IsDiscarded(s: State, c: Conn) {
    c in s.place && (s.place[c] == Releasing(true) || s.place[c] == Closing || s.place[c] == Gone)
  }

  lemma StepKeepsDiscarded(cfg: Config, s: State, step: Step, c: Conn)
    requires Inv(cfg, s) && Enabled(s, step) && IsDiscarded(s, c)
    ensures IsDiscarded(Next(cfg, s, step), c)
  {
    assert ConsistentAt(s, c);
    match step
    case TryGetStep(t, now) => GetKeeps(cfg, s, t, now, c);
    case ClosePoolStep =>
      forall d | d in s.idle ensures d in s.place && s.place[d] == Idle { assert ConsistentAt(s, d); }
      if !s.closed {
        MarkClosingIs(s.place, s.idle);
      }
    case _ =>
  }

  /** A discarded connection is never handed out again: from the discard that released it on, it is neither idle nor in use,
      whatever happens. */
  lemma {:induction false} DiscardedIsNeverReused(cfg: Config, states: seq<State>, steps: seq<Step>, i: nat, k: nat, c: Conn)
    requires cfg.Valid() && IsRun(cfg, states, steps) && i < k <= |steps| && Releases(states, steps, i, c, true)
    ensures IsDiscarded(states[k], c)
    ensures c !in states[k].idle && forall t: Thread :: (t, c) !in states[k].users
  {
    assert StepAt(cfg, states, steps, k - 1);
    RunKeepsInv(cfg, states, steps, k - 1);
    RunKeepsInv(cfg, states, steps, k);
    if k > i + 1 {
      DiscardedIsNeverReused(cfg, states, steps, i, k - 1, c);
      StepKeepsDiscarded(cfg, states[k - 1], steps[k - 1], c);
    }
    assert ConsistentAt(states[k], c);
  }
}
