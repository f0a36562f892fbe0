/** The connection pool (rpc/connpool.go) as a state machine. Each section under the pool's lock, each atomic
    compare-and-swap and each finished dial is one step; the steps of any number of goroutines interleave freely. */
module ConnPool {
  import opened GoStrings

  /** The identity of a `*PooledConn`, and of a goroutine that uses the pool. */
  type Conn = nat
  type Thread = nat

  /** A configuration as the constructor leaves it: both limits are positive. */
  datatype Config = Config(maxIdle: int, maxActive: int, idleTimeout: int, maxLifetime: int, short: bool) {
    ghost predicate Valid() {
      maxIdle > 0 && maxActive > 0
    }
  }

  datatype ConnInfo = ConnInfo(created: int, lastUsed: int, released: bool)

  /** Where a connection is: `Releasing` lies between the swap of `released` and the locked section of release,
      `Closing` is counted as closed but not closed yet. */
  datatype Place = Idle | Out(user: Thread) | Releasing(discard: bool) | Closing | Gone

  datatype Kind = IdleKind | OutKind | ReleasingKind | ClosingKind | GoneKind

  function KindOf(p: Place): Kind {
    match p
    case Idle => IdleKind
    case Out(_) => OutKind
    case Releasing(_) => ReleasingKind
    case Closing => ClosingKind
    case Gone => GoneKind
  }

  /** `idle`, `active`, `closed` and the two counters are the pool's fields, `conns` the fields of its connections.
      The rest observes the run: dials under way, who uses what, how often each connection was closed, and where each
      connection is. */
  datatype State = State(
    idle: seq<Conn>, active: int, closed: bool, created: int, closedN: int, conns: map<Conn, ConnInfo>,
    dialing: int, users: set<(Thread, Conn)>, closeCalls: multiset<Conn>, place: map<Conn, Place>)

  const INITIAL := State([], 0, false, 0, 0, map[], 0, {}, multiset{}, map[])

  predicate Expired(cfg: Config, info: ConnInfo, now: int) {
    || (cfg.idleTimeout > 0 && now - info.lastUsed > cfg.idleTimeout)
    || (cfg.maxLifetime > 0 && now - info.created > cfg.maxLifetime)
  }

  // ------------------------------------------------------------- the steps

  datatype Got = PoolClosed | Reused(conn: Conn) | Reserved | Wait

  /** An expired idle connection is closed under the lock. */
  function CloseIdle(s: State): State
    requires s.idle != []
  {
    var c := s.idle[|s.idle| - 1];
    s.(idle := s.idle[..|s.idle| - 1], active := s.active - 1, closedN := s.closedN + 1,
       closeCalls := s.closeCalls + multiset{c}, place := s.place[c := Gone])
  }

  function Reuse(s: State, t: Thread): State
    requires s.idle != [] && s.idle[|s.idle| - 1] in s.conns
  {
    var c := s.idle[|s.idle| - 1];
    s.(idle := s.idle[..|s.idle| - 1], conns := s.conns[c := s.conns[c].(released := false)],
       users := s.users + {(t, c)}, place := s.place[c := Out(t)])
  }

  ghost predicate IdleKnown(s: State) {
    forall i :: 0 <= i < |s.idle| ==> s.idle[i] in s.conns
  }

  /** `tryGetIdleOrReserve`: the most recently returned live connection, else a reservation, else nothing. */
  function TryGet(cfg: Config, s: State, t: Thread, now: int): (State, Got)
    requires IdleKnown(s)
    decreases |s.idle|
  {
    if s.closed then (s, PoolClosed)
    else if s.idle != [] then
      var c := s.idle[|s.idle| - 1];
      if Expired(cfg, s.conns[c], now) then TryGet(cfg, CloseIdle(s), t, now)
      else (Reuse(s, t), Reused(c))
    else if cfg.maxActive > 0 && s.active >= cfg.maxActive then (s, Wait)
    else (s.(active := s.active + 1, dialing := s.dialing + 1), Reserved)
  }

  function DialFailed(s: State): State {
    s.(active := s.active - 1, dialing := s.dialing - 1)
  }

  function Dialled(s: State, t: Thread, c: Conn, now: int): State {
    s.(created := s.created + 1, dialing := s.dialing - 1, conns := s.conns[c := ConnInfo(now, now, false)],
       users := s.users + {(t, c)}, place := s.place[c := Out(t)])
  }

  /** The compare-and-swap of `PooledConn.Close` and `Discard`: only the first one releases. */
  function Swap(s: State, t: Thread, c: Conn, discard: bool): State
    requires c in s.conns
  {
    if s.conns[c].released then s
    else
      s.(conns := s.conns[c := s.conns[c].(released := true)], users := s.users - {(t, c)},
         place := s.place[c := Releasing(discard)])
  }

  predicate MustClose(cfg: Config, s: State, c: Conn, discard: bool, now: int)
    requires c in s.conns
  {
    || discard || s.closed || cfg.short
    || Expired(cfg, s.conns[c].(lastUsed := now), now)
    || |s.idle| >= cfg.maxIdle
  }

  /** The locked section of `release`. */
  function Release(cfg: Config, s: State, c: Conn, discard: bool, now: int): State
    requires c in s.conns
  {
    var used := s.(conns := s.conns[c := s.conns[c].(lastUsed := now)]);
    if MustClose(cfg, s, c, discard, now) then
      used.(active := s.active - 1, closedN := s.closedN + 1, place := s.place[c := Closing])
    else used.(idle := s.idle + [c], place := s.place[c := Idle])
  }

  /** `Conn.Close` after the lock was given up. */
  function CloseConn(s: State, c: Conn): State {
    s.(closeCalls := s.closeCalls + multiset{c}, place := s.place[c := Gone])
  }

  function AllGone(place: map<Conn, Place>, conns: seq<Conn>): (r: map<Conn, Place>)
    ensures r.Keys == place.Keys + (set d | d in conns)
    ensures forall c :: c in r ==> r[c] == if c in conns then Gone else place[c]
  {
    map c | c in place.Keys + (set d | d in conns) :: if c in conns then Gone else place[c]
  }

  lemma OneMoreGone(place: map<Conn, Place>, conns: seq<Conn>, c: Conn)
    ensures AllGone(place, conns)[c := Gone] == AllGone(place, conns + [c])
  {
    var more, fewer := AllGone(place, conns + [c]), AllGone(place, conns);
    forall d ensures d in conns + [c] <==> d in conns || d == c {}
    assert fewer[c := Gone].Keys == more.Keys;
  }

  lemma NoneGone(place: map<Conn, Place>)
    ensures AllGone(place, []) == place
  {
    assert AllGone(place, []).Keys == place.Keys;
  }

  /** Every connection of the list has been closed, as often as it is listed. */
  function AllClosed(s: State, conns: seq<Conn>): State {
    s.(closeCalls := s.closeCalls + multiset(conns), place := AllGone(s.place, conns))
  }

  lemma ClosesOneMore(s: State, conns: seq<Conn>, c: Conn)
    ensures CloseConn(AllClosed(s, conns), c) == AllClosed(s, conns + [c])
  {
    assert multiset(conns + [c]) == multiset(conns) + multiset{c};
    OneMoreGone(s.place, conns, c);
  }

  function MarkClosing(place: map<Conn, Place>, idle: seq<Conn>): map<Conn, Place> {
    if idle == [] then place else MarkClosing(place, idle[..|idle| - 1])[idle[|idle| - 1] := Closing]
  }

  /** The locked section of `closeWithReason`. */
  function ClosePool(s: State): State {
    if s.closed then s
    else
      s.(closed := true, idle := [], active := s.active - |s.idle|, closedN := s.closedN + |s.idle|,
         place := MarkClosing(s.place, s.idle))
  }

  datatype Step =
    | TryGetStep(thread: Thread, now: int)
    | DialFailedStep
    | DialledStep(thread: Thread, conn: Conn, now: int)
    | SwapStep(thread: Thread, conn: Conn, discard: bool)
    | ReleaseStep(conn: Conn, now: int)
    | CloseConnStep(conn: Conn)
    | ClosePoolStep

  /** When a step can be taken. A goroutine that does not use a connection may close it again only while nobody
      does: a handle is not closed once more after the connection was handed to somebody else. */
  ghost predicate Enabled(s: State, step: Step) {
    match step
    case TryGetStep(_, _) => IdleKnown(s)
    case DialFailedStep => s.dialing > 0
    case DialledStep(_, c, _) => s.dialing > 0 && c !in s.conns
    case SwapStep(t, c, _) => c in s.conns && (s.conns[c].released || (t, c) in s.users)
    case ReleaseStep(c, _) => c in s.conns && c in s.place && s.place[c].Releasing?
    case CloseConnStep(c) => c in s.place && s.place[c] == Closing
    case ClosePoolStep => true
  }

  function Next(cfg: Config, s: State, step: Step): State
    requires Enabled(s, step)
  {
    match step
    case TryGetStep(t, now) => TryGet(cfg, s, t, now).0
    case DialFailedStep => DialFailed(s)
    case DialledStep(t, c, now) => Dialled(s, t, c, now)
    case SwapStep(t, c, discard) => Swap(s, t, c, discard)
    case ReleaseStep(c, now) => Release(cfg, s, c, s.place[c].discard, now)
    case CloseConnStep(c) => CloseConn(s, c)
    case ClosePoolStep => ClosePool(s)
  }

  // ---------------------------------------------------------- the invariant

  ghost function Placed(place: map<Conn, Place>, k: Kind): set<Conn> {
    set c | c in place && KindOf(place[c]) == k
  }

  /** How many connections are in a kind of place. */
  ghost function Count(place: map<Conn, Place>, k: Kind): nat {
    |Placed(place, k)|
  }

  /** What each connection's own record, the idle list, the users and the close calls say agrees with one place per
      connection. */
  ghost predicate Consistent(s: State) {
    Distinct(s.idle) && forall c: Conn :: ConsistentAt(s, c)
  }

  ghost predicate ConsistentAt(s: State, c: Conn) {
    && (c in s.place <==> c in s.conns)
    && (c in s.idle <==> c in s.place && s.place[c] == Idle)
    && (c in s.place ==> (s.conns[c].released <==> !s.place[c].Out?))
    && (forall t: Thread :: (t, c) in s.users <==> c in s.place && s.place[c] == Out(t))
    && s.closeCalls[c] == if c in s.place && s.place[c] == Gone then 1 else 0
  }

  /** The books: every unit of `active` is an idle, used or releasing connection or a dial; every created connection
      is one of these or counted as closed. */
  ghost predicate Balanced(s: State) {
    && s.dialing >= 0
    && |s.idle| == Count(s.place, IdleKind)
    && s.active == |s.idle| + Count(s.place, OutKind) + Count(s.place, ReleasingKind) + s.dialing
    && s.created == |s.idle| + Count(s.place, OutKind) + Count(s.place, ReleasingKind) + s.closedN
    && s.closedN == Count(s.place, ClosingKind) + Count(s.place, GoneKind)
  }

  ghost predicate WithinLimits(cfg: Config, s: State) {
    s.active <= cfg.maxActive && |s.idle| <= cfg.maxIdle && (s.closed ==> s.idle == [])
  }

  ghost predicate Inv(cfg: Config, s: State) {
    cfg.Valid() && Consistent(s) && Balanced(s) && WithinLimits(cfg, s)
  }

  /** Moving one connection changes the two counts it leaves and enters. */
  lemma CountMoved(place: map<Conn, Place>, c: Conn, p: Place, k: Kind)
    ensures Count(place[c := p], k) ==
            Count(place, k) - (if c in place && KindOf(place[c]) == k then 1 else 0) + (if KindOf(p) == k then 1 else 0)
  {
    var before, after := Placed(place, k), Placed(place[c := p], k);
    assert after == if KindOf(p) == k then before + {c} else before - {c};
  }

  lemma CountsMoved(place: map<Conn, Place>, c: Conn, p: Place)
    ensures forall k: Kind :: Count(place[c := p], k) ==
              Count(place, k) - (if c in place && KindOf(place[c]) == k then 1 else 0) + (if KindOf(p) == k then 1 else 0)
  {
    forall k: Kind { CountMoved(place, c, p, k); }
  }

  lemma LastIdle(s: State, d: Conn)
    requires Consistent(s) && s.idle != []
    ensures var c := s.idle[|s.idle| - 1];
            c in s.conns && c in s.place && s.place[c] == Idle
    ensures var n := |s.idle| - 1;
            d in s.idle[..n] <==> d in s.idle && d != s.idle[n]
  {
    var n := |s.idle| - 1;
    assert s.idle[n] in s.idle;
    assert ConsistentAt(s, s.idle[n]);
    assert s.idle == s.idle[..n] + [s.idle[n]];
  }

  lemma CloseIdleKeepsInv(cfg: Config, s: State)
    requires Inv(cfg, s) && s.idle != []
    ensures Inv(cfg, CloseIdle(s))
  {
    var c := s.idle[|s.idle| - 1];
    forall d: Conn ensures ConsistentAt(CloseIdle(s), d) {
      assert ConsistentAt(s, d);
      LastIdle(s, d);
    }
    LastIdle(s, c);
    CountsMoved(s.place, c, Gone);
  }

  lemma ReuseKeepsInv(cfg: Config, s: State, t: Thread)
    requires Inv(cfg, s) && s.idle != []
    ensures s.idle[|s.idle| - 1] in s.conns && Inv(cfg, Reuse(s, t))
  {
    var c := s.idle[|s.idle| - 1];
    LastIdle(s, c);
    forall d: Conn ensures ConsistentAt(Reuse(s, t), d) {
      assert ConsistentAt(s, d);
      LastIdle(s, d);
    }
    CountsMoved(s.place, c, Out(t));
  }

  lemma InvKnowsIdle(cfg: Config, s: State)
    requires Inv(cfg, s)
    ensures IdleKnown(s)
  {
    forall i | 0 <= i < |s.idle| ensures s.idle[i] in s.conns {
      assert s.idle[i] in s.idle;
      assert ConsistentAt(s, s.idle[i]);
    }
  }

  lemma {:induction false} TryGetKeepsInv(cfg: Config, s: State, t: Thread, now: int)
    requires Inv(cfg, s) && IdleKnown(s)
    ensures Inv(cfg, TryGet(cfg, s, t, now).0)
    decreases |s.idle|
  {
    if !s.closed && s.idle != [] {
      if Expired(cfg, s.conns[s.idle[|s.idle| - 1]], now) {
        CloseIdleKeepsInv(cfg, s);
        TryGetKeepsInv(cfg, CloseIdle(s), t, now);
      } else {
        ReuseKeepsInv(cfg, s, t);
      }
    } else {
      forall d: Conn ensures ConsistentAt(TryGet(cfg, s, t, now).0, d) { assert ConsistentAt(s, d); }
    }
  }

  lemma DialledKeepsInv(cfg: Config, s: State, t: Thread, c: Conn, now: int)
    requires Inv(cfg, s) && s.dialing > 0 && c !in s.conns
    ensures Inv(cfg, Dialled(s, t, c, now))
  {
    forall d: Conn ensures ConsistentAt(Dialled(s, t, c, now), d) { assert ConsistentAt(s, d); }
    assert ConsistentAt(s, c);
    CountsMoved(s.place, c, Out(t));
  }

  lemma SwapKeepsInv(cfg: Config, s: State, t: Thread, c: Conn, discard: bool)
    requires Inv(cfg, s) && Enabled(s, SwapStep(t, c, discard))
    ensures Inv(cfg, Swap(s, t, c, discard))
  {
    assert ConsistentAt(s, c);
    if !s.conns[c].released {
      forall d: Conn ensures ConsistentAt(Swap(s, t, c, discard), d) { assert ConsistentAt(s, d); }
      CountsMoved(s.place, c, Releasing(discard));
    }
  }

  lemma ReleaseConsistent(cfg: Config, s: State, c: Conn, now: int, d: Conn)
    requires ConsistentAt(s, d) && Enabled(s, ReleaseStep(c, now))
    ensures ConsistentAt(Release(cfg, s, c, s.place[c].discard, now), d)
  {
    assert d in s.idle + [c] <==> d in s.idle || d == c;
  }

  lemma ReleaseKeepsInv(cfg: Config, s: State, c: Conn, now: int)
    requires Inv(cfg, s) && Enabled(s, ReleaseStep(c, now))
    ensures Inv(cfg, Release(cfg, s, c, s.place[c].discard, now))
  {
    assert ConsistentAt(s, c);
    forall d: Conn ensures ConsistentAt(Release(cfg, s, c, s.place[c].discard, now), d) {
      assert ConsistentAt(s, d);
      ReleaseConsistent(cfg, s, c, now, d);
    }
    if MustClose(cfg, s, c, s.place[c].discard, now) {
      CountsMoved(s.place, c, Closing);
    } else {
      CountsMoved(s.place, c, Idle);
    }
  }

  lemma CloseConnKeepsInv(cfg: Config, s: State, c: Conn)
    requires Inv(cfg, s) && Enabled(s, CloseConnStep(c))
    ensures Inv(cfg, CloseConn(s, c))
  {
    forall d: Conn ensures ConsistentAt(CloseConn(s, c), d) { assert ConsistentAt(s, d); }
    CountsMoved(s.place, c, Gone);
  }

  lemma {:induction false} MarkClosingIs(place: map<Conn, Place>, idle: seq<Conn>)
    requires Distinct(idle) && forall c :: c in idle ==> c in place && place[c] == Idle
    ensures MarkClosing(place, idle).Keys == place.Keys
    ensures forall c :: c in place ==> MarkClosing(place, idle)[c] == if c in idle then Closing else place[c]
    ensures forall k: Kind :: Count(MarkClosing(place, idle), k) ==
              Count(place, k) - (if k == IdleKind then |idle| else 0) + (if k == ClosingKind then |idle| else 0)
  {
    if idle != [] {
      var n := |idle| - 1;
      assert idle == idle[..n] + [idle[n]];
      MarkClosingIs(place, idle[..n]);
      CountsMoved(MarkClosing(place, idle[..n]), idle[n], Closing);
    }
  }

  lemma ClosePoolKeepsInv(cfg: Config, s: State)
    requires Inv(cfg, s)
    ensures Inv(cfg, ClosePool(s))
  {
    forall c | c in s.idle ensures c in s.place && s.place[c] == Idle { assert ConsistentAt(s, c); }
    MarkClosingIs(s.place, s.idle);
    forall d: Conn ensures ConsistentAt(ClosePool(s), d) { assert ConsistentAt(s, d); }
  }

  lemma StepKeepsInv(cfg: Config, s: State, step: Step)
    requires Inv(cfg, s) && Enabled(s, step)
    ensures Inv(cfg, Next(cfg, s, step))
  {
    match step
    case TryGetStep(t, now) => TryGetKeepsInv(cfg, s, t, now);
    case DialFailedStep =>
      forall d: Conn ensures ConsistentAt(DialFailed(s), d) { assert ConsistentAt(s, d); }
    case DialledStep(t, c, now) => DialledKeepsInv(cfg, s, t, c, now);
    case SwapStep(t, c, discard) => SwapKeepsInv(cfg, s, t, c, discard);
    case ReleaseStep(c, now) => ReleaseKeepsInv(cfg, s, c, now);
    case CloseConnStep(c) => CloseConnKeepsInv(cfg, s, c);
    case ClosePoolStep => ClosePoolKeepsInv(cfg, s);
  }

  // ------------------------------------------------------------ whole runs

  ghost predicate StepAt(cfg: Config, states: seq<State>, steps: seq<Step>, k: int)
    requires 0 <= k < |steps| && |states| == |steps| + 1
  {
    Enabled(states[k], steps[k]) && states[k + 1] == Next(cfg, states[k], steps[k])
  }

  /** An interleaving of steps from the empty pool. */
  ghost predicate IsRun(cfg: Config, states: seq<State>, steps: seq<Step>) {
    && |states| == |steps| + 1
    && states[0] == INITIAL
    && forall k :: 0 <= k < |steps| ==> StepAt(cfg, states, steps, k)
  }

  lemma InitialInv(cfg: Config)
    requires cfg.Valid()
    ensures Inv(cfg, INITIAL)
  {
    assert forall k: Kind :: Placed(map[], k) == {};
  }

  lemma {:induction false} RunKeepsInv(cfg: Config, states: seq<State>, steps: seq<Step>, k: nat)
    requires cfg.Valid() && IsRun(cfg, states, steps) && k <= |steps|
    ensures Inv(cfg, states[k])
  {
    if k == 0 {
      InitialInv(cfg);
    } else {
      RunKeepsInv(cfg, states, steps, k - 1);
      assert StepAt(cfg, states, steps, k - 1);
      StepKeepsInv(cfg, states[k - 1], steps[k - 1]);
    }
  }

  /** Pool accounting in every interleaving: `active` is the idle and checked-out connections and the reserved dials
      and stays within its limit, as the idle list does; every created connection is idle, checked out or counted as
      closed. */
  lemma PoolAccounting(cfg: Config, states: seq<State>, steps: seq<Step>, k: nat)
    requires cfg.Valid() && IsRun(cfg, states, steps) && k <= |steps|
    ensures var s := states[k];
            var checkedOut := Count(s.place, OutKind) + Count(s.place, ReleasingKind);
            && s.active == |s.idle| + checkedOut + s.dialing && 0 <= s.active <= cfg.maxActive && |s.idle| <= cfg.maxIdle
            && s.created == s.closedN + |s.idle| + checkedOut
  {
    RunKeepsInv(cfg, states, steps, k);
  }

  /** Exclusive use in every interleaving: a connection in use has one user, is not idle and was not closed, and no
      connection is closed twice. */
  lemma PoolExclusivity(cfg: Config, states: seq<State>, steps: seq<Step>, k: nat, t: Thread, u: Thread, c: Conn)
    requires cfg.Valid() && IsRun(cfg, states, steps) && k <= |steps|
    ensures var s := states[k];
            && ((t, c) in s.users && (u, c) in s.users ==> t == u)
            && ((t, c) in s.users ==> c !in s.idle && s.closeCalls[c] == 0)
            && (c in s.idle ==> s.closeCalls[c] == 0)
            && s.closeCalls[c] <= 1
  {
    RunKeepsInv(cfg, states, steps, k);
    assert ConsistentAt(states[k], c);
  }

  // ---------------------------------------------------- what is handed out

  /** Idle connection `j` is live and everything returned after it has expired. */
  ghost predicate IsNewestLive(cfg: Config, s: State, now: int, j: int) {
    && 0 <= j < |s.idle| && IdleKnown(s) && !Expired(cfg, s.conns[s.idle[j]], now)
    && forall i :: j < i < |s.idle| ==> Expired(cfg, s.conns[s.idle[i]], now)
  }

  /** An open pool hands out the live connection returned last, with all returned after it closed; only when no idle
      connection is live does it reserve a dial, and only when the limit is then full does the caller wait. */
  lemma {:induction false} TryGetTakesNewestLive(cfg: Config, s: State, t: Thread, now: int)
    requires IdleKnown(s) && !s.closed && cfg.Valid()
    ensures var (after, got) := TryGet(cfg, s, t, now);
            && after.closedN == s.closedN + |s.idle| - |after.idle| - (if got.Reused? then 1 else 0)
            && match got
               case PoolClosed => false
               case Reused(c) => IsNewestLive(cfg, s, now, |after.idle|) && c == s.idle[|after.idle|] && after.idle <= s.idle
               case _ =>
                 && after.idle == [] && (forall i :: 0 <= i < |s.idle| ==> Expired(cfg, s.conns[s.idle[i]], now))
                 && (got == Wait <==> s.active - |s.idle| >= cfg.maxActive)
    decreases |s.idle|
  {
    if s.idle != [] && Expired(cfg, s.conns[s.idle[|s.idle| - 1]], now) {
      TryGetTakesNewestLive(cfg, CloseIdle(s), t, now);
    }
  }

  // -------------------------------------------------------------- shutdown

  /** Once closed, a pool stays closed with no idle connection, hands out nothing and reserves nothing, and closes
      every connection that is released. */
  lemma ClosedPoolTakesNothingBack(cfg: Config, s: State, step: Step)
    requires Inv(cfg, s) && s.closed && Enabled(s, step)
    ensures Next(cfg, s, step).closed && Next(cfg, s, step).idle == []
    ensures step.TryGetStep? ==> TryGet(cfg, s, step.thread, step.now) == (s, PoolClosed)
    ensures step.ReleaseStep? ==> Next(cfg, s, step).place[step.conn] == Closing && Next(cfg, s, step).active == s.active - 1
    ensures Next(cfg, s, step).dialing <= s.dialing
  {
  }

  /** Shutdown over whole runs: from the step that closes the pool on, it stays closed without idle connections, and only
      the dials that were then under way can still create connections. */
  lemma {:induction false} ClosedPoolStaysClosed(cfg: Config, states: seq<State>, steps: seq<Step>, i: nat, j: nat)
    requires cfg.Valid() && IsRun(cfg, states, steps) && i <= j <= |steps| && states[i].closed
    ensures states[j].closed && states[j].idle == []
    ensures states[j].dialing <= states[i].dialing
    ensures states[j].created + states[j].dialing <= states[i].created + states[i].dialing
    ensures states[j].active <= states[i].active
  {
    RunKeepsInv(cfg, states, steps, j);
    if i < j {
      ClosedPoolStaysClosed(cfg, states, steps, i, j - 1);
      RunKeepsInv(cfg, states, steps, j - 1);
      assert StepAt(cfg, states, steps, j - 1);
      ClosedPoolTakesNothingBack(cfg, states[j - 1], steps[j - 1]);
      ClosedPoolOnlyShrinks(cfg, states[j - 1], steps[j - 1]);
    }
  }

  lemma ClosedPoolOnlyShrinks(cfg: Config, s: State, step: Step)
    requires Inv(cfg, s) && s.closed && Enabled(s, step)
    ensures var s' := Next(cfg, s, step);
            s'.dialing <= s.dialing && s'.created + s'.dialing <= s.created + s.dialing && s'.active <= s.active
  {
  }

  /** When all users and pending dials of a closed pool are done, nothing is active and every created connection is
      counted as closed; when the closings are done too, each was closed exactly once. */
  lemma ClosedPoolQuiesces(cfg: Config, states: seq<State>, steps: seq<Step>, k: nat, s: State)
    requires cfg.Valid() && IsRun(cfg, states, steps) && k <= |steps| && s == states[k] && s.closed && s.dialing == 0
    requires forall c :: c in s.place ==> !s.place[c].Out? && !s.place[c].Releasing?
    ensures s.active == 0 && s.created == s.closedN
    ensures (forall c :: c in s.place ==> s.place[c] != Closing) ==> forall c :: c in s.conns ==> s.closeCalls[c] == 1
  {
    RunKeepsInv(cfg, states, steps, k);
    assert Placed(s.place, OutKind) == {} && Placed(s.place, ReleasingKind) == {};
    forall c | c in s.conns ensures c in s.place && (s.place[c] == Gone ==> s.closeCalls[c] == 1) && s.place[c] != Idle {
      assert ConsistentAt(s, c);
    }
  }

  // ---------------------------------------------------- closing a stale handle

  /** What the assumption on handles shuts out: a thread closes its old handle while another thread uses the
      connection. The connection is idle and in use at once exactly when its release would keep it, and the next
      thread that takes it shares it. */
  lemma StaleCloseSharesConnection(cfg: Config, s: State, stale: Thread, user: Thread, next: Thread, c: Conn, now: int)
    requires Inv(cfg, s) && c in s.place && s.place[c] == Out(user) && stale != user
    ensures c in s.conns && !Enabled(s, SwapStep(stale, c, false))
    ensures var swapped := Swap(s, stale, c, false);
            var released := Release(cfg, swapped, c, false, now);
            && (c in released.idle && (user, c) in released.users <==> !MustClose(cfg, swapped, c, false, now))
            && (c in released.idle ==>
                  && released.idle == s.idle + [c]
                  && (user, c) in Reuse(released, next).users && (next, c) in Reuse(released, next).users)
  {
    assert ConsistentAt(s, c);
    var swapped := Swap(s, stale, c, false);
    assert swapped.users == s.users && swapped.idle == s.idle;
  }

  lemma Extend(cfg: Config, states: seq<State>, steps: seq<Step>, step: Step, after: State)
    returns (states': seq<State>, steps': seq<Step>)
    requires IsRun(cfg, states, steps)
    requires Enabled(states[|steps|], step) && after == Next(cfg, states[|steps|], step)
    ensures IsRun(cfg, states', steps') && steps' == steps + [step] && states'[|steps'|] == after
  {
    states', steps' := states + [after], steps + [step];
    forall k | 0 <= k < |steps'| ensures StepAt(cfg, states', steps', k) {
      if k < |steps| {
        assert StepAt(cfg, states, steps, k);
      }
    }
  }

  /** The closings of a list of connections that are to be closed are that many steps of a run. */
  lemma {:induction false} ClosingsAreSteps(cfg: Config, states: seq<State>, steps: seq<Step>, conns: seq<Conn>)
    returns (states': seq<State>, steps': seq<Step>)
    requires IsRun(cfg, states, steps) && Distinct(conns)
    requires forall c :: c in conns ==> c in states[|steps|].place && states[|steps|].place[c] == Closing
    ensures IsRun(cfg, states', steps') && |steps'| == |steps| + |conns| && steps'[..|steps|] == steps
    ensures forall i :: 0 <= i < |conns| ==> steps'[|steps| + i] == CloseConnStep(conns[i])
    ensures states'[|steps'|] == AllClosed(states[|steps|], conns)
    decreases |conns|
  {
    var s := states[|steps|];
    if conns == [] {
      states', steps' := states, steps;
      NoneGone(s.place);
    } else {
      var n := |conns| - 1;
      assert conns == conns[..n] + [conns[n]];
      states', steps' := ClosingsAreSteps(cfg, states, steps, conns[..n]);
      ClosesOneMore(s, conns[..n], conns[n]);
      states', steps' := Extend(cfg, states', steps', CloseConnStep(conns[n]), AllClosed(s, conns));
    }
  }

  /** Closing the pool is a run: after its locked section and its loop every connection that was idle has been closed once
      more, and no other connection's place or close count has changed. */
  lemma ClosingPoolClosesIdle(cfg: Config, states: seq<State>, steps: seq<Step>) returns (states': seq<State>, steps': seq<Step>)
    requires cfg.Valid() && IsRun(cfg, states, steps) && !states[|steps|].closed
    ensures IsRun(cfg, states', steps')
    ensures var s, s' := states[|steps|], states'[|steps'|];
            && s' == AllClosed(ClosePool(s), s.idle) && s'.closed && s'.idle == []
            && forall c :: c in s.place ==>
                 && c in s'.place && s'.place[c] == (if c in s.idle then Gone else s.place[c])
                 && s'.closeCalls[c] == s.closeCalls[c] + (if c in s.idle then 1 else 0)
  {
    var s := states[|steps|];
    RunKeepsInv(cfg, states, steps, |steps|);
    forall c | c in s.idle ensures c in s.place && s.place[c] == Idle { assert ConsistentAt(s, c); }
    MarkClosingIs(s.place, s.idle);
    states', steps' := Extend(cfg, states, steps, ClosePoolStep, ClosePool(s));
    states', steps' := ClosingsAreSteps(cfg, states', steps', s.idle);
    forall c: Conn ensures multiset(s.idle)[c] == if c in s.idle then 1 else 0 {
      DistinctCountsOnce(s.idle, c);
    }
  }

  lemma {:induction false} DistinctCountsOnce(conns: seq<Conn>, c: Conn)
    requires Distinct(conns)
    ensures multiset(conns)[c] == if c in conns then 1 else 0
  {
    if conns != [] {
      var n := |conns| - 1;
      assert conns == conns[..n] + [conns[n]];
      DistinctCountsOnce(conns[..n], c);
    }
  }

  /** Such a thread is left over whenever idle connections are kept at all: it dialled connection 0 and closed it, another
      thread took it from the idle list, and one more close of the old handle would put it back there. */
  lemma StaleHandleIsReachable(cfg: Config, stale: Thread, user: Thread) returns (states: seq<State>, steps: seq<Step>)
    requires cfg.Valid() && !cfg.short && stale != user
    ensures IsRun(cfg, states, steps)
    ensures steps == [TryGetStep(stale, 0), DialledStep(stale, 0, 0), SwapStep(stale, 0, false), ReleaseStep(0, 0), TryGetStep(user, 0)]
    ensures var s := states[|steps|];
            && 0 in s.place && s.place[0] == Out(user) && (user, 0) in s.users && 0 in s.conns
            && !MustClose(cfg, Swap(s, stale, 0, false), 0, false, 0)
  {
    var s1 := INITIAL.(active := 1, dialing := 1);
    states, steps := Extend(cfg, [INITIAL], [], TryGetStep(stale, 0), s1);
    var s2 := Dialled(s1, stale, 0, 0);
    states, steps := Extend(cfg, states, steps, DialledStep(stale, 0, 0), s2);
    var s3 := Swap(s2, stale, 0, false);
    states, steps := Extend(cfg, states, steps, SwapStep(stale, 0, false), s3);
    var s4 := Release(cfg, s3, 0, false, 0);
    states, steps := Extend(cfg, states, steps, ReleaseStep(0, 0), s4);
    assert s4.idle == [0];
    states, steps := Extend(cfg, states, steps, TryGetStep(user, 0), Reuse(s4, user));
  }

  // -------------------------------------------------------------- the class

  class Pool {
    const cfg: Config
    var idle: seq<Conn>
    var active: int
    var closed: bool
    var created: int
    var closedN: int
    var conns: map<Conn, ConnInfo>
    ghost var dialing: int
    ghost var users: set<(Thread, Conn)>
    ghost var closeCalls: multiset<Conn>
    ghost var place: map<Conn, Place>

    ghost function View(): State
      reads this
    {
      State(idle, active, closed, created, closedN, conns, dialing, users, closeCalls, place)
    }

    constructor (cfg: Config)
      requires cfg.Valid()
      ensures this.cfg == cfg && View() == INITIAL
    {
      this.cfg := cfg;
      idle, active, closed, created, closedN, conns := [], 0, false, 0, 0, map[];
      dialing, users, closeCalls, place := 0, {}, multiset{}, map[];
    }

    /** The locked section of `tryGetIdleOrReserve`. */
    method TryGetIdleOrReserve(ghost t: Thread, now: int) returns (got: Got)
      requires IdleKnown(View())
      modifies this
      ensures (View(), got) == TryGet(cfg, old(View()), t, now)
    {
      if closed {
        return PoolClosed;
      }
      while |idle| > 0
        invariant IdleKnown(View()) && !closed
        invariant TryGet(cfg, old(View()), t, now) == TryGet(cfg, View(), t, now)
        decreases |idle|
      {
        var conn := idle[|idle| - 1];
        if !Expired(cfg, conns[conn], now) {
          TakeLast(t);
          return Reused(conn);
        }
        DropLast();
      }
      if cfg.maxActive > 0 && active >= cfg.maxActive {
        return Wait;
      }
      active, dialing := active + 1, dialing + 1;
      return Reserved;
    }

    /** The two outcomes of the loop above: the last idle connection is handed out, or closed when expired. */
    method TakeLast(ghost t: Thread)
      requires idle != [] && idle[|idle| - 1] in conns
      modifies this
      ensures View() == Reuse(old(View()), t)
    {
      var conn := idle[|idle| - 1];
      idle := idle[..|idle| - 1];
      conns := conns[conn := conns[conn].(released := false)];
      users, place := users + {(t, conn)}, place[conn := Out(t)];
    }

    method DropLast()
      requires idle != []
      modifies this
      ensures View() == CloseIdle(old(View()))
    {
      var conn := idle[|idle| - 1];
      idle := idle[..|idle| - 1];
      active, closedN := active - 1, closedN + 1;
      closeCalls, place := closeCalls + multiset{conn}, place[conn := Gone];
    }

    /** The end of `dialReserved`: the reservation is given up, or becomes a connection in use. */
    method DialReserved(failed: bool, ghost t: Thread, conn: Conn, now: int)
      requires dialing > 0 && conn !in conns
      modifies this
      ensures View() == if failed then DialFailed(old(View())) else Dialled(old(View()), t, conn, now)
    {
      dialing := dialing - 1;
      if failed {
        active := active - 1;
        return;
      }
      conns := conns[conn := ConnInfo(now, now, false)];
      created := created + 1;
      users, place := users + {(t, conn)}, place[conn := Out(t)];
    }

    /** The compare-and-swap that opens `PooledConn.Close` and `Discard`. */
    method SwapReleased(ghost t: Thread, conn: Conn, discard: bool) returns (won: bool)
      requires conn in conns
      modifies this
      ensures View() == Swap(old(View()), t, conn, discard)
      ensures won == !old(conns)[conn].released
    {
      if conns[conn].released {
        return false;
      }
      conns := conns[conn := conns[conn].(released := true)];
      users, place := users - {(t, conn)}, place[conn := Releasing(discard)];
      return true;
    }

    /** The locked section of `release`; the caller closes the connection when told so. */
    method ReleaseLocked(conn: Conn, discard: bool, now: int) returns (shouldClose: bool)
      requires conn in conns
      modifies this
      ensures View() == Release(cfg, old(View()), conn, discard, now)
      ensures shouldClose == MustClose(cfg, old(View()), conn, discard, now)
    {
      conns := conns[conn := conns[conn].(lastUsed := now)];
      shouldClose := discard || closed || cfg.short || Expired(cfg, conns[conn], now) || |idle| >= cfg.maxIdle;
      if shouldClose {
        active, closedN := active - 1, closedN + 1;
        place := place[conn := Closing];
        return;
      }
      idle := idle + [conn];
      place := place[conn := Idle];
    }

    /** The locked section of `closeWithReason`; the caller closes the connections returned. */
    method CloseLocked() returns (toClose: seq<Conn>)
      modifies this
      ensures View() == ClosePool(old(View()))
      ensures toClose == if old(closed) then [] else old(idle)
    {
      if closed {
        return [];
      }
      closed := true;
      toClose := idle;
      place := MarkClosing(place, idle);
      idle := [];
      active, closedN := active - |toClose|, closedN + |toClose|;
    }

    /** The loop of `closeWithReason`. */
    method CloseAll(toClose: seq<Conn>)
      modifies this`closeCalls, this`place
      ensures View() == AllClosed(old(View()), toClose)
    {
      NoneGone(place);
      for i := 0 to |toClose|
        invariant View() == AllClosed(old(View()), toClose[..i])
      {
        assert toClose[..i + 1] == toClose[..i] + [toClose[i]];
        ClosesOneMore(old(View()), toClose[..i], toClose[i]);
        closeCalls, place := closeCalls + multiset{toClose[i]}, place[toClose[i] := Gone];
      }
      assert toClose[..|toClose|] == toClose;
    }
  }
}
