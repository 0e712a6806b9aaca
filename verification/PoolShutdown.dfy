/** What is left of the pool's children when every call has returned after Close. */
module PoolShutdown {

  import opened Options
  import opened Quarters
  import opened PoolSections
  import opened PoolMachine
  import opened PoolInvariant
  import opened PoolLeak

  /** Close has run, the janitor has exited, and no call is in progress. */
  ghost predicate Quiescent(s: State) {
    s.pool.closed && forall t :: 0 <= t < |s.threads| ==> Finished(s.threads[t])
  }

  lemma ReachableLeakInv(s: State)
    requires Reachable(s)
    ensures Inv(s) && LeakInv(s)
  {
    var states, events :| Run(states, events) && states[|events|] == s;
    RunKeepsLeakInv(states, events, |events|);
  }

  /** An entry that a sweep or Close unmapped, and that is on nobody's list any more, stays empty. */
  lemma DrainedStaysEmpty(s: State, e: nat)
    requires Reachable(s) && e < |s.pool.slots| && Collected(s.pool.slots[e].life)
    requires !Draining(s, e)
    ensures s.pool.slots[e].client.None?
    ensures forall t: nat :: Inside(s, t, e) ==> !Filling(s, t, e)
  {
    ReachableLeakInv(s);
    forall t: nat | Inside(s, t, e) ensures !Filling(s, t, e) {
      assert Inside(s, t, e) <==> LockedBy(s, e, t);
      assert !Occupied(s, e);
    }
    assert !Occupied(s, e);
  }

  lemma MuHolderInside(s: State)
    requires MuMatches(s)
    ensures s.mu.Some? ==> s.mu.value < |s.threads| && HoldsMu(s.threads[s.mu.value])
  {
    if s.mu.Some? { assert InsideMu(s, s.mu.value) <==> s.mu == Some(s.mu.value); }
  }

  lemma OwnerHas(s: State, c: nat)
    requires OwnersMatch(s) && c < |s.clients|
    ensures s.clients[c].owner.ByThread? ==> ThreadHas(s, s.clients[c].owner.t, c)
    ensures s.clients[c].owner.ByEntry? ==> EntryHas(s, s.clients[c].owner.e, c)
    ensures s.clients[c].owner.Nobody? <==> s.clients[c].closed
  {
    var o := s.clients[c].owner;
    assert o.ByThread? ==> (ThreadHas(s, o.t, c) <==> OwnedBy(s, c, ByThread(o.t)));
    assert o.ByEntry? ==> (EntryHas(s, o.e, c) <==> OwnedBy(s, c, ByEntry(o.e)));
    assert OwnedBy(s, c, Nobody) <==> s.clients[c].closed;
  }

  lemma QuietPool(s: State, e: nat)
    requires Inv(s) && LeakInv(s) && Quiescent(s) && e < |s.pool.slots|
    ensures s.pool.slots[e].life.Dead?
    ensures Collected(s.pool.slots[e].life) ==> s.pool.slots[e].client.None?
  {
    MuHolderInside(s);
    assert Alive(s.pool, e) <==> Mapped(s.pool, e) || e in Unmarked(s);
    assert forall t: nat :: !DrainsAt(s, t, e);
    assert !Draining(s, e);
    assert !Occupied(s, e);
  }

  /**
   A child survives shutdown exactly when evict unmapped its entry and no CallTool on
   it ever failed.
   */
  lemma LeftBehindExactly(s: State, c: nat)
    requires Reachable(s) && Quiescent(s) && c < |s.clients|
    ensures s.clients[c].home < |s.pool.slots|
    ensures !s.clients[c].closed <==>
              s.pool.slots[s.clients[c].home].life == Dead(ByEvict) && !s.clients[c].failed
  {
    ReachableLeakInv(s);
    assert CountsOk(s, c) && FateOk(s, c);
    OwnerHas(s, c);
    QuietPool(s, s.clients[c].home);
    var life := s.pool.slots[s.clients[c].home].life;
    assert life.killer.ByEvict? || life.killer.BySweep? || life.killer.ByClose?;
  }

  /** And then its spawn followed a dead check made between some evict's unlock and its mark. */
  lemma LeftBehindOnlyWindowed(s: State, c: nat)
    requires Reachable(s) && Quiescent(s) && c < |s.clients| && !s.clients[c].closed
    ensures s.clients[c].windowed
  {
    ReachableLeakInv(s);
    LeftBehindExactly(s, c);
    assert CountsOk(s, c);
    OwnerHas(s, c);
    assert Doomed(s, s.clients[c].home);
  }

  // ---- runs in which nobody passes the dead check inside a window ----

  /** Nobody passes the dead check of an entry that another call has unlocked and is about to mark. */
  ghost predicate PassesOutsideWindows(states: seq<State>, events: seq<Event>) {
    |states| == |events| + 1 &&
    forall i {:trigger events[i]} :: 0 <= i < |events| && events[i].Stepped? ==> !PassesInWindow(states[i], events[i].t)
  }

  /** Goroutine t's next step is to pass the dead check inside a window. */
  predicate PassesInWindow(s: State, t: nat) {
    && t < |s.threads| && s.threads[t].DCheckDead? && s.threads[t].e < |s.pool.slots|
    && !s.pool.IsDead(s.threads[t].e) && SomeWindow(s, s.threads[t].e)
  }

  ghost predicate NothingWindowed(s: State) {
    && (forall t: nat :: t < |s.threads| && (s.threads[t].DPassed? || s.threads[t].DSpawning?) ==>
          !s.threads[t].windowed)
    && (forall c: nat :: c < |s.clients| ==> !s.clients[c].windowed)
  }

  lemma StepKeepsUnwindowed(s: State, t: nat, choice: Choice)
    requires Inv(s) && NothingWindowed(s) && Steppable(s, t) && PlanStep(s, t, choice).Some?
    requires !PassesInWindow(s, t)
    ensures NothingWindowed(Apply(s, t, PlanStep(s, t, choice).value))
  {
    var plan := PlanStep(s, t, choice).value;
    StepFate(s, t, choice);
    PassesUnwindowed(s, t, choice);
    ApplyKeepsUnwindowed(s, t, plan);
  }

  lemma PassesUnwindowed(s: State, t: nat, choice: Choice)
    requires Steppable(s, t) && PlanStep(s, t, choice).Some? && !PassesInWindow(s, t)
    ensures var next := PlanStep(s, t, choice).value.next; next.DPassed? ==> !next.windowed
  {
  }

  lemma ApplyKeepsUnwindowed(s: State, t: nat, plan: Plan)
    requires NothingWindowed(s) && t < |s.threads| && FillPlan(s, t, plan)
    requires plan.next.DPassed? ==> !plan.next.windowed
    ensures NothingWindowed(Apply(s, t, plan))
  {
    var s' := Apply(s, t, plan);
    forall c: nat | c < |s'.clients| ensures !s'.clients[c].windowed {
      if c < |s.clients| { WindowedFrame(s, t, plan, c); }
    }
  }

  lemma {:induction false} RunStaysUnwindowed(states: seq<State>, events: seq<Event>, n: nat)
    requires Run(states, events) && PassesOutsideWindows(states, events) && n <= |events|
    ensures NothingWindowed(states[n])
  {
    if n > 0 {
      RunStaysUnwindowed(states, events, n - 1);
      RunKeepsInv(states, events, n - 1);
      var ev := events[n - 1];
      assert Next(states[n - 1], states[n], ev);
      if ev.Stepped? { StepKeepsUnwindowed(states[n - 1], ev.t, ev.choice); }
    }
  }

  /**
   The window is the only way to lose a child: in a run in which nobody passes the dead
   check inside one, shutdown closes every child.
   */
  lemma OnlyWindowsLeak(states: seq<State>, events: seq<Event>, c: nat)
    requires Run(states, events) && PassesOutsideWindows(states, events)
    requires Quiescent(states[|events|]) && c < |states[|events|].clients|
    ensures states[|events|].clients[c].closed
  {
    var s := states[|events|];
    assert Reachable(s);
    RunStaysUnwindowed(states, events, |events|);
    if !s.clients[c].closed {
      LeftBehindOnlyWindowed(s, c);
    }
  }

  // ---- calls that do not overlap ----

  /** The quarter of a Dispatch that has not returned. */
  function Serving(pc: Pc): Option<Quarter> {
    match pc
    case DWantMu(want, _) => Some(want)
    case DCheckout(want, _) => Some(want)
    case DWantLock(want, _, _) => Some(want)
    case DCheckDead(want, _, _) => Some(want)
    case DRetry(want, _, _) => Some(want)
    case DPassed(want, _, _) => Some(want)
    case DSpawning(want, _, _) => Some(want)
    case DSpawned(want, _, _) => Some(want)
    case DReady(want, _) => Some(want)
    case DCalling(want, _, _) => Some(want)
    case DUnlockOk(want, _) => Some(want)
    case DWantMuUsed(want, _) => Some(want)
    case DMarkUsed(want, _) => Some(want)
    case DUnlockErr(want, _, _) => Some(want)
    case DWantMuEvict(want, _, _) => Some(want)
    case DEvict(want, _, _) => Some(want)
    case DClose(want, _) => Some(want)
    case DClosing(want, _) => Some(want)
    case _ => None
  }

  predicate Serves(s: State, t: nat, want: Quarter) {
    t < |s.threads| && Serving(s.threads[t]) == Some(want)
  }

  /** Dispatch is only called for a quarter that no unreturned Dispatch serves. */
  ghost predicate NoOverlap(states: seq<State>, events: seq<Event>) {
    |states| == |events| + 1 &&
    forall i {:trigger events[i]} :: 0 <= i < |events| && events[i].DispatchCalled? ==>
      forall t: nat :: !Serves(states[i], t, events[i].want)
  }

  ghost predicate OnePerQuarter(s: State) {
    forall t: nat, u: nat, want :: Serves(s, t, want) && Serves(s, u, want) ==> t == u
  }

  lemma LockedServing(s: State, t: nat, choice: Choice)
    requires Steppable(s, t) && PlanLocked(s, t, choice).Some?
    ensures var next := PlanLocked(s, t, choice).value.next;
            Serving(next).None? || Serving(next) == Serving(s.threads[t])
  {
  }

  lemma DispatchServing(s: State, t: nat, choice: Choice)
    requires Steppable(s, t) && PlanDispatch(s, t, choice).Some?
    ensures var next := PlanDispatch(s, t, choice).value.next;
            Serving(next).None? || Serving(next) == Serving(s.threads[t])
  {
  }

  lemma JanitorServing(s: State, t: nat, choice: Choice)
    requires Steppable(s, t) && PlanJanitor(s, t, choice).Some?
    ensures Serving(PlanJanitor(s, t, choice).value.next).None?
  {
  }

  lemma CloseServing(s: State, t: nat, choice: Choice)
    requires Steppable(s, t) && PlanClose(s, t, choice).Some?
    ensures Serving(PlanClose(s, t, choice).value.next).None?
  {
  }

  lemma DrainServing(s: State, t: nat, choice: Choice)
    requires Steppable(s, t) && PlanDrain(s, t, choice).Some?
    ensures Serving(PlanDrain(s, t, choice).value.next).None?
  {
  }

  lemma StepServing(s: State, t: nat, choice: Choice)
    requires Steppable(s, t) && PlanStep(s, t, choice).Some?
    ensures var next := PlanStep(s, t, choice).value.next; Serving(next).None? || Serving(next) == Serving(s.threads[t])
  {
    if PlanLocked(s, t, choice).Some? { LockedServing(s, t, choice); }
    if PlanDispatch(s, t, choice).Some? { DispatchServing(s, t, choice); }
    if PlanJanitor(s, t, choice).Some? { JanitorServing(s, t, choice); }
    if PlanClose(s, t, choice).Some? { CloseServing(s, t, choice); }
    if PlanDrain(s, t, choice).Some? { DrainServing(s, t, choice); }
  }

  /** Nobody else is inside a window on the entry of a quarter that goroutine t serves. */
  lemma NoWindowWhenSerial(s: State, t: nat)
    requires Inv(s) && OnePerQuarter(s)
    ensures !PassesInWindow(s, t)
  {
    if PassesInWindow(s, t) {
      var e := s.threads[t].e;
      assert Knows(s, s.threads[t]);
      var u :| 0 <= u < |s.threads| && InWindow(s.threads[u], e);
      assert Knows(s, s.threads[u]);
      assert Serves(s, t, s.threads[t].want) && Serves(s, u, s.threads[t].want);
    }
  }

  lemma StepKeepsSerial(s: State, t: nat, choice: Choice)
    requires OnePerQuarter(s) && Steppable(s, t) && PlanStep(s, t, choice).Some?
    ensures OnePerQuarter(Apply(s, t, PlanStep(s, t, choice).value))
  {
    StepServing(s, t, choice);
    ApplyKeepsSerial(s, t, PlanStep(s, t, choice).value);
  }

  lemma ApplyKeepsSerial(s: State, t: nat, plan: Plan)
    requires OnePerQuarter(s) && t < |s.threads|
    requires Serving(plan.next).None? || Serving(plan.next) == Serving(s.threads[t])
    ensures OnePerQuarter(Apply(s, t, plan))
  {
    var s' := Apply(s, t, plan);
    forall a: nat, b: nat, want | Serves(s', a, want) && Serves(s', b, want) ensures a == b {
      assert Serves(s, a, want) && Serves(s, b, want);
    }
  }

  lemma ArrivalKeepsSerial(s: State, pc: Pc)
    requires OnePerQuarter(s) && (Serving(pc).Some? ==> forall t: nat :: !Serves(s, t, Serving(pc).value))
    ensures OnePerQuarter(s.(threads := s.threads + [pc]))
  {
    var s' := s.(threads := s.threads + [pc]);
    forall a: nat, b: nat, q | Serves(s', a, q) && Serves(s', b, q) ensures a == b {
      if a < |s.threads| { assert Serves(s, a, q); }
      if b < |s.threads| { assert Serves(s, b, q); }
    }
  }

  lemma {:induction false} NoOverlapKeepsSerial(states: seq<State>, events: seq<Event>, n: nat)
    requires Run(states, events) && NoOverlap(states, events) && n <= |events|
    ensures OnePerQuarter(states[n])
  {
    if n > 0 {
      NoOverlapKeepsSerial(states, events, n - 1);
      var s, s' := states[n - 1], states[n];
      assert Next(s, s', events[n - 1]);
      match events[n - 1] {
        case Stepped(t, choice) => StepKeepsSerial(s, t, choice);
        case DispatchCalled(want) => ArrivalKeepsSerial(s, DWantMu(want, 0));
        case CloseCalled => ArrivalKeepsSerial(s, CWantMu);
        case TimePasses(_) =>
          forall a: nat, b: nat, q | Serves(s', a, q) && Serves(s', b, q) ensures a == b {
            assert Serves(s, a, q) && Serves(s, b, q);
          }
      }
    }
  }

  /** When calls for one quarter never overlap, shutdown closes every child. */
  lemma SerialShutdownIsClean(states: seq<State>, events: seq<Event>, c: nat)
    requires Run(states, events) && NoOverlap(states, events)
    requires Quiescent(states[|events|]) && c < |states[|events|].clients|
    ensures states[|events|].clients[c].closed
  {
    forall i {:trigger events[i]} | 0 <= i < |events| && events[i].Stepped?
      ensures !PassesInWindow(states[i], events[i].t)
    {
      RunKeepsInv(states, events, i);
      NoOverlapKeepsSerial(states, events, i);
      NoWindowWhenSerial(states[i], events[i].t);
    }
    OnlyWindowsLeak(states, events, c);
  }

  // ---- a Dispatch takes boundedly many steps ----

  /** How many steps a Dispatch can still take. */
  function StepsLeft(pc: Pc): (n: nat)
    ensures n <= 103
  {
    var again := (a: nat) => 14 + 5 * (if a <= 17 then 17 - a else 0);
    match pc
    case DWantMu(_, a) => again(a) + 4
    case DCheckout(_, a) => again(a) + 3
    case DWantLock(_, a, _) => again(a) + 2
    case DCheckDead(_, a, _) => again(a) + 1
    case DRetry(_, a, _) => again(a)
    case DPassed(_, _, _) => 11
    case DSpawning(_, _, _) => 10
    case DSpawned(_, _, _) => 9
    case DReady(_, _) => 8
    case DCalling(_, _, _) => 7
    case DUnlockErr(_, _, _) => 6
    case DWantMuEvict(_, _, _) => 5
    case DEvict(_, _, _) => 4
    case DClose(_, _) => 3
    case DClosing(_, _) => 2
    case DUnlockOk(_, _) => 4
    case DWantMuUsed(_, _) => 3
    case DMarkUsed(_, _) => 2
    case _ => 0
  }

  lemma StepCounts(s: State, t: nat, choice: Choice)
    requires Steppable(s, t) && PlanStep(s, t, choice).Some? && Serving(s.threads[t]).Some?
    ensures StepsLeft(PlanStep(s, t, choice).value.next) < StepsLeft(s.threads[t])
    ensures var next := PlanStep(s, t, choice).value.next; Serving(next).Some? || next.DDone?
  {
    if PlanLocked(s, t, choice).Some? { LockedCounts(s, t, choice); }
    if PlanDispatch(s, t, choice).Some? { DispatchCounts(s, t, choice); }
  }

  lemma LockedCounts(s: State, t: nat, choice: Choice)
    requires Steppable(s, t) && PlanLocked(s, t, choice).Some?
    ensures StepsLeft(PlanLocked(s, t, choice).value.next) < StepsLeft(s.threads[t])
    ensures var next := PlanLocked(s, t, choice).value.next; Serving(next).Some? || next.DDone?
  {
  }

  lemma DispatchCounts(s: State, t: nat, choice: Choice)
    requires Steppable(s, t) && PlanDispatch(s, t, choice).Some?
    ensures StepsLeft(PlanDispatch(s, t, choice).value.next) < StepsLeft(s.threads[t])
    ensures var next := PlanDispatch(s, t, choice).value.next; Serving(next).Some? || next.DDone?
  {
  }

  predicate InDispatch(s: State, t: nat) {
    t < |s.threads| && (Serving(s.threads[t]).Some? || s.threads[t].DDone?)
  }

  function Moves(ev: Event, t: nat): nat {
    if ev.Stepped? && ev.t == t then 1 else 0
  }

  lemma NextCounts(s: State, s': State, ev: Event, t: nat)
    requires Next(s, s', ev) && InDispatch(s, t)
    ensures InDispatch(s', t) && StepsLeft(s'.threads[t]) + Moves(ev, t) <= StepsLeft(s.threads[t])
  {
    if ev.Stepped? && ev.t == t {
      assert Serving(s.threads[t]).Some?;
      StepCounts(s, t, ev.choice);
    }
  }

  /** How often goroutine t moved. */
  function MovesOf(events: seq<Event>, t: nat): nat {
    if events == [] then 0 else MovesOf(events[..|events| - 1], t) + Moves(events[|events| - 1], t)
  }

  /** From any point on, the steps a Dispatch takes are bounded, whatever the others do. */
  lemma {:induction false} DispatchIsBounded(states: seq<State>, events: seq<Event>, i: nat, n: nat, t: nat)
    requires Run(states, events) && i <= n <= |events| && InDispatch(states[i], t)
    ensures InDispatch(states[n], t)
    ensures MovesOf(events[i..n], t) + StepsLeft(states[n].threads[t]) <= StepsLeft(states[i].threads[t])
    ensures MovesOf(events[i..n], t) <= 103
  {
    if i == n {
      assert events[i..n] == [];
    } else {
      DispatchIsBounded(states, events, i, n - 1, t);
      NextInRun(states, events, n);
      NextCounts(states[n - 1], states[n], events[n - 1], t);
      LastMove(events, i, n, t);
    }
  }

  lemma NextInRun(states: seq<State>, events: seq<Event>, n: nat)
    requires Run(states, events) && 0 < n <= |events|
    ensures Next(states[n - 1], states[n], events[n - 1])
  {
    assert Next(states[n - 1], states[n - 1 + 1], events[n - 1]);
  }

  lemma LastMove(events: seq<Event>, i: nat, n: nat, t: nat)
    requires i < n <= |events|
    ensures MovesOf(events[i..n], t) == MovesOf(events[i..n - 1], t) + Moves(events[n - 1], t)
  {
    assert events[i..n][..n - 1 - i] == events[i..n - 1];
  }
}
