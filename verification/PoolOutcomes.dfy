/** What the result of a Dispatch says about what it did, and when the sweep may take an entry. */
module PoolOutcomes {

  import opened Options
  import opened PoolSections
  import opened PoolMachine
  import opened PoolInvariant
  import opened PoolLeak
  import opened PoolShutdown

  // ---- what a Dispatch did ----

  /** The checkouts it made, how the last one ended, and how its spawns and calls ended. */
  datatype Deeds = Deeds(checkouts: nat, refused: bool, missing: bool, spawnsFailed: nat, served: nat, failed: nat)

  const NOTHING_DONE := Deeds(0, false, false, 0, 0, 0)

  /** One more step of goroutine t. */
  function Did(s: State, t: nat, choice: Choice, d: Deeds): Deeds
    requires s.pool.Valid() && t < |s.threads|
  {
    match s.threads[t]
    case DCheckout(want, _) =>
      d.(checkouts := d.checkouts + 1, refused := s.pool.closed,
         missing := !s.pool.closed && !HasLive(s.pool, want) && choice == Found(false))
    case DSpawning(_, _, _) => if choice.Fails? then d.(spawnsFailed := d.spawnsFailed + 1) else d
    case DCalling(_, _, _) =>
      if choice.Succeeds? then d.(served := d.served + 1)
      else if choice.Fails? then d.(failed := d.failed + 1) else d
    case _ => d
  }

  function After(s: State, ev: Event, t: nat, d: Deeds): Deeds {
    match ev
    case Stepped(u, choice) => if u == t && s.pool.Valid() && t < |s.threads| then Did(s, t, choice, d) else d
    case _ => d
  }

  /** What goroutine t did in the first n steps of the run. */
  function DeedsOf(states: seq<State>, events: seq<Event>, t: nat, n: nat): Deeds
    requires n <= |events| < |states|
  {
    if n == 0 then NOTHING_DONE else After(states[n - 1], events[n - 1], t, DeedsOf(states, events, t, n - 1))
  }

  predicate OnlyCheckouts(d: Deeds) {
    !d.refused && !d.missing && d.spawnsFailed == d.served == d.failed == 0
  }

  /** Each outcome stands for one course of events, and no two for the same. */
  predicate Truthful(outcome: Outcome, d: Deeds) {
    && 1 <= d.checkouts <= 18
    && (match outcome
        case Served => d == Deeds(d.checkouts, false, false, 0, 1, 0)
        case CallFailed => d == Deeds(d.checkouts, false, false, 0, 0, 1)
        case SpawnFailed => d == Deeds(d.checkouts, false, false, 1, 0, 0)
        case MissingBackend => d == Deeds(d.checkouts, false, true, 0, 0, 0)
        case PoolClosed => d == Deeds(d.checkouts, true, false, 0, 0, 0)
        case Churn => OnlyCheckouts(d) && d.checkouts == 18)
  }

  /** What a Dispatch has done by each program point. */
  predicate Consistent(pc: Pc, d: Deeds) {
    match pc
    case DWantMu(_, a) => OnlyCheckouts(d) && d.checkouts == a <= 17
    case DCheckout(_, a) => OnlyCheckouts(d) && d.checkouts == a <= 17
    case DWantLock(_, a, _) => OnlyCheckouts(d) && d.checkouts == a + 1 <= 18
    case DCheckDead(_, a, _) => OnlyCheckouts(d) && d.checkouts == a + 1 <= 18
    case DRetry(_, a, _) => OnlyCheckouts(d) && d.checkouts == a + 1 <= 18
    case DPassed(_, _, _) => OnlyCheckouts(d) && 1 <= d.checkouts <= 18
    case DSpawning(_, _, _) => OnlyCheckouts(d) && 1 <= d.checkouts <= 18
    case DSpawned(_, _, _) => OnlyCheckouts(d) && 1 <= d.checkouts <= 18
    case DReady(_, _) => OnlyCheckouts(d) && 1 <= d.checkouts <= 18
    case DCalling(_, _, _) => OnlyCheckouts(d) && 1 <= d.checkouts <= 18
    case DUnlockOk(_, _) => Truthful(Served, d)
    case DWantMuUsed(_, _) => Truthful(Served, d)
    case DMarkUsed(_, _) => Truthful(Served, d)
    case DUnlockErr(_, _, taken) => Truthful(if taken.Some? then CallFailed else SpawnFailed, d)
    case DWantMuEvict(_, _, taken) => Truthful(if taken.Some? then CallFailed else SpawnFailed, d)
    case DEvict(_, _, taken) => Truthful(if taken.Some? then CallFailed else SpawnFailed, d)
    case DClose(_, _) => Truthful(CallFailed, d)
    case DClosing(_, _) => Truthful(CallFailed, d)
    case DDone(_, outcome) => Truthful(outcome, d)
    case _ => true
  }

  lemma DispatchStays(s: State, t: nat, choice: Choice, d: Deeds)
    requires Steppable(s, t) && PlanDispatch(s, t, choice).Some? && Consistent(s.threads[t], d)
    ensures Consistent(PlanDispatch(s, t, choice).value.next, Did(s, t, choice, d))
  {
  }

  lemma LockedStays(s: State, t: nat, choice: Choice, d: Deeds)
    requires Steppable(s, t) && PlanLocked(s, t, choice).Some? && Consistent(s.threads[t], d)
    requires Phase(s, s.threads[t])
    ensures Consistent(PlanLocked(s, t, choice).value.next, Did(s, t, choice, d))
  {
  }

  lemma StepStays(s: State, t: nat, choice: Choice, d: Deeds)
    requires Steppable(s, t) && PlanStep(s, t, choice).Some? && Consistent(s.threads[t], d)
    requires Phase(s, s.threads[t]) && Serving(s.threads[t]).Some?
    ensures Consistent(PlanStep(s, t, choice).value.next, Did(s, t, choice, d))
  {
    DispatchSteps(s, t, choice);
    if PlanDispatch(s, t, choice).Some? {
      DispatchStays(s, t, choice, d);
    } else {
      LockedStays(s, t, choice, d);
    }
  }

  /** A Dispatch's steps are those of its retry loop and of the section under the entry's mutex. */
  lemma DispatchSteps(s: State, t: nat, choice: Choice)
    requires Steppable(s, t) && PlanStep(s, t, choice).Some? && Serving(s.threads[t]).Some?
    ensures PlanStep(s, t, choice)
            == if PlanDispatch(s, t, choice).Some? then PlanDispatch(s, t, choice) else PlanLocked(s, t, choice)
  {
  }

  /** Nobody but a Dispatch becomes one. */
  lemma StepStaysIn(s: State, t: nat, choice: Choice)
    requires Steppable(s, t) && PlanStep(s, t, choice).Some?
    ensures InDispatch(Apply(s, t, PlanStep(s, t, choice).value), t) ==> Serving(s.threads[t]).Some?
  {
    StepServing(s, t, choice);
    if !Serving(s.threads[t]).Some? { StepOutside(s, t, choice); }
  }

  lemma StepOutside(s: State, t: nat, choice: Choice)
    requires Steppable(s, t) && PlanStep(s, t, choice).Some? && Serving(s.threads[t]).None?
    ensures !PlanStep(s, t, choice).value.next.DDone?
  {
  }

  /** The deeds recorded so far fit the program point. */
  predicate Fits(s: State, t: nat, d: Deeds) {
    if t >= |s.threads| then d == NOTHING_DONE else InDispatch(s, t) ==> Consistent(s.threads[t], d)
  }

  lemma ThreadsAfter(s: State, t: nat, plan: Plan)
    requires t < |s.threads|
    ensures Apply(s, t, plan).threads == s.threads[t := plan.next]
  {
  }

  lemma OwnStepFits(s: State, t: nat, choice: Choice, d: Deeds)
    requires Steppable(s, t) && PlanStep(s, t, choice).Some? && Phase(s, s.threads[t]) && Fits(s, t, d)
    ensures Fits(Apply(s, t, PlanStep(s, t, choice).value), t, Did(s, t, choice, d))
  {
    var plan := PlanStep(s, t, choice).value;
    ThreadsAfter(s, t, plan);
    StepStaysIn(s, t, choice);
    if Serving(s.threads[t]).Some? { StepStays(s, t, choice, d); }
  }

  lemma OtherStepFits(s: State, u: nat, plan: Plan, t: nat, d: Deeds)
    requires u < |s.threads| && u != t && Fits(s, t, d)
    ensures Fits(Apply(s, u, plan), t, d)
  {
    ThreadsAfter(s, u, plan);
  }

  lemma NextFits(s: State, s': State, ev: Event, t: nat, d: Deeds)
    requires Next(s, s', ev) && (t < |s.threads| ==> Phase(s, s.threads[t])) && Fits(s, t, d)
    ensures Fits(s', t, After(s, ev, t, d))
  {
    if ev.Stepped? {
      if ev.t == t {
        OwnStepFits(s, t, ev.choice, d);
      } else {
        OtherStepFits(s, ev.t, PlanStep(s, ev.t, ev.choice).value, t, d);
      }
    }
  }

  lemma {:induction false} DeedsFit(states: seq<State>, events: seq<Event>, t: nat, n: nat)
    requires Run(states, events) && n <= |events|
    ensures Fits(states[n], t, DeedsOf(states, events, t, n))
  {
    if n > 0 {
      DeedsFit(states, events, t, n - 1);
      RunKeepsInv(states, events, n - 1);
      var s := states[n - 1];
      assert t < |s.threads| ==> Phase(s, s.threads[t]);
      NextInRun(states, events, n);
      NextFits(states[n - 1], states[n], events[n - 1], t, DeedsOf(states, events, t, n - 1));
    }
  }

  /** The outcome a Dispatch returns is the one thing that happened to it. */
  lemma OutcomeIsTrue(states: seq<State>, events: seq<Event>, t: nat, n: nat)
    requires Run(states, events) && n <= |events| && t < |states[n].threads| && states[n].threads[t].DDone?
    ensures Truthful(states[n].threads[t].outcome, DeedsOf(states, events, t, n))
  {
    DeedsFit(states, events, t, n);
  }

  /** A Dispatch calls a child that was spawned for the quarter it wants. */
  lemma CallsTheRightChild(s: State, t: nat)
    requires Reachable(s) && t < |s.threads| && s.threads[t].DCalling?
    ensures var c := s.threads[t].c;
            && c < |s.clients| && s.clients[c].home < |s.pool.slots|
            && s.pool.slots[s.clients[c].home].quarter == s.threads[t].want
  {
    ReachableInv(s);
    var pc := s.threads[t];
    assert Knows(s, pc) && Phase(s, pc);
    assert EntryHas(s, pc.e, pc.c) <==> OwnedBy(s, pc.c, ByEntry(pc.e));
    assert CountsOk(s, pc.c);
  }

  // ---- the idle clock ----

  /** No entry was last used in the future. */
  predicate UsedBy(p: Pool, now: int) {
    forall e :: 0 <= e < |p.slots| ==> p.slots[e].lastUsed <= now
  }

  /** A section leaves an entry's idle clock alone or sets it to now. */
  predicate UsedKept(p: Pool, p': Pool, now: int) {
    && |p.slots| <= |p'.slots|
    && (forall e :: 0 <= e < |p.slots| ==>
          p'.slots[e].lastUsed == p.slots[e].lastUsed || p'.slots[e].lastUsed == now)
    && (forall e :: |p.slots| <= e < |p'.slots| ==> p'.slots[e].lastUsed == now)
  }

  predicate UsedPlan(s: State, plan: Plan) {
    match plan.effect
    case UnlockMu(after) => UsedKept(s.pool, after, s.clock)
    case InMu(after) => UsedKept(s.pool, after, s.clock)
    case _ => true
  }

  lemma DispatchUses(s: State, t: nat, choice: Choice)
    requires Steppable(s, t)
    ensures PlanDispatch(s, t, choice).Some? ==> UsedPlan(s, PlanDispatch(s, t, choice).value)
    ensures PlanLocked(s, t, choice).Some? ==> UsedPlan(s, PlanLocked(s, t, choice).value)
  {
  }

  lemma OthersUse(s: State, t: nat, choice: Choice)
    requires Steppable(s, t)
    ensures PlanJanitor(s, t, choice).Some? ==> UsedPlan(s, PlanJanitor(s, t, choice).value)
    ensures PlanClose(s, t, choice).Some? ==> UsedPlan(s, PlanClose(s, t, choice).value)
    ensures PlanDrain(s, t, choice).Some? ==> UsedPlan(s, PlanDrain(s, t, choice).value)
  {
  }

  lemma StepUses(s: State, t: nat, choice: Choice)
    requires Steppable(s, t) && PlanStep(s, t, choice).Some?
    ensures UsedPlan(s, PlanStep(s, t, choice).value)
  {
    DispatchUses(s, t, choice);
    OthersUse(s, t, choice);
  }

  lemma ApplyUses(s: State, t: nat, plan: Plan)
    requires UsedPlan(s, plan) && UsedBy(s.pool, s.clock)
    ensures var s' := Apply(s, t, plan);
            && s'.clock == s.clock && s'.idleTimeout == s.idleTimeout
            && UsedBy(s'.pool, s'.clock) && |s.pool.slots| <= |s'.pool.slots|
            && forall e :: 0 <= e < |s.pool.slots| ==> s.pool.slots[e].lastUsed <= s'.pool.slots[e].lastUsed
  {
  }

  lemma NextUses(s: State, s': State, ev: Event)
    requires Next(s, s', ev) && UsedBy(s.pool, s.clock)
    ensures s.clock <= s'.clock && s'.idleTimeout == s.idleTimeout
    ensures UsedBy(s'.pool, s'.clock) && |s.pool.slots| <= |s'.pool.slots|
    ensures forall e :: 0 <= e < |s.pool.slots| ==> s.pool.slots[e].lastUsed <= s'.pool.slots[e].lastUsed
  {
    if ev.Stepped? {
      StepUses(s, ev.t, ev.choice);
      ApplyUses(s, ev.t, PlanStep(s, ev.t, ev.choice).value);
    }
  }

  lemma {:induction false} RunUses(states: seq<State>, events: seq<Event>, j: nat, n: nat)
    requires Run(states, events) && j <= n <= |events|
    ensures UsedBy(states[n].pool, states[n].clock) && states[j].idleTimeout == states[n].idleTimeout
    ensures |states[j].pool.slots| <= |states[n].pool.slots|
    ensures forall e :: 0 <= e < |states[j].pool.slots| ==>
              states[j].pool.slots[e].lastUsed <= states[n].pool.slots[e].lastUsed
  {
    if n > 0 {
      if j < n { RunUses(states, events, j, n - 1); } else { RunUses(states, events, n - 1, n - 1); }
      NextInRun(states, events, n);
      NextUses(states[n - 1], states[n], events[n - 1]);
    }
  }

  /** Goroutine t's next step is to be given entry e by checkout, or to mark it used. */
  predicate Uses(s: State, s': State, t: nat, e: nat) {
    && t < |s.threads| == |s'.threads| && e < |s'.pool.slots|
    && (|| (s.threads[t].DCheckout? && s'.threads[t].DWantLock? && s'.threads[t].e == e)
        || (s.threads[t].DMarkUsed? && s.threads[t].e == e && e < |s.pool.slots| && s.pool.slots[e].life.Live?))
  }

  lemma UseSetsClock(s: State, t: nat, choice: Choice, e: nat)
    requires Steppable(s, t) && PlanStep(s, t, choice).Some?
    requires Uses(s, Apply(s, t, PlanStep(s, t, choice).value), t, e)
    ensures Apply(s, t, PlanStep(s, t, choice).value).pool.slots[e].lastUsed == s.clock
  {
  }

  /** The sweep takes entry e in goroutine t's next step. */
  predicate Sweeps(s: State, s': State, t: nat, e: nat) {
    && t < |s.threads| && s.threads[t].JSweep? && e < |s.pool.slots| <= |s'.pool.slots|
    && s.pool.slots[e].life.Live? && s'.pool.slots[e].life.Dead?
  }

  lemma SweepsIdle(s: State, t: nat, choice: Choice, e: nat)
    requires Steppable(s, t) && PlanStep(s, t, choice).Some?
    requires Sweeps(s, Apply(s, t, PlanStep(s, t, choice).value), t, e)
    ensures s.threads[t].now - s.pool.slots[e].lastUsed >= s.idleTimeout
  {
  }

  lemma UsedAt(states: seq<State>, events: seq<Event>, j: nat, e: nat)
    requires Run(states, events) && j < |events| && events[j].Stepped?
    requires Uses(states[j], states[j + 1], events[j].t, e)
    ensures e < |states[j + 1].pool.slots| && states[j + 1].pool.slots[e].lastUsed == states[j].clock
  {
    NextInRun(states, events, j + 1);
    UseSetsClock(states[j], events[j].t, events[j].choice, e);
  }

  lemma SweptAt(states: seq<State>, events: seq<Event>, n: nat, e: nat)
    requires Run(states, events) && n < |events| && events[n].Stepped?
    requires Sweeps(states[n], states[n + 1], events[n].t, e)
    ensures states[n].threads[events[n].t].now - states[n].pool.slots[e].lastUsed >= states[n].idleTimeout
  {
    NextInRun(states, events, n + 1);
    SweepsIdle(states[n], events[n].t, events[n].choice, e);
  }

  /**
   An entry is swept only when the idle timeout has passed, by the time the sweep began,
   since every checkout that returned it and every successful call on it.
   */
  lemma {:induction false} SweptOnlyWhenIdle(states: seq<State>, events: seq<Event>, j: nat, n: nat, e: nat)
    requires Run(states, events) && j < n < |events| && events[j].Stepped? && events[n].Stepped?
    requires Uses(states[j], states[j + 1], events[j].t, e) && Sweeps(states[n], states[n + 1], events[n].t, e)
    ensures states[n].threads[events[n].t].now - states[j].clock >= states[n].idleTimeout
  {
    UsedAt(states, events, j, e);
    RunUses(states, events, j + 1, n);
    SweptAt(states, events, n, e);
  }
}
