/**
 Which children survive Close.

 Every entry a sweep or Close unmaps is emptied before that goroutine is done with
 it.  An entry that evict unmaps is not: a Dispatch that passed its dead check between
 evict's unlock and evict's mark leaves its child there.
 */
module PoolLeak {

  import opened Options
  import opened PoolSections
  import opened PoolMachine
  import opened PoolInvariant

  /** The entries a sweep or a Close has yet to empty. */
  function Drains(pc: Pc): set<nat> {
    match pc
    case JSweep(_, _, victims) => set e | e in victims
    case CMark(_, all) => all
    case CStop(all) => all
    case CWait(all) => all
    case VNext(_, rest) => set e | e in rest
    case VTake(_, e, rest) => {e} + (set x | x in rest)
    case VUnlock(_, _, rest, _) => set e | e in rest
    case VClose(_, rest, _) => set e | e in rest
    case VClosing(_, rest, _) => set e | e in rest
    case _ => {}
  }

  predicate DrainsAt(s: State, t: nat, e: nat) {
    t < |s.threads| && e in Drains(s.threads[t])
  }

  ghost predicate Draining(s: State, e: nat) {
    exists t: nat :: DrainsAt(s, t, e)
  }

  predicate Collected(life: Life) {
    life == Dead(BySweep) || life == Dead(ByClose)
  }

  predicate ListedRight(s: State, t: nat, e: nat)
    requires t < |s.threads|
  {
    && e < |s.pool.slots|
    && (Collected(s.pool.slots[e].life) || (s.threads[t].CMark? && e in s.threads[t].unmarked))
  }

  /** Past the dead check of entry e, and about to leave a child in it. */
  predicate Filling(s: State, t: nat, e: nat) {
    && t < |s.threads|
    && (s.threads[t].DPassed? || s.threads[t].DSpawning? || s.threads[t].DSpawned?) && s.threads[t].e == e
  }

  /** A collected entry in which a child is, or may still be put. */
  predicate Occupied(s: State, e: nat) {
    && e < |s.pool.slots| && e < |s.locks|
    && Collected(s.pool.slots[e].life)
    && (s.pool.slots[e].client.Some? || (s.locks[e].Some? && Filling(s, s.locks[e].value, e)))
  }

  /** Evicted, or inside some evict's window. */
  ghost predicate Doomed(s: State, e: nat) {
    && e < |s.pool.slots| && e < |s.locks|
    && (s.pool.slots[e].life == Dead(ByEvict) || SomeWindow(s, e))
  }

  /** The child in entry e was spawned past a dead check made inside some window. */
  predicate HeldWindowed(s: State, e: nat)
    requires e < |s.pool.slots|
  {
    s.pool.slots[e].client.Some? ==>
      s.pool.slots[e].client.value < |s.clients| && s.clients[s.pool.slots[e].client.value].windowed
  }

  /** So was the one a goroutine is about to leave there. */
  predicate PcWindowed(s: State, pc: Pc, e: nat)
    requires e < |s.pool.slots|
  {
    && (pc.DPassed? && s.pool.slots[e].client.None? ==> pc.windowed)
    && (pc.DSpawning? ==> pc.windowed)
    && (pc.DSpawned? ==> pc.c < |s.clients| && s.clients[pc.c].windowed)
  }

  predicate OnlyWindowed(s: State, e: nat)
    requires e < |s.pool.slots| && e < |s.locks|
  {
    && HeldWindowed(s, e)
    && (s.locks[e].Some? && Filling(s, s.locks[e].value, e) ==> PcWindowed(s, s.threads[s.locks[e].value], e))
  }

  /** Closed, or in the hands of a goroutine that will close it. */
  predicate OnItsWay(s: State, c: nat)
    requires c < |s.clients|
  {
    var k := s.clients[c];
    k.closed || (k.owner.ByThread? && k.owner.t < |s.threads| && !s.threads[k.owner.t].DSpawned?)
  }

  predicate FateOk(s: State, c: nat)
    requires c < |s.clients|
  {
    && s.clients[c].home < |s.pool.slots|
    && (OnItsWay(s, c) ==> s.clients[c].failed || Collected(s.pool.slots[s.clients[c].home].life))
    && (!OnItsWay(s, c) ==> !s.clients[c].failed)
  }

  ghost predicate LeakInv(s: State) {
    && (forall t: nat, e: nat :: DrainsAt(s, t, e) ==> ListedRight(s, t, e))
    && (forall t: nat :: t < |s.threads| && s.threads[t].CMark? ==> s.threads[t].unmarked <= s.threads[t].all)
    && (forall e: nat :: Occupied(s, e) ==> Draining(s, e))
    && (forall e: nat :: Doomed(s, e) ==> OnlyWindowed(s, e))
    && (forall c: nat :: c < |s.clients| ==> FateOk(s, c))
  }

  lemma InitLeakInv(s: State)
    requires Init(s)
    ensures LeakInv(s)
  {
  }

  // ---- plans ----

  /** How a plan changes the list of entries to empty. */
  predicate DrainPlan(s: State, t: nat, plan: Plan)
    requires t < |s.threads|
  {
    var pc := s.threads[t];
    && (match plan.effect
        case InMu(after) =>
          || (pc.JSweep? && plan.next.JSweep?
              && exists q :: q in s.pool.entries && Drains(plan.next) == Drains(pc) + {s.pool.entries[q]}
                             && s.pool.entries[q] < |s.pool.slots|
                             && after == KillSlot(s.pool, s.pool.entries[q], BySweep).(entries := after.entries))
          || (pc.CEnter? && plan.next.CMark? && Drains(plan.next) == s.pool.entries.Values == plan.next.unmarked
              && after.slots == s.pool.slots)
          || (pc.CMark? && plan.next.CMark? && Drains(plan.next) == Drains(pc)
              && exists e :: e in pc.unmarked && e < |s.pool.slots| && plan.next.unmarked == pc.unmarked - {e}
                             && after == KillSlot(s.pool, e, ByClose))
        case TakeClient(e, failed) =>
          Drains(plan.next) <= Drains(pc) <= Drains(plan.next) + {e}
          && (!failed ==> e in Drains(pc))
        case _ => Drains(plan.next) == Drains(pc))
    && (plan.next.CMark? ==> plan.effect.InMu? || (pc.CMark? && plan.next.unmarked == pc.unmarked))
    && (pc.CMark? && !plan.next.CMark? ==> pc.unmarked == {})
  }

  lemma DispatchDrainPlan(s: State, t: nat, choice: Choice)
    requires Steppable(s, t) && PlanDispatch(s, t, choice).Some?
    ensures DrainPlan(s, t, PlanDispatch(s, t, choice).value)
  {
  }

  lemma LockedDrainPlan(s: State, t: nat, choice: Choice)
    requires Steppable(s, t) && PlanLocked(s, t, choice).Some?
    ensures DrainPlan(s, t, PlanLocked(s, t, choice).value)
  {
  }

  lemma JanitorDrainPlan(s: State, t: nat, choice: Choice)
    requires Steppable(s, t) && PlanJanitor(s, t, choice).Some?
    ensures DrainPlan(s, t, PlanJanitor(s, t, choice).value)
  {
  }

  lemma CloseDrainPlan(s: State, t: nat, choice: Choice)
    requires Steppable(s, t) && PlanClose(s, t, choice).Some?
    ensures DrainPlan(s, t, PlanClose(s, t, choice).value)
  {
  }

  lemma DrainDrainPlan(s: State, t: nat, choice: Choice)
    requires Steppable(s, t) && PlanDrain(s, t, choice).Some?
    ensures DrainPlan(s, t, PlanDrain(s, t, choice).value)
  {
  }

  /** How a plan comes to leave a child in an entry, to open a window, or to evict. */
  predicate FillPlan(s: State, t: nat, plan: Plan)
    requires t < |s.threads|
  {
    var pc := s.threads[t];
    && (match plan.next
        case DPassed(_, e, windowed) =>
          pc.DCheckDead? && pc.e == e && plan.effect.Nothing? && e < |s.pool.slots| && s.pool.slots[e].life.Live?
          && windowed == SomeWindow(s, e)
        case DSpawning(_, e, windowed) =>
          pc.DPassed? && pc.e == e && pc.windowed == windowed && plan.effect.Nothing? && e < |s.pool.slots|
          && s.pool.slots[e].client.None?
        case DSpawned(_, e, c) =>
          pc.DSpawning? && pc.e == e && c == |s.clients| && plan.effect == NewClient(e, pc.windowed)
        case DWantMuEvict(_, e, _) => pc.DUnlockErr? && pc.e == e && plan.effect == UnlockEntry(e)
        case DEvict(_, e, _) => pc.DWantMuEvict? && pc.e == e && plan.effect.LockMu?
        case _ => !plan.effect.NewClient?)
    && (pc.DSpawned? ==> plan.effect.PutClient?)
    && (match plan.effect
        case PutClient(e, c) => pc.DSpawned? && pc.e == e && pc.c == c && plan.next.DReady?
        case UnlockMu(after) =>
          |s.pool.slots| <= |after.slots|
          && (forall e: nat {:trigger after.slots[e]} :: e < |s.pool.slots| ==>
               || after.slots[e].life == s.pool.slots[e].life
               || (pc.DEvict? && pc.e == e && after.slots[e].life == Dead(ByEvict)))
        case _ => true)
  }

  lemma DispatchFillPlan(s: State, t: nat, choice: Choice)
    requires Steppable(s, t) && PlanDispatch(s, t, choice).Some?
    ensures FillPlan(s, t, PlanDispatch(s, t, choice).value)
  {
  }

  lemma LockedFillPlan(s: State, t: nat, choice: Choice)
    requires Steppable(s, t) && PlanLocked(s, t, choice).Some?
    ensures FillPlan(s, t, PlanLocked(s, t, choice).value)
  {
  }

  lemma JanitorFillPlan(s: State, t: nat, choice: Choice)
    requires Steppable(s, t) && PlanJanitor(s, t, choice).Some?
    ensures FillPlan(s, t, PlanJanitor(s, t, choice).value)
  {
  }

  lemma CloseFillPlan(s: State, t: nat, choice: Choice)
    requires Steppable(s, t) && PlanClose(s, t, choice).Some?
    ensures FillPlan(s, t, PlanClose(s, t, choice).value)
  {
  }

  lemma DrainFillPlan(s: State, t: nat, choice: Choice)
    requires Steppable(s, t) && PlanDrain(s, t, choice).Some?
    ensures FillPlan(s, t, PlanDrain(s, t, choice).value)
  {
  }

  predicate FatePlan(s: State, t: nat, plan: Plan)
    requires t < |s.threads|
  {
    PlanOk(s, t, plan) && DrainPlan(s, t, plan) && FillPlan(s, t, plan)
  }

  lemma StepFate(s: State, t: nat, choice: Choice)
    requires Inv(s) && t < |s.threads|
    ensures Steppable(s, t)
    ensures PlanStep(s, t, choice).Some? ==> FatePlan(s, t, PlanStep(s, t, choice).value)
  {
    StepFacts(s, t, choice);
    if PlanDispatch(s, t, choice).Some? { DispatchDrainPlan(s, t, choice); DispatchFillPlan(s, t, choice); }
    if PlanLocked(s, t, choice).Some? { LockedDrainPlan(s, t, choice); LockedFillPlan(s, t, choice); }
    if PlanJanitor(s, t, choice).Some? { JanitorDrainPlan(s, t, choice); JanitorFillPlan(s, t, choice); }
    if PlanClose(s, t, choice).Some? { CloseDrainPlan(s, t, choice); CloseFillPlan(s, t, choice); }
    if PlanDrain(s, t, choice).Some? { DrainDrainPlan(s, t, choice); DrainFillPlan(s, t, choice); }
  }

  // ---- steps keep the fates ----

  /** What goroutine t's step did to the life of entry e, when it changed it. */
  predicate Evicted(s: State, t: nat, plan: Plan, e: nat)
    requires t < |s.threads|
  {
    plan.effect.UnlockMu? && s.threads[t].DEvict? && s.threads[t].e == e
  }

  predicate Collects(s: State, t: nat, plan: Plan, e: nat)
    requires t < |s.threads|
  {
    && plan.effect.InMu? && e in Drains(plan.next)
    && (plan.next.CMark? ==> s.threads[t].CMark? && e !in plan.next.unmarked)
  }

  lemma LifeFrame(s: State, t: nat, plan: Plan, e: nat)
    requires t < |s.threads| && FatePlan(s, t, plan) && e < |s.pool.slots|
    requires s.threads[t].CMark? ==> s.threads[t].unmarked <= s.threads[t].all
    ensures e < |Apply(s, t, plan).pool.slots|
    ensures var life, life' := s.pool.slots[e].life, Apply(s, t, plan).pool.slots[e].life;
            life' != life ==>
              && life.Live?
              && ((Evicted(s, t, plan, e) && life' == Dead(ByEvict)) || (Collects(s, t, plan, e) && Collected(life')))
  {
    SlotFrame(s, t, plan, e);
  }

  lemma KeepsLists(s: State, t: nat, plan: Plan, u: nat, e: nat)
    requires Inv(s) && LeakInv(s) && t < |s.threads| && FatePlan(s, t, plan)
    requires DrainsAt(Apply(s, t, plan), u, e)
    ensures ListedRight(Apply(s, t, plan), u, e)
  {
    var s' := Apply(s, t, plan);
    if u != t || e in Drains(s.threads[t]) {
      assert DrainsAt(s, u, e);
      assert ListedRight(s, u, e);
      LifeFrame(s, t, plan, e);
      assert InsideMu(s, t) <==> s.mu == Some(t);
      if u == t && s.threads[t].CMark? && e in s.threads[t].unmarked {
        assert e in Unmarked(s);
        assert Alive(s.pool, e);
      }
    } else {
      NewListed(s, t, plan, e);
    }
  }

  /** Only a swept entry or a captured one joins a list. */
  lemma NewListed(s: State, t: nat, plan: Plan, e: nat)
    requires Inv(s) && t < |s.threads| && FatePlan(s, t, plan)
    requires e in Drains(plan.next) && e !in Drains(s.threads[t])
    ensures ListedRight(Apply(s, t, plan), t, e)
  {
    assert plan.effect.InMu?;
    if s.threads[t].JSweep? {
      var q :| q in s.pool.entries && Drains(plan.next) == Drains(s.threads[t]) + {s.pool.entries[q]}
               && s.pool.entries[q] < |s.pool.slots|
               && plan.effect.after
                  == KillSlot(s.pool, s.pool.entries[q], BySweep).(entries := plan.effect.after.entries);
      assert Filed(s.pool, q);
      assert Mapped(s.pool, e);
      assert Alive(s.pool, e);
    } else {
      assert e in s.pool.entries.Values;
      var q :| q in s.pool.entries && s.pool.entries[q] == e;
      assert Filed(s.pool, q);
    }
  }

  /** A collected entry that holds a child, or is about to, is still on somebody's list. */
  lemma KeepsOccupied(s: State, t: nat, plan: Plan, e: nat)
    requires Inv(s) && LeakInv(s) && t < |s.threads| && FatePlan(s, t, plan)
    requires Occupied(Apply(s, t, plan), e)
    ensures Draining(Apply(s, t, plan), e)
  {
    var s' := Apply(s, t, plan);
    if e < |s.pool.slots| {
      LifeFrame(s, t, plan, e);
      if Collected(s.pool.slots[e].life) {
        assert Inside(s, t, e) <==> LockedBy(s, e, t);
        if s.pool.slots[e].client.Some? {
          assert EntryHas(s, e, s.pool.slots[e].client.value) <==> OwnedBy(s, s.pool.slots[e].client.value, ByEntry(e));
        }
        StaysOccupied(s, t, plan, e);
        var u: nat :| DrainsAt(s, u, e);
        StaysListed(s, t, plan, u, e);
      } else {
        assert DrainsAt(s', t, e);
      }
    }
  }

  lemma StaysOccupied(s: State, t: nat, plan: Plan, e: nat)
    requires t < |s.threads| && PlanOk(s, t, plan) && FillPlan(s, t, plan)
    requires e < |s.pool.slots| == |s.locks| && Collected(s.pool.slots[e].life) && Occupied(Apply(s, t, plan), e)
    requires LockOf(s.threads[t]) == Some(e) <==> s.locks[e] == Some(t)
    requires s.pool.slots[e].client.Some? ==> s.pool.slots[e].client.value < |s.clients|
    ensures Occupied(s, e)
    ensures !(plan.effect.TakeClient? && plan.effect.e == e)
  {
    var s' := Apply(s, t, plan);
    SlotFrame(s, t, plan, e);
    if s'.pool.slots[e].client.Some? {
      StaysHeld(s, t, plan, e);
    } else {
      StaysFilling(s, t, plan, e);
    }
  }

  lemma StaysHeld(s: State, t: nat, plan: Plan, e: nat)
    requires t < |s.threads| && PlanOk(s, t, plan) && FillPlan(s, t, plan)
    requires e < |s.pool.slots| <= |Apply(s, t, plan).pool.slots| && |s.locks| == |s.pool.slots|
    requires Apply(s, t, plan).pool.slots[e].client.Some?
    requires LockOf(s.threads[t]) == Some(e) <==> s.locks[e] == Some(t)
    requires s.pool.slots[e].client.Some? ==> s.pool.slots[e].client.value < |s.clients|
    ensures s.pool.slots[e].client.Some? || (s.locks[e].Some? && Filling(s, s.locks[e].value, e))
    ensures !(plan.effect.TakeClient? && plan.effect.e == e)
  {
    SlotFrame(s, t, plan, e);
  }

  lemma StaysFilling(s: State, t: nat, plan: Plan, e: nat)
    requires t < |s.threads| && LockPlan(s, t, plan) && FillPlan(s, t, plan) && OwnerPlan(s, t, plan)
    requires e < |s.locks| == |s.pool.slots| && s.pool.slots[e].life.Dead?
    requires e < |Apply(s, t, plan).locks|
    requires var s' := Apply(s, t, plan); s'.locks[e].Some? && Filling(s', s'.locks[e].value, e)
    requires LockOf(s.threads[t]) == Some(e) <==> s.locks[e] == Some(t)
    ensures s.locks[e].Some? && Filling(s, s.locks[e].value, e)
    ensures !(plan.effect.TakeClient? && plan.effect.e == e)
  {
  }

  lemma StaysListed(s: State, t: nat, plan: Plan, u: nat, e: nat)
    requires t < |s.threads| && DrainPlan(s, t, plan) && DrainsAt(s, u, e)
    requires !(plan.effect.TakeClient? && plan.effect.e == e)
    ensures DrainsAt(Apply(s, t, plan), u, e)
  {
  }

  /** In an evicted entry, or one inside a window, only windowed children can be. */
  lemma KeepsDoomed(s: State, t: nat, plan: Plan, e: nat)
    requires Inv(s) && LeakInv(s) && t < |s.threads| && FatePlan(s, t, plan)
    requires Doomed(Apply(s, t, plan), e)
    ensures OnlyWindowed(Apply(s, t, plan), e)
  {
    var s' := Apply(s, t, plan);
    if e < |s.pool.slots| {
      assert Inside(s, t, e) <==> LockedBy(s, e, t);
      LifeFrame(s, t, plan, e);
      if Doomed(s, e) {
        if s.locks[e].Some? { assert Inside(s, s.locks[e].value, e) <==> LockedBy(s, e, s.locks[e].value); }
        StaysWindowed(s, t, plan, e);
      } else {
        assert Phase(s, s.threads[t]);
        NewWindow(s, t, plan, e);
      }
    }
  }

  /** A window opens on an entry that is empty and unlocked. */
  lemma NewWindow(s: State, t: nat, plan: Plan, e: nat)
    requires t < |s.threads| && PlanOk(s, t, plan) && FillPlan(s, t, plan) && Phase(s, s.threads[t])
    requires e < |s.pool.slots| == |s.locks| && !SomeWindow(s, e) && s.pool.slots[e].life != Dead(ByEvict)
    requires e < |Apply(s, t, plan).pool.slots| && Doomed(Apply(s, t, plan), e)
    requires Apply(s, t, plan).pool.slots[e].life == Dead(ByEvict) ==> Evicted(s, t, plan, e)
    ensures OnlyWindowed(Apply(s, t, plan), e)
  {
    var s' := Apply(s, t, plan);
    assert !InWindow(s.threads[t], e);
    SlotFrame(s, t, plan, e);
    var u :| 0 <= u < |s'.threads| && InWindow(s'.threads[u], e);
    assert u == t;
  }

  lemma WindowedFrame(s: State, t: nat, plan: Plan, c: nat)
    requires c < |s.clients|
    ensures c < |Apply(s, t, plan).clients| && Apply(s, t, plan).clients[c].windowed == s.clients[c].windowed
  {
  }

  lemma StaysHeldWindowed(s: State, t: nat, plan: Plan, e: nat)
    requires t < |s.threads| && PlanOk(s, t, plan) && FillPlan(s, t, plan)
    requires e < |s.pool.slots| && e < |Apply(s, t, plan).pool.slots|
    requires HeldWindowed(s, e) && (LockOf(s.threads[t]) == Some(e) ==> PcWindowed(s, s.threads[t], e))
    ensures HeldWindowed(Apply(s, t, plan), e)
  {
    SlotFrame(s, t, plan, e);
    var client := Apply(s, t, plan).pool.slots[e].client;
    if client.Some? && client.value < |s.clients| { WindowedFrame(s, t, plan, client.value); }
  }

  lemma StaysPcWindowed(s: State, t: nat, plan: Plan, e: nat)
    requires t < |s.threads| && OwnerPlan(s, t, plan) && FillPlan(s, t, plan)
    requires e < |s.pool.slots| && e < |Apply(s, t, plan).pool.slots| && Doomed(s, e)
    requires PcWindowed(s, s.threads[t], e)
    requires plan.next.DPassed? || plan.next.DSpawning? || plan.next.DSpawned? ==> plan.next.e == e
    ensures PcWindowed(Apply(s, t, plan), plan.next, e)
  {
  }

  lemma OtherPcWindowed(s: State, t: nat, plan: Plan, e: nat, pc: Pc)
    requires t < |s.threads| && PlanOk(s, t, plan) && LockOf(s.threads[t]) != Some(e)
    requires e < |s.pool.slots| && e < |Apply(s, t, plan).pool.slots| && PcWindowed(s, pc, e)
    ensures PcWindowed(Apply(s, t, plan), pc, e)
  {
    SlotFrame(s, t, plan, e);
    if pc.DSpawned? { WindowedFrame(s, t, plan, pc.c); }
  }

  /** Goroutine t, inside the doomed entry after its step, still only leaves a windowed child there. */
  lemma StaysOwnWindowed(s: State, t: nat, plan: Plan, e: nat)
    requires t < |s.threads| && LockPlan(s, t, plan) && OwnerPlan(s, t, plan) && FillPlan(s, t, plan)
    requires e < |s.pool.slots| == |s.locks| && e < |Apply(s, t, plan).pool.slots| && Doomed(s, e)
    requires LockOf(s.threads[t]) == Some(e) ==> PcWindowed(s, s.threads[t], e)
    requires (plan.next.DPassed? || plan.next.DSpawning? || plan.next.DSpawned?) && plan.next.e == e
    ensures PcWindowed(Apply(s, t, plan), plan.next, e)
  {
    assert LockOf(plan.next) == Some(e);
    StaysPcWindowed(s, t, plan, e);
  }

  /** Another goroutine inside the entry after t's step was inside it before. */
  lemma OtherHolder(s: State, t: nat, plan: Plan, e: nat)
    requires t < |s.threads| && LockPlan(s, t, plan) && e < |s.locks| && e < |Apply(s, t, plan).locks|
    requires LockOf(s.threads[t]) == Some(e) <==> s.locks[e] == Some(t)
    requires Apply(s, t, plan).locks[e].Some? && Apply(s, t, plan).locks[e] != Some(t)
    ensures s.locks[e] == Apply(s, t, plan).locks[e] && LockOf(s.threads[t]) != Some(e)
  {
  }

  lemma StaysWindowed(s: State, t: nat, plan: Plan, e: nat)
    requires t < |s.threads| && PlanOk(s, t, plan) && FillPlan(s, t, plan)
    requires e < |s.pool.slots| == |s.locks| && e < |Apply(s, t, plan).pool.slots| && e < |Apply(s, t, plan).locks|
    requires Doomed(s, e) && OnlyWindowed(s, e)
    requires LockOf(s.threads[t]) == Some(e) <==> s.locks[e] == Some(t)
    requires s.locks[e].Some? ==> s.locks[e].value < |s.threads|
    ensures OnlyWindowed(Apply(s, t, plan), e)
  {
    var s' := Apply(s, t, plan);
    InsideWindowed(s, t, e);
    StaysHeldWindowed(s, t, plan, e);
    if s'.locks[e].Some? && Filling(s', s'.locks[e].value, e) {
      var u := s'.locks[e].value;
      if u == t {
        StaysOwnWindowed(s, t, plan, e);
      } else {
        OtherHolder(s, t, plan, e);
        OtherPcWindowed(s, t, plan, e, s.threads[u]);
      }
    }
  }

  lemma InsideWindowed(s: State, t: nat, e: nat)
    requires t < |s.threads| && e < |s.pool.slots| == |s.locks| && OnlyWindowed(s, e)
    requires LockOf(s.threads[t]) == Some(e) <==> s.locks[e] == Some(t)
    ensures LockOf(s.threads[t]) == Some(e) ==> PcWindowed(s, s.threads[t], e)
  {
  }

  /** A child is on its way out exactly when its call failed or its entry was collected. */
  lemma KeepsFate(s: State, t: nat, plan: Plan, c: nat)
    requires Inv(s) && LeakInv(s) && t < |s.threads| && FatePlan(s, t, plan) && c < |s.clients|
    ensures c < |Apply(s, t, plan).clients| && FateOk(Apply(s, t, plan), c)
  {
    assert FateOk(s, c);
    assert CountsOk(s, c);
    LifeFrame(s, t, plan, s.clients[c].home);
    assert ThreadHas(s, t, c) <==> OwnedBy(s, c, ByThread(t));
    if plan.effect.TakeClient? && EntryHas(s, plan.effect.e, c) {
      var e := plan.effect.e;
      assert EntryHas(s, e, c) <==> OwnedBy(s, c, ByEntry(e));
      if !plan.effect.failed {
        assert DrainsAt(s, t, e);
        assert ListedRight(s, t, e);
      }
    }
    StaysFate(s, t, plan, c);
  }

  lemma StaysFate(s: State, t: nat, plan: Plan, c: nat)
    requires t < |s.threads| && c < |s.clients| && OwnerPlan(s, t, plan) && FillPlan(s, t, plan) && FateOk(s, c)
    requires s.clients[c].home < |Apply(s, t, plan).pool.slots|
    requires Collected(s.pool.slots[s.clients[c].home].life) ==>
             Collected(Apply(s, t, plan).pool.slots[s.clients[c].home].life)
    requires ClientOf(s.threads[t]) == Some(c) <==> s.clients[c].owner == ByThread(t)
    requires plan.effect.TakeClient? && EntryHas(s, plan.effect.e, c) ==>
               s.clients[c].owner == ByEntry(plan.effect.e)
               && (plan.effect.failed || Collected(s.pool.slots[s.clients[c].home].life))
    ensures c < |Apply(s, t, plan).clients| && FateOk(Apply(s, t, plan), c)
  {
    if plan.effect.TakeClient? { TakenFate(s, t, plan, c); } else { UntakenFate(s, t, plan, c); }
  }

  lemma TakenFate(s: State, t: nat, plan: Plan, c: nat)
    requires t < |s.threads| && c < |s.clients| && OwnerPlan(s, t, plan) && plan.effect.TakeClient? && FateOk(s, c)
    requires ClientOf(s.threads[t]) == Some(c) <==> s.clients[c].owner == ByThread(t)
    requires EntryHas(s, plan.effect.e, c) ==>
               s.clients[c].owner == ByEntry(plan.effect.e)
               && (plan.effect.failed || Collected(s.pool.slots[s.clients[c].home].life))
    ensures c < |Apply(s, t, plan).clients| && FateOk(Apply(s, t, plan), c)
  {
  }

  lemma UntakenFate(s: State, t: nat, plan: Plan, c: nat)
    requires t < |s.threads| && c < |s.clients| && OwnerPlan(s, t, plan) && FillPlan(s, t, plan) && FateOk(s, c)
    requires !plan.effect.TakeClient?
    requires s.clients[c].home < |Apply(s, t, plan).pool.slots|
    requires Collected(s.pool.slots[s.clients[c].home].life) ==>
             Collected(Apply(s, t, plan).pool.slots[s.clients[c].home].life)
    requires ClientOf(s.threads[t]) == Some(c) <==> s.clients[c].owner == ByThread(t)
    ensures c < |Apply(s, t, plan).clients| && FateOk(Apply(s, t, plan), c)
  {
    if ClientOf(s.threads[t]) == Some(c) { OwnFate(s, t, plan, c); } else { FarFate(s, t, plan, c); }
  }

  lemma OwnFate(s: State, t: nat, plan: Plan, c: nat)
    requires t < |s.threads| && c < |s.clients| && OwnerPlan(s, t, plan) && FillPlan(s, t, plan)
    requires !plan.effect.TakeClient? && ClientOf(s.threads[t]) == Some(c) && s.clients[c].owner == ByThread(t)
    ensures var s' := Apply(s, t, plan);
            && c < |s'.clients| && s'.clients[c].failed == s.clients[c].failed
            && s'.clients[c].home == s.clients[c].home
            && OnItsWay(s', c) == OnItsWay(s, c)
  {
  }

  lemma FarFate(s: State, t: nat, plan: Plan, c: nat)
    requires t < |s.threads| && c < |s.clients| && OwnerPlan(s, t, plan)
    requires !plan.effect.TakeClient? && ClientOf(s.threads[t]) != Some(c) && s.clients[c].owner != ByThread(t)
    ensures var s' := Apply(s, t, plan);
            && c < |s'.clients| && s'.clients[c].failed == s.clients[c].failed
            && s'.clients[c].home == s.clients[c].home
            && OnItsWay(s', c) == OnItsWay(s, c)
  {
  }

  lemma NewFate(s: State, t: nat, plan: Plan)
    requires Inv(s) && t < |s.threads| && FatePlan(s, t, plan) && |Apply(s, t, plan).clients| > |s.clients|
    ensures |Apply(s, t, plan).clients| == |s.clients| + 1 && FateOk(Apply(s, t, plan), |s.clients|)
  {
  }

  lemma StepKeepsLeakInv(s: State, t: nat, choice: Choice)
    requires Inv(s) && LeakInv(s) && Steppable(s, t) && PlanStep(s, t, choice).Some?
    ensures LeakInv(Apply(s, t, PlanStep(s, t, choice).value))
  {
    StepFate(s, t, choice);
    var plan := PlanStep(s, t, choice).value;
    var s' := Apply(s, t, plan);
    forall u: nat, e: nat | DrainsAt(s', u, e) ensures ListedRight(s', u, e) { KeepsLists(s, t, plan, u, e); }
    forall e: nat | Occupied(s', e) ensures Draining(s', e) { KeepsOccupied(s, t, plan, e); }
    forall e: nat | Doomed(s', e) ensures OnlyWindowed(s', e) { KeepsDoomed(s, t, plan, e); }
    forall c: nat | c < |s'.clients| ensures FateOk(s', c) {
      if c < |s.clients| { KeepsFate(s, t, plan, c); } else { NewFate(s, t, plan); }
    }
    KeepsUnmarked(s, t, plan);
  }

  lemma KeepsUnmarked(s: State, t: nat, plan: Plan)
    requires LeakInv(s) && t < |s.threads| && DrainPlan(s, t, plan) && OwnerPlan(s, t, plan)
    ensures forall u: nat :: u < |s.threads| && Apply(s, t, plan).threads[u].CMark? ==>
              Apply(s, t, plan).threads[u].unmarked <= Apply(s, t, plan).threads[u].all
  {
    var pc := s.threads[t];
    assert pc.CMark? ==> pc.unmarked <= pc.all;
    assert plan.next.CMark? ==> plan.next.unmarked <= plan.next.all;
  }

  /** A call arrives, or time passes. */
  lemma OutsideKeepsLeakInv(s: State, s': State)
    requires Inv(s) && LeakInv(s) && s' == s.(clock := s'.clock, threads := s'.threads)
    requires |s.threads| <= |s'.threads| && s'.threads[..|s.threads|] == s.threads
    requires forall u :: |s.threads| <= u < |s'.threads| ==> s'.threads[u].DWantMu? || s'.threads[u].CWantMu?
    ensures LeakInv(s')
  {
    assert forall u :: 0 <= u < |s.threads| ==> s'.threads[u] == s.threads[u];
    forall u: nat, e: nat | DrainsAt(s', u, e) ensures ListedRight(s', u, e) { assert DrainsAt(s, u, e); }
    forall e: nat | Occupied(s', e) ensures Draining(s', e) {
      if s.locks[e].Some? { assert Inside(s, s.locks[e].value, e) <==> LockedBy(s, e, s.locks[e].value); }
      assert Occupied(s, e);
      var u: nat :| DrainsAt(s, u, e);
      assert DrainsAt(s', u, e);
    }
    forall e: nat | Doomed(s', e) ensures OnlyWindowed(s', e) {
      if s.locks[e].Some? { assert Inside(s, s.locks[e].value, e) <==> LockedBy(s, e, s.locks[e].value); }
      assert Doomed(s, e);
    }
    forall c: nat | c < |s'.clients| ensures FateOk(s', c) {
      assert FateOk(s, c);
      if s.clients[c].owner.ByThread? {
        assert ThreadHas(s, s.clients[c].owner.t, c) <==> OwnedBy(s, c, s.clients[c].owner);
      }
    }
  }

  lemma NextKeepsLeakInv(s: State, s': State, ev: Event)
    requires Inv(s) && LeakInv(s) && Next(s, s', ev)
    ensures LeakInv(s')
  {
    match ev {
      case Stepped(t, choice) => StepKeepsLeakInv(s, t, choice);
      case _ => OutsideKeepsLeakInv(s, s');
    }
  }

  lemma {:induction false} RunKeepsLeakInv(states: seq<State>, events: seq<Event>, n: nat)
    requires Run(states, events) && n <= |events|
    ensures Inv(states[n]) && LeakInv(states[n])
  {
    RunKeepsInv(states, events, n);
    if n == 0 {
      InitLeakInv(states[0]);
    } else {
      RunKeepsLeakInv(states, events, n - 1);
      assert Next(states[n - 1], states[n], events[n - 1]);
      NextKeepsLeakInv(states[n - 1], states[n], events[n - 1]);
    }
  }
}
