/** What every step of the pool keeps: locks, the map, and who can reach each client. */
module PoolInvariant {

  import opened Options
  import opened Quarters
  import opened PoolSections
  import opened PoolMachine

  // ---- mutexes ----

  predicate Inside(s: State, t: nat, e: nat) {
    t < |s.threads| && LockOf(s.threads[t]) == Some(e)
  }

  predicate LockedBy(s: State, e: nat, t: nat) {
    e < |s.locks| && s.locks[e] == Some(t)
  }

  /** An entry's mutex is held by exactly the goroutine that is inside it. */
  ghost predicate LocksMatch(s: State) {
    && |s.locks| == |s.pool.slots|
    && (forall t: nat, e: nat :: Inside(s, t, e) <==> LockedBy(s, e, t))
  }

  predicate InsideMu(s: State, t: nat) {
    t < |s.threads| && HoldsMu(s.threads[t])
  }

  ghost predicate MuMatches(s: State) {
    forall t: nat :: InsideMu(s, t) <==> s.mu == Some(t)
  }

  // ---- the map ----

  predicate Mapped(p: Pool, e: nat) {
    e < |p.slots| && p.slots[e].quarter in p.entries && p.entries[p.slots[e].quarter] == e
  }

  predicate Alive(p: Pool, e: nat) {
    e < |p.slots| && p.slots[e].life.Live?
  }

  predicate Filed(p: Pool, q: Quarter)
    requires q in p.entries
  {
    p.entries[q] < |p.slots| && p.slots[p.entries[q]].quarter == q
  }

  /** The entries Close has unmapped and has yet to mark dead, while it holds `mu`. */
  function Unmarked(s: State): set<nat> {
    if s.mu.Some? && s.mu.value < |s.threads| && s.threads[s.mu.value].CMark?
    then s.threads[s.mu.value].unmarked
    else {}
  }

  ghost predicate MapOk(p: Pool, unmarked: set<nat>) {
    && (forall q :: q in p.entries ==> Filed(p, q))
    && (forall e: nat :: Alive(p, e) <==> Mapped(p, e) || e in unmarked)
    && (p.closed ==> p.entries == map[])
  }

  // ---- clients ----

  predicate EntryHas(s: State, e: nat, c: nat) {
    e < |s.pool.slots| && s.pool.slots[e].client == Some(c)
  }

  predicate ThreadHas(s: State, t: nat, c: nat) {
    t < |s.threads| && ClientOf(s.threads[t]) == Some(c)
  }

  predicate OwnedBy(s: State, c: nat, o: Owner) {
    c < |s.clients| && s.clients[c].owner == o
  }

  ghost predicate OwnersMatch(s: State) {
    && (forall e: nat, c: nat :: EntryHas(s, e, c) <==> OwnedBy(s, c, ByEntry(e)))
    && (forall t: nat, c: nat :: ThreadHas(s, t, c) <==> OwnedBy(s, c, ByThread(t)))
    && (forall c: nat :: OwnedBy(s, c, Nobody) <==> c < |s.clients| && s.clients[c].closed)
  }

  predicate Calling(s: State, t: nat, c: nat) {
    t < |s.threads| && s.threads[t].DCalling? && s.threads[t].c == c
  }

  predicate Closing(s: State, t: nat) {
    t < |s.threads| && (s.threads[t].DClosing? || s.threads[t].VClosing?)
  }

  predicate CountsOk(s: State, c: nat)
    requires c < |s.clients|
  {
    var k := s.clients[c];
    && k.home < |s.locks|
    && k.inFlight <= 1
    && (k.inFlight == 1 ==> EntryHas(s, k.home, c) && s.locks[k.home].Some? && Calling(s, s.locks[k.home].value, c))
    && (k.owner.ByEntry? ==> k.owner.e == k.home)
    && k.closeCalls == (if k.closed || (k.owner.ByThread? && Closing(s, k.owner.t)) then 1 else 0)
  }

  ghost predicate CountsMatch(s: State) {
    forall c: nat :: c < |s.clients| ==> CountsOk(s, c)
  }

  // ---- what a goroutine knows at its program point ----

  predicate DispatchAt(pc: Pc) {
    || pc.DWantLock? || pc.DCheckDead? || pc.DRetry? || pc.DPassed? || pc.DSpawning? || pc.DSpawned? || pc.DReady?
    || pc.DCalling? || pc.DUnlockOk? || pc.DWantMuUsed? || pc.DMarkUsed? || pc.DUnlockErr? || pc.DWantMuEvict?
    || pc.DEvict?
  }

  /** A Dispatch handles the entry of the quarter it wants; a sweep visits mapped quarters. */
  predicate Knows(s: State, pc: Pc) {
    && (DispatchAt(pc) ==> pc.e < |s.pool.slots| && s.pool.slots[pc.e].quarter == pc.want)
    && (pc.JSweep? ==> pc.unvisited <= s.pool.entries.Keys)
    && (pc.CMark? ==> s.pool.closed)
    && (pc.CWait? ==> s.stopped)
  }

  /** What holds of the entry's client while its mutex is held. */
  predicate Phase(s: State, pc: Pc) {
    && ((pc.DSpawning? || pc.DSpawned? || pc.DUnlockErr? || pc.VUnlock?) ==>
          pc.e < |s.pool.slots| && s.pool.slots[pc.e].client == None)
    && (pc.DReady? ==> pc.e < |s.pool.slots| && s.pool.slots[pc.e].client.Some?)
    && (pc.DSpawned? ==> pc.c < |s.clients| && s.clients[pc.c].home == pc.e)
    && (pc.DCalling? ==> EntryHas(s, pc.e, pc.c) && pc.c < |s.clients| && s.clients[pc.c].inFlight == 1)
  }

  predicate JanitorPc(pc: Pc) {
    || pc.JIdle? || pc.JWantMu? || pc.JSweep? || pc.JDone?
    || ((pc.VNext? || pc.VTake? || pc.VUnlock? || pc.VClose? || pc.VClosing?) && pc.who.Janitor?)
  }

  ghost predicate PlacesMatch(s: State) {
    && |s.threads| > 0
    && (forall t: nat :: t < |s.threads| ==> Knows(s, s.threads[t]) && Phase(s, s.threads[t]))
    && (forall t: nat :: t < |s.threads| ==> (t == 0 <==> JanitorPc(s.threads[t])))
  }

  ghost predicate Inv(s: State) {
    && LocksMatch(s) && MuMatches(s) && MapOk(s.pool, Unmarked(s))
    && OwnersMatch(s) && CountsMatch(s) && PlacesMatch(s)
  }

  lemma InitInv(s: State)
    requires Init(s)
    ensures Inv(s)
  {
  }

  lemma InvSteppable(s: State, t: nat)
    requires Inv(s) && t < |s.threads|
    ensures Steppable(s, t)
  {
    var pc := s.threads[t];
    if LockOf(pc).Some? { assert Inside(s, t, LockOf(pc).value) <==> LockedBy(s, LockOf(pc).value, t); }
    if ClientOf(pc).Some? {
      assert ThreadHas(s, t, ClientOf(pc).value) <==> OwnedBy(s, ClientOf(pc).value, ByThread(t));
    }
    if pc.DCalling? { assert EntryHas(s, pc.e, pc.c) <==> OwnedBy(s, pc.c, ByEntry(pc.e)); }
    if pc.CMark? {
      assert InsideMu(s, t) <==> s.mu == Some(t);
      forall e | e in pc.unmarked ensures e < |s.pool.slots| {
        assert e in Unmarked(s);
        assert Alive(s.pool, e);
      }
    }
    forall q | q in s.pool.entries ensures s.pool.entries[q] < |s.pool.slots| {
      assert Filed(s.pool, q);
    }
  }

  // ---- plans, one program point at a time ----

  /** How a plan moves the mutexes. */
  predicate LockPlan(s: State, t: nat, plan: Plan)
    requires t < |s.threads|
  {
    var pc := s.threads[t];
    && (match plan.effect
        case LockEntry(e) => e < |s.locks| && s.locks[e].None? && LockOf(pc).None? && LockOf(plan.next) == Some(e)
        case UnlockEntry(e) => LockOf(pc) == Some(e) && LockOf(plan.next).None?
        case _ => LockOf(plan.next) == LockOf(pc))
    && (match plan.effect
        case LockMu => s.mu.None? && !HoldsMu(pc) && HoldsMu(plan.next) && !plan.next.CMark?
        case UnlockMu(_) => HoldsMu(pc) && !HoldsMu(plan.next)
        case InMu(_) => HoldsMu(pc) && HoldsMu(plan.next)
        case _ => HoldsMu(pc) == HoldsMu(plan.next) && !pc.CMark? && !plan.next.CMark?)
  }

  /** What every section's writes leave alone. */
  predicate SlotKept(p: Pool, p': Pool, e: nat)
    requires e < |p.slots| <= |p'.slots|
  {
    && p'.slots[e].quarter == p.slots[e].quarter && p'.slots[e].client == p.slots[e].client
    && (p.slots[e].life.Dead? ==> p'.slots[e].life == p.slots[e].life)
  }

  predicate PoolKept(p: Pool, p': Pool) {
    && |p.slots| <= |p'.slots| <= |p.slots| + 1
    && (forall e: nat :: e < |p.slots| ==> SlotKept(p, p', e))
    && (|p'.slots| > |p.slots| ==> p'.slots[|p.slots|].client == None && p'.slots[|p.slots|].life.Live?)
    && (p.closed ==> p'.closed)
  }

  predicate PoolPlan(s: State, plan: Plan) {
    match plan.effect
    case UnlockMu(after) => PoolKept(s.pool, after)
    case InMu(after) => PoolKept(s.pool, after) && |after.slots| == |s.pool.slots|
    case _ => true
  }

  /** How a plan moves clients between entries and goroutines, and counts calls on them. */
  predicate OwnerPlan(s: State, t: nat, plan: Plan)
    requires t < |s.threads|
  {
    var pc := s.threads[t];
    match plan.effect
    case NewClient(e, w) =>
      && LockOf(pc) == Some(e) && e < |s.pool.slots| && pc.DSpawning? && plan.next.DSpawned?
      && ClientOf(pc) == None && ClientOf(plan.next) == Some(|s.clients|)
    case PutClient(e, c) =>
      && LockOf(pc) == Some(e) && e < |s.pool.slots| && s.pool.slots[e].client == None
      && ClientOf(pc) == Some(c) && c < |s.clients| && s.clients[c].home == e && ClientOf(plan.next) == None
      && pc.DSpawned?
    case TakeClient(e, failed) =>
      && LockOf(pc) == Some(e) && e < |s.pool.slots|
      && ClientOf(pc) == None && ClientOf(plan.next) == s.pool.slots[e].client
      && (failed <==> pc.DCalling?) && (pc.DCalling? ==> s.pool.slots[e].client == Some(pc.c))
      && (plan.next.DUnlockErr? || plan.next.VUnlock?)
    case BeginCall(c) =>
      LockOf(pc).Some? && EntryHas(s, LockOf(pc).value, c) && pc.DReady?
      && plan.next == DCalling(pc.want, LockOf(pc).value, c)
    case EndCall(c) =>
      pc.DCalling? && pc.c == c && EntryHas(s, pc.e, c) && !plan.next.DCalling? && ClientOf(plan.next) == ClientOf(pc)
    case BeginClose(c) =>
      && ClientOf(pc) == Some(c) && ClientOf(plan.next) == Some(c)
      && !(pc.DClosing? || pc.VClosing?) && (plan.next.DClosing? || plan.next.VClosing?)
    case EndClose(c) => ClientOf(pc) == Some(c) && (pc.DClosing? || pc.VClosing?) && ClientOf(plan.next) == None
    case _ => ClientOf(plan.next) == ClientOf(pc) && !pc.DCalling? && !plan.next.DCalling?
              && (ClientOf(pc).Some? ==>
                    !(plan.next.DClosing? || plan.next.VClosing?) && !(pc.DClosing? || pc.VClosing?))
  }

  predicate PlanOk(s: State, t: nat, plan: Plan)
    requires t < |s.threads|
  {
    LockPlan(s, t, plan) && PoolPlan(s, plan) && OwnerPlan(s, t, plan)
  }

  lemma DispatchPlanOk(s: State, t: nat, choice: Choice)
    requires Steppable(s, t) && PlanDispatch(s, t, choice).Some? && Phase(s, s.threads[t])
    ensures PlanOk(s, t, PlanDispatch(s, t, choice).value)
  {
  }

  lemma LockedPlanOk(s: State, t: nat, choice: Choice)
    requires Steppable(s, t) && PlanLocked(s, t, choice).Some? && Phase(s, s.threads[t])
    ensures PlanOk(s, t, PlanLocked(s, t, choice).value)
  {
    LockedLockPlan(s, t, choice);
    LockedOwnerPlan(s, t, choice);
  }

  lemma LockedLockPlan(s: State, t: nat, choice: Choice)
    requires Steppable(s, t) && PlanLocked(s, t, choice).Some?
    ensures var plan := PlanLocked(s, t, choice).value; LockPlan(s, t, plan) && PoolPlan(s, plan)
  {
  }

  lemma LockedOwnerPlan(s: State, t: nat, choice: Choice)
    requires Steppable(s, t) && PlanLocked(s, t, choice).Some? && Phase(s, s.threads[t])
    ensures OwnerPlan(s, t, PlanLocked(s, t, choice).value)
  {
  }

  lemma JanitorPlanOk(s: State, t: nat, choice: Choice)
    requires Steppable(s, t) && PlanJanitor(s, t, choice).Some? && Phase(s, s.threads[t])
    ensures PlanOk(s, t, PlanJanitor(s, t, choice).value)
  {
  }

  lemma ClosePlanOk(s: State, t: nat, choice: Choice)
    requires Steppable(s, t) && PlanClose(s, t, choice).Some? && Phase(s, s.threads[t])
    ensures PlanOk(s, t, PlanClose(s, t, choice).value)
  {
  }

  lemma DrainPlanOk(s: State, t: nat, choice: Choice)
    requires Steppable(s, t) && PlanDrain(s, t, choice).Some? && Phase(s, s.threads[t])
    ensures PlanOk(s, t, PlanDrain(s, t, choice).value)
  {
  }

  // ---- steps keep the invariant ----

  lemma KeepsLocks(s: State, t: nat, plan: Plan)
    requires t < |s.threads| && LockPlan(s, t, plan) && PoolPlan(s, plan)
    requires LocksMatch(s)
    ensures LocksMatch(Apply(s, t, plan))
  {
    var s' := Apply(s, t, plan);
    forall u: nat, e: nat
      ensures Inside(s', u, e) <==> LockedBy(s', e, u)
    {
      assert Inside(s, u, e) <==> LockedBy(s, e, u);
      assert Inside(s, t, e) <==> LockedBy(s, e, t);
    }
  }

  lemma KeepsMu(s: State, t: nat, plan: Plan)
    requires t < |s.threads| && LockPlan(s, t, plan)
    requires MuMatches(s)
    ensures MuMatches(Apply(s, t, plan))
  {
    var s' := Apply(s, t, plan);
    forall u: nat
      ensures InsideMu(s', u) <==> s'.mu == Some(u)
    {
      assert InsideMu(s, u) <==> s.mu == Some(u);
      assert InsideMu(s, t) <==> s.mu == Some(t);
    }
  }

  lemma KeepsEntryOwners(s: State, t: nat, plan: Plan, e: nat, c: nat)
    requires t < |s.threads| && OwnerPlan(s, t, plan) && PoolPlan(s, plan) && OwnersMatch(s)
    ensures EntryHas(Apply(s, t, plan), e, c) <==> OwnedBy(Apply(s, t, plan), c, ByEntry(e))
  {
    if plan.effect.TakeClient? && s.pool.slots[plan.effect.e].client.Some? {
      var k := s.pool.slots[plan.effect.e].client.value;
      assert EntryHas(s, plan.effect.e, k) <==> OwnedBy(s, k, ByEntry(plan.effect.e));
    }
    assert EntryHas(s, e, c) <==> OwnedBy(s, c, ByEntry(e));
    assert ThreadHas(s, t, c) <==> OwnedBy(s, c, ByThread(t));
    if plan.effect.UnlockMu? && e < |s.pool.slots| { assert SlotKept(s.pool, plan.effect.after, e); }
    if plan.effect.InMu? && e < |s.pool.slots| { assert SlotKept(s.pool, plan.effect.after, e); }
  }

  lemma KeepsThreadOwners(s: State, t: nat, plan: Plan, u: nat, c: nat)
    requires t < |s.threads| && OwnerPlan(s, t, plan) && OwnersMatch(s)
    ensures ThreadHas(Apply(s, t, plan), u, c) <==> OwnedBy(Apply(s, t, plan), c, ByThread(u))
    ensures var s' := Apply(s, t, plan); OwnedBy(s', c, Nobody) <==> c < |s'.clients| && s'.clients[c].closed
  {
    if plan.effect.TakeClient? && s.pool.slots[plan.effect.e].client.Some? {
      var k := s.pool.slots[plan.effect.e].client.value;
      assert EntryHas(s, plan.effect.e, k) <==> OwnedBy(s, k, ByEntry(plan.effect.e));
    }
    assert ThreadHas(s, u, c) <==> OwnedBy(s, c, ByThread(u));
    assert ThreadHas(s, t, c) <==> OwnedBy(s, c, ByThread(t));
    assert OwnedBy(s, c, Nobody) <==> c < |s.clients| && s.clients[c].closed;
  }

  lemma KeepsOwners(s: State, t: nat, plan: Plan)
    requires t < |s.threads| && OwnerPlan(s, t, plan) && PoolPlan(s, plan) && OwnersMatch(s)
    ensures OwnersMatch(Apply(s, t, plan))
  {
    var s' := Apply(s, t, plan);
    forall e: nat, c: nat ensures EntryHas(s', e, c) <==> OwnedBy(s', c, ByEntry(e)) {
      KeepsEntryOwners(s, t, plan, e, c);
    }
    forall u: nat, c: nat ensures ThreadHas(s', u, c) <==> OwnedBy(s', c, ByThread(u)) {
      KeepsThreadOwners(s, t, plan, u, c);
    }
    forall c: nat ensures OwnedBy(s', c, Nobody) <==> c < |s'.clients| && s'.clients[c].closed {
      KeepsThreadOwners(s, t, plan, t, c);
    }
  }

  /** A client whose entry a goroutine has locked, and which that goroutine is not calling, is idle. */
  lemma IdleInside(s: State, t: nat, e: nat, c: nat)
    requires LocksMatch(s) && OwnersMatch(s) && CountsMatch(s)
    requires Inside(s, t, e) && EntryHas(s, e, c) && !s.threads[t].DCalling?
    ensures c < |s.clients| && s.clients[c].home == e && s.clients[c].inFlight == 0
  {
    assert EntryHas(s, e, c) <==> OwnedBy(s, c, ByEntry(e));
    assert CountsOk(s, c);
    assert Inside(s, t, e) <==> LockedBy(s, e, t);
  }

  lemma DispatchNext(s: State, t: nat, choice: Choice)
    requires Inv(s) && Steppable(s, t) && PlanDispatch(s, t, choice).Some?
    ensures var plan := PlanDispatch(s, t, choice).value;
            Knows(Apply(s, t, plan), plan.next) && Phase(Apply(s, t, plan), plan.next)
    ensures JanitorPc(PlanDispatch(s, t, choice).value.next) <==> JanitorPc(s.threads[t])
  {
    assert Knows(s, s.threads[t]);
    if s.threads[t].DCheckout? && s.threads[t].want in s.pool.entries {
      assert Filed(s.pool, s.threads[t].want);
    }
  }

  lemma LockedKnows(s: State, t: nat, choice: Choice)
    requires Steppable(s, t) && PlanLocked(s, t, choice).Some? && Knows(s, s.threads[t])
    ensures var plan := PlanLocked(s, t, choice).value; Knows(Apply(s, t, plan), plan.next)
  {
  }

  lemma LockedNotJanitor(s: State, t: nat, choice: Choice)
    requires Steppable(s, t) && PlanLocked(s, t, choice).Some?
    ensures !JanitorPc(PlanLocked(s, t, choice).value.next) && !JanitorPc(s.threads[t])
  {
  }

  lemma LockedPhase(s: State, t: nat, choice: Choice)
    requires Steppable(s, t) && PlanLocked(s, t, choice).Some? && Phase(s, s.threads[t])
    requires s.threads[t].DReady? ==>
               (forall c: nat :: EntryHas(s, s.threads[t].e, c) ==> c < |s.clients| && s.clients[c].inFlight == 0)
    ensures var plan := PlanLocked(s, t, choice).value; Phase(Apply(s, t, plan), plan.next)
  {
    var pc := s.threads[t];
    if pc.DReady? { assert EntryHas(s, pc.e, s.pool.slots[pc.e].client.value); }
  }

  lemma LockedNext(s: State, t: nat, choice: Choice)
    requires Inv(s) && Steppable(s, t) && PlanLocked(s, t, choice).Some?
    ensures var plan := PlanLocked(s, t, choice).value;
            Knows(Apply(s, t, plan), plan.next) && Phase(Apply(s, t, plan), plan.next)
    ensures JanitorPc(PlanLocked(s, t, choice).value.next) <==> JanitorPc(s.threads[t])
  {
    var pc := s.threads[t];
    assert Knows(s, pc) && Phase(s, pc);
    if pc.DReady? {
      forall c: nat | EntryHas(s, pc.e, c) ensures c < |s.clients| && s.clients[c].inFlight == 0 {
        assert Inside(s, t, pc.e);
        IdleInside(s, t, pc.e, c);
      }
    }
    LockedKnows(s, t, choice);
    LockedNotJanitor(s, t, choice);
    LockedPhase(s, t, choice);
  }

  lemma JanitorNext(s: State, t: nat, choice: Choice)
    requires Inv(s) && Steppable(s, t) && PlanJanitor(s, t, choice).Some?
    ensures var plan := PlanJanitor(s, t, choice).value;
            Knows(Apply(s, t, plan), plan.next) && Phase(Apply(s, t, plan), plan.next)
    ensures JanitorPc(PlanJanitor(s, t, choice).value.next) <==> JanitorPc(s.threads[t])
  {
    assert Knows(s, s.threads[t]);
  }

  lemma CloseNext(s: State, t: nat, choice: Choice)
    requires Inv(s) && Steppable(s, t) && PlanClose(s, t, choice).Some?
    ensures var plan := PlanClose(s, t, choice).value;
            Knows(Apply(s, t, plan), plan.next) && Phase(Apply(s, t, plan), plan.next)
    ensures JanitorPc(PlanClose(s, t, choice).value.next) <==> JanitorPc(s.threads[t])
  {
    assert Knows(s, s.threads[t]);
  }

  lemma DrainNext(s: State, t: nat, choice: Choice)
    requires Inv(s) && Steppable(s, t) && PlanDrain(s, t, choice).Some?
    ensures var plan := PlanDrain(s, t, choice).value;
            Knows(Apply(s, t, plan), plan.next) && Phase(Apply(s, t, plan), plan.next)
    ensures JanitorPc(PlanDrain(s, t, choice).value.next) <==> JanitorPc(s.threads[t])
  {
    var pc := s.threads[t];
    if pc.VTake? && s.pool.slots[pc.e].client.Some? {
      var c := s.pool.slots[pc.e].client.value;
      assert EntryHas(s, pc.e, c) <==> OwnedBy(s, c, ByEntry(pc.e));
    }
  }

  lemma StepPlanOk(s: State, t: nat, choice: Choice)
    requires Steppable(s, t) && PlanStep(s, t, choice).Some? && Phase(s, s.threads[t])
    ensures PlanOk(s, t, PlanStep(s, t, choice).value)
  {
    if PlanDispatch(s, t, choice).Some? { DispatchPlanOk(s, t, choice); }
    if PlanLocked(s, t, choice).Some? { LockedPlanOk(s, t, choice); }
    if PlanJanitor(s, t, choice).Some? { JanitorPlanOk(s, t, choice); }
    if PlanClose(s, t, choice).Some? { ClosePlanOk(s, t, choice); }
    if PlanDrain(s, t, choice).Some? { DrainPlanOk(s, t, choice); }
  }

  lemma StepNext(s: State, t: nat, choice: Choice)
    requires Inv(s) && Steppable(s, t) && PlanStep(s, t, choice).Some?
    ensures var plan := PlanStep(s, t, choice).value;
            Knows(Apply(s, t, plan), plan.next) && Phase(Apply(s, t, plan), plan.next)
    ensures JanitorPc(PlanStep(s, t, choice).value.next) <==> JanitorPc(s.threads[t])
  {
    if PlanDispatch(s, t, choice).Some? { DispatchNext(s, t, choice); }
    if PlanLocked(s, t, choice).Some? { LockedNext(s, t, choice); }
    if PlanJanitor(s, t, choice).Some? { JanitorNext(s, t, choice); }
    if PlanClose(s, t, choice).Some? { CloseNext(s, t, choice); }
    if PlanDrain(s, t, choice).Some? { DrainNext(s, t, choice); }
  }

  lemma StepFacts(s: State, t: nat, choice: Choice)
    requires Inv(s) && t < |s.threads|
    ensures Steppable(s, t)
    ensures PlanStep(s, t, choice).Some? ==>
              var plan := PlanStep(s, t, choice).value;
              && PlanOk(s, t, plan)
              && Knows(Apply(s, t, plan), plan.next) && Phase(Apply(s, t, plan), plan.next)
              && (JanitorPc(plan.next) <==> JanitorPc(s.threads[t]))
  {
    InvSteppable(s, t);
    assert Phase(s, s.threads[t]);
    if PlanStep(s, t, choice).Some? {
      StepPlanOk(s, t, choice);
      StepNext(s, t, choice);
    }
  }

  // ---- what one goroutine's step leaves to the others ----

  /** Only the goroutine inside an entry changes its client. */
  lemma SlotFrame(s: State, t: nat, plan: Plan, e: nat)
    requires t < |s.threads| && PlanOk(s, t, plan) && e < |s.pool.slots|
    ensures var s' := Apply(s, t, plan);
            && e < |s'.pool.slots| && s'.pool.slots[e].quarter == s.pool.slots[e].quarter
            && (s.pool.slots[e].life.Dead? ==> s'.pool.slots[e].life == s.pool.slots[e].life)
            && (LockOf(s.threads[t]) != Some(e) ==> s'.pool.slots[e].client == s.pool.slots[e].client)
  {
    if plan.effect.UnlockMu? || plan.effect.InMu? { assert SlotKept(s.pool, plan.effect.after, e); }
  }

  lemma LockFrame(s: State, t: nat, plan: Plan, e: nat, u: nat)
    requires t < |s.threads| && PlanOk(s, t, plan) && LocksMatch(s) && u != t && LockedBy(s, e, u)
    ensures LockedBy(Apply(s, t, plan), e, u)
  {
    assert Inside(s, t, e) <==> LockedBy(s, e, t);
  }

  /** A client that goroutine t neither has nor finds in the entry it is inside. */
  predicate OutOfReach(s: State, t: nat, c: nat)
    requires t < |s.threads|
  {
    && ClientOf(s.threads[t]) != Some(c)
    && (LockOf(s.threads[t]).Some? ==> !EntryHas(s, LockOf(s.threads[t]).value, c))
  }

  lemma ClientFrame(s: State, t: nat, plan: Plan, c: nat)
    requires t < |s.threads| && PlanOk(s, t, plan) && c < |s.clients| && OutOfReach(s, t, c)
    ensures var s' := Apply(s, t, plan); c < |s'.clients| && s'.clients[c] == s.clients[c]
  {
  }

  lemma KeepsPhase(s: State, t: nat, plan: Plan, u: nat)
    requires t < |s.threads| && u < |s.threads| && u != t && PlanOk(s, t, plan)
    requires LocksMatch(s) && OwnersMatch(s) && Phase(s, s.threads[u])
    ensures Phase(Apply(s, t, plan), s.threads[u])
  {
    var pc := s.threads[u];
    if LockOf(pc).Some? {
      var e := LockOf(pc).value;
      assert Inside(s, u, e) <==> LockedBy(s, e, u);
      assert Inside(s, t, e) <==> LockedBy(s, e, t);
      SlotFrame(s, t, plan, e);
      if pc.DSpawned? {
        assert ThreadHas(s, u, pc.c) <==> OwnedBy(s, pc.c, ByThread(u));
        ForeignClient(s, t, pc.c);
        ClientFrame(s, t, plan, pc.c);
      }
      if pc.DCalling? {
        assert EntryHas(s, e, pc.c) <==> OwnedBy(s, pc.c, ByEntry(e));
        ForeignClient(s, t, pc.c);
        ClientFrame(s, t, plan, pc.c);
      }
    }
  }

  /** What another owns is out of reach. */
  lemma ForeignClient(s: State, t: nat, c: nat)
    requires t < |s.threads| && OwnersMatch(s) && c < |s.clients|
    requires s.clients[c].owner != ByThread(t)
    requires s.clients[c].owner.ByEntry? ==> LockOf(s.threads[t]) != Some(s.clients[c].owner.e)
    ensures OutOfReach(s, t, c)
  {
    assert ThreadHas(s, t, c) <==> OwnedBy(s, c, ByThread(t));
    if LockOf(s.threads[t]).Some? {
      var e := LockOf(s.threads[t]).value;
      assert EntryHas(s, e, c) <==> OwnedBy(s, c, ByEntry(e));
    }
  }

  lemma KeepsKnows(s: State, t: nat, plan: Plan, u: nat)
    requires t < |s.threads| && u < |s.threads| && u != t && PlanOk(s, t, plan)
    requires MuMatches(s) && Knows(s, s.threads[u])
    ensures Knows(Apply(s, t, plan), s.threads[u])
  {
    var pc := s.threads[u];
    if DispatchAt(pc) { SlotFrame(s, t, plan, pc.e); }
    if HoldsMu(pc) {
      assert InsideMu(s, u) <==> s.mu == Some(u);
      assert InsideMu(s, t) <==> s.mu == Some(t);
    }
  }

  lemma KeepsPlaces(s: State, t: nat, plan: Plan)
    requires Inv(s) && t < |s.threads| && PlanOk(s, t, plan)
    requires Knows(Apply(s, t, plan), plan.next) && Phase(Apply(s, t, plan), plan.next)
    requires JanitorPc(plan.next) <==> JanitorPc(s.threads[t])
    ensures PlacesMatch(Apply(s, t, plan))
  {
    var s' := Apply(s, t, plan);
    forall u: nat | u < |s'.threads|
      ensures Knows(s', s'.threads[u]) && Phase(s', s'.threads[u]) && (u == 0 <==> JanitorPc(s'.threads[u]))
    {
      assert u == 0 <==> JanitorPc(s.threads[u]);
      if u != t {
        KeepsKnows(s, t, plan, u);
        KeepsPhase(s, t, plan, u);
      }
    }
  }

  lemma KeepsFarCount(s: State, t: nat, plan: Plan, c: nat)
    requires t < |s.threads| && PlanOk(s, t, plan) && LocksMatch(s) && c < |s.clients| && CountsOk(s, c)
    requires OwnersMatch(s) && OutOfReach(s, t, c)
    ensures c < |Apply(s, t, plan).clients| && CountsOk(Apply(s, t, plan), c)
  {
    var k := s.clients[c];
    ClientFrame(s, t, plan, c);
    if k.inFlight == 1 {
      var holder := s.locks[k.home].value;
      assert Inside(s, holder, k.home) <==> LockedBy(s, k.home, holder);
      assert Inside(s, t, k.home) <==> LockedBy(s, k.home, t);
      assert holder != t;
      SlotFrame(s, t, plan, k.home);
      LockFrame(s, t, plan, k.home, holder);
    }
    assert ThreadHas(s, t, c) <==> OwnedBy(s, c, ByThread(t));
    KeepsLocks(s, t, plan);
  }

  /** Client c is in the hands of goroutine t, which takes a step. */
  lemma KeepsHeldCount(s: State, t: nat, plan: Plan, c: nat)
    requires t < |s.threads| && PlanOk(s, t, plan) && |s.locks| == |s.pool.slots| && c < |s.clients| && CountsOk(s, c)
    requires ClientOf(s.threads[t]) == Some(c)
    requires s.clients[c].owner == ByThread(t) && !s.clients[c].closed && s.clients[c].inFlight == 0
    ensures c < |Apply(s, t, plan).clients| && CountsOk(Apply(s, t, plan), c)
  {
  }

  /** Client c is in the entry that goroutine t is inside. */
  lemma KeepsNearCount(s: State, t: nat, plan: Plan, e: nat, c: nat)
    requires t < |s.threads| && OwnerPlan(s, t, plan) && |s.locks| == |s.pool.slots| && c < |s.clients|
             && CountsOk(s, c)
    requires EntryHas(s, e, c) && LockOf(s.threads[t]) == Some(e) && s.locks[e] == Some(t)
    requires s.clients[c].owner == ByEntry(e) && !s.clients[c].closed && ClientOf(s.threads[t]) != Some(c)
    requires plan.effect.UnlockMu? || plan.effect.InMu? ==>
               |s.pool.slots| <= |plan.effect.after.slots| && SlotKept(s.pool, plan.effect.after, e)
    ensures c < |Apply(s, t, plan).clients| && CountsOk(Apply(s, t, plan), c)
  {
  }

  lemma KeepsCounts(s: State, t: nat, plan: Plan)
    requires Inv(s) && t < |s.threads| && PlanOk(s, t, plan)
    ensures CountsMatch(Apply(s, t, plan))
  {
    var s' := Apply(s, t, plan);
    forall c: nat | c < |s'.clients| ensures CountsOk(s', c) {
      if c < |s.clients| {
        KeepsCount(s, t, plan, c);
      } else {
        NewCount(s, t, plan);
      }
    }
  }

  lemma NewCount(s: State, t: nat, plan: Plan)
    requires Inv(s) && t < |s.threads| && PlanOk(s, t, plan) && |Apply(s, t, plan).clients| > |s.clients|
    ensures |Apply(s, t, plan).clients| == |s.clients| + 1 && CountsOk(Apply(s, t, plan), |s.clients|)
  {
  }

  lemma KeepsCount(s: State, t: nat, plan: Plan, c: nat)
    requires Inv(s) && t < |s.threads| && PlanOk(s, t, plan) && c < |s.clients|
    ensures c < |Apply(s, t, plan).clients| && CountsOk(Apply(s, t, plan), c)
  {
    assert CountsOk(s, c);
    assert OwnedBy(s, c, Nobody) <==> s.clients[c].closed;
    if ClientOf(s.threads[t]) == Some(c) {
      assert ThreadHas(s, t, c) <==> OwnedBy(s, c, ByThread(t));
      var home := s.clients[c].home;
      assert EntryHas(s, home, c) <==> OwnedBy(s, c, ByEntry(home));
      KeepsHeldCount(s, t, plan, c);
    } else if LockOf(s.threads[t]).Some? && EntryHas(s, LockOf(s.threads[t]).value, c) {
      var e := LockOf(s.threads[t]).value;
      assert EntryHas(s, e, c) <==> OwnedBy(s, c, ByEntry(e));
      assert Inside(s, t, e) <==> LockedBy(s, e, t);
      if plan.effect.UnlockMu? || plan.effect.InMu? { assert SlotKept(s.pool, plan.effect.after, e); }
      KeepsNearCount(s, t, plan, e, c);
    } else {
      KeepsFarCount(s, t, plan, c);
    }
  }

  // ---- the map ----

  lemma CheckoutKeepsMap(p: Pool, want: Quarter, installed: bool, now: int)
    requires p.Valid() && MapOk(p, {})
    ensures MapOk(Checkout(p, want, installed, now).0, {})
  {
    var p' := Checkout(p, want, installed, now).0;
    if want in p.entries { assert Filed(p, want); assert Mapped(p, p.entries[want]); }
    forall q | q in p'.entries ensures Filed(p', q) {
      if q != want { assert Filed(p, q); }
    }
    forall e: nat ensures Alive(p', e) <==> Mapped(p', e) {
      assert Alive(p, e) <==> Mapped(p, e);
    }
  }

  lemma MarkUsedKeepsMap(p: Pool, e: nat, now: int)
    requires e < |p.slots| && MapOk(p, {})
    ensures MapOk(MarkUsed(p, e, now), {})
  {
    SameMap(p, MarkUsed(p, e, now), {});
  }

  /** Writes that leave the map, the quarters and the dead marks alone. */
  lemma SameMap(p: Pool, p': Pool, unmarked: set<nat>)
    requires MapOk(p, unmarked)
    requires p'.entries == p.entries && p'.closed == p.closed && |p'.slots| == |p.slots|
    requires forall e: nat :: e < |p.slots| ==>
             p'.slots[e].quarter == p.slots[e].quarter && p'.slots[e].life == p.slots[e].life
    ensures MapOk(p', unmarked)
  {
    forall q | q in p'.entries ensures Filed(p', q) {
      assert Filed(p, q);
    }
    forall e: nat ensures Alive(p', e) <==> Mapped(p', e) || e in unmarked {
      assert Alive(p, e) <==> Mapped(p, e) || e in unmarked;
    }
  }

  lemma EvictKeepsMap(p: Pool, want: Quarter, e: nat)
    requires e < |p.slots| && p.slots[e].quarter == want && MapOk(p, {})
    ensures MapOk(Evict(p, want, e), {})
  {
    var p' := Evict(p, want, e);
    forall q | q in p'.entries ensures Filed(p', q) {
      assert Filed(p, q);
    }
    forall x: nat ensures Alive(p', x) <==> Mapped(p', x) {
      assert Alive(p, x) <==> Mapped(p, x);
    }
  }

  lemma SweepKeepsMap(p: Pool, want: Quarter)
    requires p.Valid() && want in p.entries && MapOk(p, {})
    ensures MapOk(SweepOne(p, want), {})
  {
    var p' := SweepOne(p, want);
    assert Filed(p, want);
    forall q | q in p'.entries ensures Filed(p', q) {
      assert Filed(p, q);
    }
    forall x: nat ensures Alive(p', x) <==> Mapped(p', x) {
      assert Alive(p, x) <==> Mapped(p, x);
    }
  }

  lemma CloseKeepsMap(p: Pool)
    requires MapOk(p, {})
    ensures MapOk(CloseMap(p), p.entries.Values)
  {
    var p' := CloseMap(p);
    forall x: nat ensures Alive(p', x) <==> Mapped(p', x) || x in p.entries.Values {
      assert Alive(p, x) <==> Mapped(p, x);
      if x in p.entries.Values {
        var q :| q in p.entries && p.entries[q] == x;
        assert Filed(p, q);
      }
    }
  }

  lemma MarkKeepsMap(p: Pool, unmarked: set<nat>, e: nat)
    requires MapOk(p, unmarked) && p.closed && e in unmarked && e < |p.slots|
    ensures MapOk(KillSlot(p, e, ByClose), unmarked - {e})
  {
    var p' := KillSlot(p, e, ByClose);
    forall x: nat ensures Alive(p', x) <==> Mapped(p', x) || x in unmarked - {e} {
      assert Alive(p, x) <==> Mapped(p, x) || x in unmarked;
    }
  }

  /** A step that runs no part of a `mu` section. */
  lemma QuietKeepsMap(s: State, t: nat, plan: Plan)
    requires t < |s.threads| && LockPlan(s, t, plan) && MuMatches(s) && MapOk(s.pool, Unmarked(s))
    requires !plan.effect.UnlockMu? && !plan.effect.InMu?
    ensures MapOk(Apply(s, t, plan).pool, Unmarked(Apply(s, t, plan)))
  {
    var s' := Apply(s, t, plan);
    assert InsideMu(s, t) <==> s.mu == Some(t);
    assert Unmarked(s') == Unmarked(s);
    SameMap(s.pool, s'.pool, Unmarked(s));
  }

  lemma DispatchKeepsMap(s: State, t: nat, choice: Choice)
    requires Steppable(s, t) && PlanDispatch(s, t, choice).Some? && s.mu == Some(t) && s.threads[t].DCheckout?
    requires MapOk(s.pool, {})
    ensures var s' := Apply(s, t, PlanDispatch(s, t, choice).value); MapOk(s'.pool, Unmarked(s'))
  {
    CheckoutKeepsMap(s.pool, s.threads[t].want, choice.installed, s.clock);
  }

  lemma LockedKeepsMap(s: State, t: nat, choice: Choice)
    requires Steppable(s, t) && PlanLocked(s, t, choice).Some? && s.mu == Some(t)
             && (s.threads[t].DMarkUsed? || s.threads[t].DEvict?)
    requires MapOk(s.pool, {}) && Knows(s, s.threads[t])
    ensures var s' := Apply(s, t, PlanLocked(s, t, choice).value); MapOk(s'.pool, Unmarked(s'))
  {
    var pc := s.threads[t];
    if pc.DMarkUsed? { MarkUsedKeepsMap(s.pool, pc.e, s.clock); } else { EvictKeepsMap(s.pool, pc.want, pc.e); }
  }

  lemma JanitorKeepsMap(s: State, t: nat, choice: Choice)
    requires Steppable(s, t) && PlanJanitor(s, t, choice).Some? && s.mu == Some(t) && s.threads[t].JSweep?
    requires MapOk(s.pool, {})
    ensures var s' := Apply(s, t, PlanJanitor(s, t, choice).value); MapOk(s'.pool, Unmarked(s'))
  {
    if PlanJanitor(s, t, choice).value.effect.InMu? { SweepKeepsMap(s.pool, choice.want); }
  }

  lemma CloseStepKeepsMap(s: State, t: nat, choice: Choice)
    requires Steppable(s, t) && PlanClose(s, t, choice).Some? && s.mu == Some(t)
             && (s.threads[t].CEnter? || s.threads[t].CMark?)
    requires MapOk(s.pool, Unmarked(s)) && Knows(s, s.threads[t])
    ensures var s' := Apply(s, t, PlanClose(s, t, choice).value); MapOk(s'.pool, Unmarked(s'))
  {
    var pc := s.threads[t];
    if PlanClose(s, t, choice).value.effect.InMu? {
      if pc.CEnter? { CloseKeepsMap(s.pool); } else { MarkKeepsMap(s.pool, pc.unmarked, choice.e); }
    }
  }

  lemma KeepsMap(s: State, t: nat, choice: Choice)
    requires Inv(s) && Steppable(s, t) && PlanStep(s, t, choice).Some?
    ensures var s' := Apply(s, t, PlanStep(s, t, choice).value); MapOk(s'.pool, Unmarked(s'))
  {
    var plan := PlanStep(s, t, choice).value;
    if !plan.effect.UnlockMu? && !plan.effect.InMu? {
      StepFacts(s, t, choice);
      assert InsideMu(s, t) <==> s.mu == Some(t);
      assert Knows(s, s.threads[t]);
      QuietKeepsMap(s, t, plan);
    } else {
      SectionKeepsMap(s, t, choice);
    }
  }

  lemma SectionKeepsMap(s: State, t: nat, choice: Choice)
    requires Inv(s) && Steppable(s, t) && PlanStep(s, t, choice).Some?
    requires PlanStep(s, t, choice).value.effect.UnlockMu? || PlanStep(s, t, choice).value.effect.InMu?
    ensures var s' := Apply(s, t, PlanStep(s, t, choice).value); MapOk(s'.pool, Unmarked(s'))
  {
    SectionPc(s, t, choice);
    SectionStart(s, t);
    if s.threads[t].CEnter? || s.threads[t].CMark? {
      CloseStepKeepsMap(s, t, choice);
    } else {
      OneSectionKeepsMap(s, t, choice);
    }
  }

  lemma OneSectionKeepsMap(s: State, t: nat, choice: Choice)
    requires Steppable(s, t) && s.mu == Some(t) && Knows(s, s.threads[t]) && MapOk(s.pool, {})
    requires var pc := s.threads[t]; pc.DCheckout? || pc.DMarkUsed? || pc.DEvict? || pc.JSweep?
    requires PlanStep(s, t, choice).Some?
    ensures var s' := Apply(s, t, PlanStep(s, t, choice).value); MapOk(s'.pool, Unmarked(s'))
  {
    var pc := s.threads[t];
    if pc.DCheckout? {
      DispatchKeepsMap(s, t, choice);
    } else if pc.JSweep? {
      JanitorKeepsMap(s, t, choice);
    } else {
      LockedKeepsMap(s, t, choice);
    }
  }

  /** The map a `mu` section starts from. */
  lemma SectionStart(s: State, t: nat)
    requires Inv(s) && t < |s.threads| && HoldsMu(s.threads[t])
    ensures s.mu == Some(t) && Knows(s, s.threads[t]) && MapOk(s.pool, Unmarked(s))
    ensures !s.threads[t].CMark? ==> Unmarked(s) == {}
  {
    assert InsideMu(s, t) <==> s.mu == Some(t);
  }

  lemma SectionPc(s: State, t: nat, choice: Choice)
    requires Steppable(s, t) && PlanStep(s, t, choice).Some?
    requires PlanStep(s, t, choice).value.effect.UnlockMu? || PlanStep(s, t, choice).value.effect.InMu?
    ensures var pc := s.threads[t];
            pc.DCheckout? || pc.DMarkUsed? || pc.DEvict? || pc.JSweep? || pc.CEnter? || pc.CMark?
  {
  }

  // ---- every reachable state ----

  lemma NextKeepsInv(s: State, s': State, ev: Event)
    requires Inv(s) && Next(s, s', ev)
    ensures Inv(s')
  {
    match ev {
      case Stepped(t, choice) =>
        var plan := PlanStep(s, t, choice).value;
        StepFacts(s, t, choice);
        KeepsLocks(s, t, plan);
        KeepsMu(s, t, plan);
        KeepsMap(s, t, choice);
        KeepsOwners(s, t, plan);
        KeepsCounts(s, t, plan);
        KeepsPlaces(s, t, plan);
      case DispatchCalled(want) => OutsideKeepsInv(s, s');
      case CloseCalled => OutsideKeepsInv(s, s');
      case TimePasses(ticks) => OutsideKeepsInv(s, s');
    }
  }

  /** A call arrives, or time passes. */
  lemma OutsideKeepsInv(s: State, s': State)
    requires Inv(s) && s' == s.(clock := s'.clock, threads := s'.threads)
    requires |s.threads| <= |s'.threads| && s'.threads[..|s.threads|] == s.threads
    requires forall u :: |s.threads| <= u < |s'.threads| ==> s'.threads[u].DWantMu? || s'.threads[u].CWantMu?
    ensures Inv(s')
  {
    OutsideKeepsOwners(s, s');
    assert forall u :: 0 <= u < |s.threads| ==> s'.threads[u] == s.threads[u];
    forall u: nat, e: nat ensures Inside(s', u, e) <==> LockedBy(s', e, u) {
      assert Inside(s, u, e) <==> LockedBy(s, e, u);
    }
    forall u: nat ensures InsideMu(s', u) <==> s'.mu == Some(u) {
      assert InsideMu(s, u) <==> s.mu == Some(u);
    }
    if s.mu.Some? { assert InsideMu(s, s.mu.value) <==> s.mu == Some(s.mu.value); }
    assert Unmarked(s') == Unmarked(s);
    forall c: nat | c < |s'.clients| ensures CountsOk(s', c) {
      assert CountsOk(s, c);
      if s.clients[c].owner.ByThread? {
        assert ThreadHas(s, s.clients[c].owner.t, c) <==> OwnedBy(s, c, s.clients[c].owner);
      }
    }
    forall u: nat | u < |s'.threads|
      ensures Knows(s', s'.threads[u]) && Phase(s', s'.threads[u]) && (u == 0 <==> JanitorPc(s'.threads[u]))
    {
      if u < |s.threads| {
        assert Knows(s, s.threads[u]) && Phase(s, s.threads[u]) && (u == 0 <==> JanitorPc(s.threads[u]));
      }
    }
  }

  lemma OutsideKeepsOwners(s: State, s': State)
    requires OwnersMatch(s) && s' == s.(clock := s'.clock, threads := s'.threads)
    requires |s.threads| <= |s'.threads| && s'.threads[..|s.threads|] == s.threads
    requires forall u :: |s.threads| <= u < |s'.threads| ==> s'.threads[u].DWantMu? || s'.threads[u].CWantMu?
    ensures OwnersMatch(s')
  {
    assert forall u :: 0 <= u < |s.threads| ==> s'.threads[u] == s.threads[u];
    forall e: nat, c: nat ensures EntryHas(s', e, c) <==> OwnedBy(s', c, ByEntry(e)) {
      assert EntryHas(s, e, c) <==> OwnedBy(s, c, ByEntry(e));
    }
    forall u: nat, c: nat ensures ThreadHas(s', u, c) <==> OwnedBy(s', c, ByThread(u)) {
      assert ThreadHas(s, u, c) <==> OwnedBy(s, c, ByThread(u));
    }
    forall c: nat ensures OwnedBy(s', c, Nobody) <==> c < |s'.clients| && s'.clients[c].closed {
      assert OwnedBy(s, c, Nobody) <==> c < |s.clients| && s.clients[c].closed;
    }
  }

  lemma {:induction false} RunKeepsInv(states: seq<State>, events: seq<Event>, n: nat)
    requires Run(states, events) && n <= |events|
    ensures Inv(states[n])
  {
    if n == 0 {
      InitInv(states[0]);
    } else {
      RunKeepsInv(states, events, n - 1);
      assert Next(states[n - 1], states[n], events[n - 1]);
      NextKeepsInv(states[n - 1], states[n], events[n - 1]);
    }
  }

  lemma ReachableInv(s: State)
    requires Reachable(s)
    ensures Inv(s)
  {
    var states, events :| Run(states, events) && states[|events|] == s;
    RunKeepsInv(states, events, |events|);
  }
}
