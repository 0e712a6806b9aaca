/**
 The pool as a transition system: any number of Dispatch calls, any number of Close
 calls and one janitor, interleaved one step at a time.

 A step is: taking a mutex, releasing it, one body of a `mu` section (one loop
 iteration for the sections that loop), the unsynchronised read of `entry.dead`, or
 the start or the end of a spawn, a CallTool or a client Close.  Spawn and CallTool
 may succeed or fail; time only moves forward.
 */
module PoolMachine {

  import opened Options
  import opened Quarters
  import opened PoolSections

  datatype Outcome = Served | CallFailed | SpawnFailed | MissingBackend | PoolClosed | Churn

  datatype Who = Janitor | Closer

  /** Where a goroutine stands, with its local variables. */
  datatype Pc =
      // Dispatch(want)
    | DWantMu(want: Quarter, attempt: nat)
    | DCheckout(want: Quarter, attempt: nat)
    | DWantLock(want: Quarter, attempt: nat, e: nat)
    | DCheckDead(want: Quarter, attempt: nat, e: nat)
    | DRetry(want: Quarter, attempt: nat, e: nat)
    | DPassed(want: Quarter, e: nat, windowed: bool)
    | DSpawning(want: Quarter, e: nat, windowed: bool)
    | DSpawned(want: Quarter, e: nat, c: nat)
    | DReady(want: Quarter, e: nat)
    | DCalling(want: Quarter, e: nat, c: nat)
    | DUnlockOk(want: Quarter, e: nat)
    | DWantMuUsed(want: Quarter, e: nat)
    | DMarkUsed(want: Quarter, e: nat)
    | DUnlockErr(want: Quarter, e: nat, taken: Option<nat>)
    | DWantMuEvict(want: Quarter, e: nat, taken: Option<nat>)
    | DEvict(want: Quarter, e: nat, taken: Option<nat>)
    | DClose(want: Quarter, c: nat)
    | DClosing(want: Quarter, c: nat)
    | DDone(want: Quarter, outcome: Outcome)
      // the janitor
    | JIdle
    | JWantMu(now: int)
    | JSweep(now: int, unvisited: set<Quarter>, victims: seq<nat>)
    | JDone
      // Close
    | CWantMu
    | CEnter
    | CMark(unmarked: set<nat>, all: set<nat>)
    | CStop(all: set<nat>)
    | CWait(all: set<nat>)
    | CDone
      // the drain loop shared by sweepIdle and Close
    | VNext(who: Who, rest: seq<nat>)
    | VTake(who: Who, e: nat, rest: seq<nat>)
    | VUnlock(who: Who, e: nat, rest: seq<nat>, taken: Option<nat>)
    | VClose(who: Who, rest: seq<nat>, c: nat)
    | VClosing(who: Who, rest: seq<nat>, c: nat)

  /** The entry mutex a goroutine holds. */
  function LockOf(pc: Pc): Option<nat> {
    match pc
    case DCheckDead(_, _, e) => Some(e)
    case DRetry(_, _, e) => Some(e)
    case DPassed(_, e, _) => Some(e)
    case DSpawning(_, e, _) => Some(e)
    case DSpawned(_, e, _) => Some(e)
    case DReady(_, e) => Some(e)
    case DCalling(_, e, _) => Some(e)
    case DUnlockOk(_, e) => Some(e)
    case DUnlockErr(_, e, _) => Some(e)
    case VTake(_, e, _) => Some(e)
    case VUnlock(_, e, _, _) => Some(e)
    case _ => None
  }

  predicate HoldsMu(pc: Pc) {
    pc.DCheckout? || pc.DMarkUsed? || pc.DEvict? || pc.JSweep? || pc.CEnter? || pc.CMark?
  }

  /** The client a goroutine alone can reach, and will close or hand over. */
  function ClientOf(pc: Pc): Option<nat> {
    match pc
    case DSpawned(_, _, c) => Some(c)
    case DUnlockErr(_, _, taken) => taken
    case DWantMuEvict(_, _, taken) => taken
    case DEvict(_, _, taken) => taken
    case DClose(_, c) => Some(c)
    case DClosing(_, c) => Some(c)
    case VUnlock(_, _, _, taken) => taken
    case VClose(_, _, c) => Some(c)
    case VClosing(_, _, c) => Some(c)
    case _ => None
  }

  /** evict's window: the entry is unlocked and not yet marked dead. */
  predicate InWindow(pc: Pc, e: nat) {
    (pc.DWantMuEvict? || pc.DEvict?) && pc.e == e
  }

  predicate Finished(pc: Pc) {
    pc.DDone? || pc.JDone? || pc.CDone?
  }

  /** Who can reach a client. `Nobody` once its Close has returned. */
  datatype Owner = ByEntry(e: nat) | ByThread(t: nat) | Nobody

  /**
   A spawned child.  `inFlight` and `closeCalls` count CallTool and Close calls on it;
   `home`, `failed`, `windowed` and `owner` are history, which no step consults:
   the entry it was spawned for, whether a CallTool on it returned an error, whether
   the dead check before its spawn was passed inside some evict's window, and who
   has it now.
   */
  datatype Client = Client(home: nat, inFlight: nat, closeCalls: nat, closed: bool,
                           failed: bool, windowed: bool, owner: Owner)

  datatype State = State(
    pool: Pool,
    locks: seq<Option<nat>>,   // the holder of each entry's mutex
    mu: Option<nat>,           // the holder of PoolRouter.mu
    stopped: bool,             // stopJanitor was called
    clock: int,
    idleTimeout: int,
    clients: seq<Client>,
    threads: seq<Pc>)          // thread 0 is the janitor

  /** The free choices of a step. */
  datatype Choice =
    | Go
    | Found(installed: bool)
    | Succeeds
    | Fails
    | Visit(want: Quarter)
    | Mark(e: nat)
    | Order(order: seq<nat>)

  /** What one step does to the state the goroutines share. */
  datatype Effect =
    | Nothing
    | LockMu
    | UnlockMu(after: Pool)           // the section's writes, and the release
    | InMu(after: Pool)               // a part of a section that loops
    | LockEntry(e: nat)
    | UnlockEntry(e: nat)
    | NewClient(e: nat, windowed: bool)
    | PutClient(e: nat, c: nat)
    | TakeClient(e: nat, failed: bool)
    | BeginCall(c: nat)
    | EndCall(c: nat)
    | BeginClose(c: nat)
    | EndClose(c: nat)
    | StopJanitor

  datatype Plan = Plan(effect: Effect, next: Pc)

  /** What must hold for goroutine t's step to be computed: its ids are in range. */
  predicate PcInRange(s: State, pc: Pc) {
    && (LockOf(pc).Some? ==> LockOf(pc).value < |s.pool.slots|)
    && (ClientOf(pc).Some? ==> ClientOf(pc).value < |s.clients|)
    && (pc.DCalling? ==> pc.c < |s.clients|)
    && ((pc.DWantLock? || pc.DWantMuUsed? || pc.DMarkUsed? || pc.DWantMuEvict? || pc.DEvict?) ==> pc.e < |s.pool.slots|)
    && (pc.JSweep? ==> pc.unvisited <= s.pool.entries.Keys)
    && (pc.CMark? ==> forall e :: e in pc.unmarked ==> e < |s.pool.slots|)
  }

  predicate Steppable(s: State, t: nat) {
    && s.pool.Valid() && |s.locks| == |s.pool.slots|
    && 0 < |s.threads| && t < |s.threads| && PcInRange(s, s.threads[t])
  }

  function Acquire(s: State, next: Pc): Option<Plan> {
    if s.mu.None? then Some(Plan(LockMu, next)) else None
  }

  function AcquireEntry(s: State, e: nat, next: Pc): Option<Plan> {
    if e < |s.locks| && s.locks[e].None? then Some(Plan(LockEntry(e), next)) else None
  }

  /** Some goroutine is inside evict's window on entry e. */
  predicate SomeWindow(s: State, e: nat) {
    exists other :: 0 <= other < |s.threads| && InWindow(s.threads[other], e)
  }

  /** Dispatch's retry loop and checkout: None when goroutine t cannot step under that choice. */
  function PlanDispatch(s: State, t: nat, choice: Choice): Option<Plan>
    requires Steppable(s, t)
  {
    match s.threads[t]
    case DWantMu(want, attempt) =>
      Acquire(s, DCheckout(want, attempt))
    case DCheckout(want, attempt) =>
      if !choice.Found? then None else
      var r := Checkout(s.pool, want, choice.installed, s.clock);
      Some(Plan(UnlockMu(r.0),
        match r.1
        case Refused => DDone(want, PoolClosed)
        case NotInstalled => DDone(want, MissingBackend)
        case Got(e) => DWantLock(want, attempt, e)))
    case DWantLock(want, attempt, e) =>
      AcquireEntry(s, e, DCheckDead(want, attempt, e))
    case DCheckDead(want, attempt, e) =>
      Some(Plan(Nothing,
        if s.pool.IsDead(e) then DRetry(want, attempt, e) else DPassed(want, e, SomeWindow(s, e))))
    case DRetry(want, attempt, e) =>
      Some(Plan(UnlockEntry(e), if attempt > 16 then DDone(want, Churn) else DWantMu(want, attempt + 1)))
    case _ => None
  }

  /** dispatchLocked, with markUsed and evict. */
  function PlanLocked(s: State, t: nat, choice: Choice): Option<Plan>
    requires Steppable(s, t)
  {
    match s.threads[t]
    case DPassed(want, e, windowed) =>
      Some(Plan(Nothing, if s.pool.slots[e].client.None? then DSpawning(want, e, windowed) else DReady(want, e)))
    case DSpawning(want, e, windowed) =>
      if choice.Succeeds? then Some(Plan(NewClient(e, windowed), DSpawned(want, e, |s.clients|)))
      else if choice.Fails? then Some(Plan(Nothing, DUnlockErr(want, e, None)))
      else None
    case DSpawned(want, e, c) =>
      Some(Plan(PutClient(e, c), DReady(want, e)))
    case DReady(want, e) =>
      (match s.pool.slots[e].client
       case Some(c) => Some(Plan(BeginCall(c), DCalling(want, e, c)))
       case None => None)
    case DCalling(want, e, c) =>
      if choice.Succeeds? then Some(Plan(EndCall(c), DUnlockOk(want, e)))
      else if choice.Fails? then Some(Plan(TakeClient(e, true), DUnlockErr(want, e, s.pool.slots[e].client)))
      else None
    case DUnlockOk(want, e) =>
      Some(Plan(UnlockEntry(e), DWantMuUsed(want, e)))
    case DWantMuUsed(want, e) =>
      Acquire(s, DMarkUsed(want, e))
    case DMarkUsed(want, e) =>
      Some(Plan(UnlockMu(MarkUsed(s.pool, e, s.clock)), DDone(want, Served)))
    case DUnlockErr(want, e, taken) =>
      Some(Plan(UnlockEntry(e), DWantMuEvict(want, e, taken)))
    case DWantMuEvict(want, e, taken) =>
      Acquire(s, DEvict(want, e, taken))
    case DEvict(want, e, taken) =>
      Some(Plan(UnlockMu(Evict(s.pool, want, e)),
        if taken.Some? then DClose(want, taken.value) else DDone(want, SpawnFailed)))
    case DClose(want, c) =>
      Some(Plan(BeginClose(c), DClosing(want, c)))
    case DClosing(want, c) =>
      Some(Plan(EndClose(c), DDone(want, CallFailed)))
    case _ => None
  }

  /** The janitor's loop and the critical section of sweepIdle. */
  function PlanJanitor(s: State, t: nat, choice: Choice): Option<Plan>
    requires Steppable(s, t)
  {
    match s.threads[t]
    case JIdle =>
      // The select takes either ready case; before Close only the ticker is.
      if choice.Succeeds? then Some(Plan(Nothing, JWantMu(s.clock)))
      else if choice.Go? && s.stopped then Some(Plan(Nothing, JDone))
      else None
    case JWantMu(now) =>
      Acquire(s, JSweep(now, s.pool.entries.Keys, []))
    case JSweep(now, unvisited, victims) =>
      if unvisited == {} then
        Some(Plan(UnlockMu(s.pool), VNext(Janitor, victims)))
      else if choice.Visit? && choice.want in unvisited then
        var q := choice.want;
        if Idle(s.pool, q, now, s.idleTimeout) then
          Some(Plan(InMu(SweepOne(s.pool, q)), JSweep(now, unvisited - {q}, victims + [s.pool.entries[q]])))
        else
          Some(Plan(Nothing, JSweep(now, unvisited - {q}, victims)))
      else None
    case _ => None
  }

  /** Close up to its drain loop. */
  function PlanClose(s: State, t: nat, choice: Choice): Option<Plan>
    requires Steppable(s, t)
  {
    match s.threads[t]
    case CWantMu =>
      Acquire(s, CEnter)
    case CEnter =>
      if s.pool.closed then
        Some(Plan(UnlockMu(s.pool), CDone))
      else
        Some(Plan(InMu(CloseMap(s.pool)), CMark(s.pool.entries.Values, s.pool.entries.Values)))
    case CMark(unmarked, all) =>
      if unmarked == {} then
        Some(Plan(UnlockMu(s.pool), CStop(all)))
      else if choice.Mark? && choice.e in unmarked then
        Some(Plan(InMu(KillSlot(s.pool, choice.e, ByClose)), CMark(unmarked - {choice.e}, all)))
      else None
    case CStop(all) =>
      Some(Plan(StopJanitor, CWait(all)))
    case CWait(all) =>
      // <-janitorDone, then a range over the captured map in some order
      if s.threads[0] == JDone && choice.Order? && (set e | e in choice.order) == all then
        Some(Plan(Nothing, VNext(Closer, choice.order)))
      else None
    case _ => None
  }

  /** The loop that empties and closes a list of unmapped entries. */
  function PlanDrain(s: State, t: nat, choice: Choice): Option<Plan>
    requires Steppable(s, t)
  {
    match s.threads[t]
    case VNext(who, rest) =>
      if rest == [] then
        Some(Plan(Nothing, if who.Janitor? then JIdle else CDone))
      else
        AcquireEntry(s, rest[0], VTake(who, rest[0], rest[1..]))
    case VTake(who, e, rest) =>
      Some(Plan(TakeClient(e, false), VUnlock(who, e, rest, s.pool.slots[e].client)))
    case VUnlock(who, e, rest, taken) =>
      Some(Plan(UnlockEntry(e), if taken.Some? then VClose(who, rest, taken.value) else VNext(who, rest)))
    case VClose(who, rest, c) =>
      Some(Plan(BeginClose(c), VClosing(who, rest, c)))
    case VClosing(who, rest, c) =>
      Some(Plan(EndClose(c), VNext(who, rest)))
    case _ => None
  }

  function PlanStep(s: State, t: nat, choice: Choice): Option<Plan>
    requires Steppable(s, t)
  {
    var pc := s.threads[t];
    if pc.JIdle? || pc.JWantMu? || pc.JSweep? || pc.JDone? then PlanJanitor(s, t, choice)
    else if pc.CWantMu? || pc.CEnter? || pc.CMark? || pc.CStop? || pc.CWait? || pc.CDone? then PlanClose(s, t, choice)
    else if pc.VNext? || pc.VTake? || pc.VUnlock? || pc.VClose? || pc.VClosing? then PlanDrain(s, t, choice)
    else if pc.DWantMu? || pc.DCheckout? || pc.DWantLock? || pc.DCheckDead? || pc.DRetry? then
      PlanDispatch(s, t, choice)
    else PlanLocked(s, t, choice)
  }

  function WithClient(s: State, c: nat, client: Client): State
    requires c < |s.clients|
  {
    s.(clients := s.clients[c := client])
  }

  /** The shared state after goroutine t's effect. A section that creates an entry creates its mutex too. */
  function Effected(s: State, t: nat, effect: Effect): State {
    match effect
    case Nothing => s
    case LockMu => s.(mu := Some(t))
    case UnlockMu(after) =>
      s.(mu := None, pool := after,
         locks := if |s.locks| < |after.slots| then s.locks + [None] else s.locks)
    case InMu(after) => s.(pool := after)
    case LockEntry(e) => if e < |s.locks| then s.(locks := s.locks[e := Some(t)]) else s
    case UnlockEntry(e) => if e < |s.locks| then s.(locks := s.locks[e := None]) else s
    case NewClient(e, windowed) =>
      s.(clients := s.clients + [Client(e, 0, 0, false, false, windowed, ByThread(t))])
    case PutClient(e, c) =>
      if e < |s.pool.slots| && c < |s.clients| then
        WithClient(s.(pool := StoreClient(s.pool, e, Some(c))), c, s.clients[c].(owner := ByEntry(e)))
      else s
    case TakeClient(e, failed) =>
      if e < |s.pool.slots| && s.pool.slots[e].client.Some? && s.pool.slots[e].client.value < |s.clients| then
        var c := s.pool.slots[e].client.value;
        var k := s.clients[c];
        WithClient(s.(pool := StoreClient(s.pool, e, None)), c,
          k.(owner := ByThread(t), failed := k.failed || failed,
             inFlight := if failed && k.inFlight > 0 then k.inFlight - 1 else k.inFlight))
      else s
    case BeginCall(c) =>
      if c < |s.clients| then WithClient(s, c, s.clients[c].(inFlight := s.clients[c].inFlight + 1)) else s
    case EndCall(c) =>
      if c < |s.clients| && s.clients[c].inFlight > 0 then
        WithClient(s, c, s.clients[c].(inFlight := s.clients[c].inFlight - 1))
      else s
    case BeginClose(c) =>
      if c < |s.clients| then WithClient(s, c, s.clients[c].(closeCalls := s.clients[c].closeCalls + 1)) else s
    case EndClose(c) =>
      if c < |s.clients| then WithClient(s, c, s.clients[c].(closed := true, owner := Nobody)) else s
    case StopJanitor => s.(stopped := true)
  }

  function Apply(s: State, t: nat, plan: Plan): State {
    var s1 := Effected(s, t, plan.effect);
    if t < |s1.threads| then s1.(threads := s1.threads[t := plan.next]) else s1
  }

  /** Everything that can happen next. */
  datatype Event =
    | DispatchCalled(want: Quarter)
    | CloseCalled
    | TimePasses(ticks: nat)
    | Stepped(t: nat, choice: Choice)

  ghost predicate Next(s: State, s': State, ev: Event) {
    match ev
    case DispatchCalled(want) => s' == s.(threads := s.threads + [DWantMu(want, 0)])
    case CloseCalled => s' == s.(threads := s.threads + [CWantMu])
    case TimePasses(ticks) => s' == s.(clock := s.clock + ticks)
    case Stepped(t, choice) =>
      Steppable(s, t) && PlanStep(s, t, choice).Some? && s' == Apply(s, t, PlanStep(s, t, choice).value)
  }

  /** NewPoolRouter: the janitor runs only when idle eviction is enabled. */
  ghost predicate Init(s: State) {
    && s.pool == Pool([], map[], false)
    && s.locks == [] && s.mu == None && !s.stopped && s.clients == []
    && (s.threads == [JIdle] || s.threads == [JDone])
    && (s.threads == [JIdle] ==> s.idleTimeout > 0)
  }

  /** The states a run passes through, with the events between them. */
  ghost predicate Run(states: seq<State>, events: seq<Event>) {
    && |states| == |events| + 1
    && Init(states[0])
    && (forall i {:trigger events[i]} :: 0 <= i < |events| ==> Next(states[i], states[i + 1], events[i]))
  }

  ghost predicate Reachable(s: State) {
    exists states, events :: Run(states, events) && states[|events|] == s
  }
}
