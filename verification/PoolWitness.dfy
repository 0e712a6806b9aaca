/**
 A run that leaves a child behind.

 Two Dispatch calls want the same quarter.  The first fails to spawn and releases the
 entry's mutex; before it reaches evict's critical section the second locks the entry,
 finds it not dead, and spawns a child that answers.  Then the first marks the entry
 dead.  Close finds an empty map, every call returns, and the child is never closed.
 */
module PoolWitness {

  import opened Options
  import opened Quarters
  import opened PoolSections
  import opened PoolMachine
  import opened PoolShutdown

  const QUARTER := Quarter(25, 4)

  lemma Extend(s: State, ev: Event, s': State)
    requires Reachable(s) && Next(s, s', ev)
    ensures Reachable(s')
  {
    var states, events :| Run(states, events) && states[|events|] == s;
    assert Run(states + [s'], events + [ev]);
  }

  /** The run's states differ only in these parts; the janitor is disabled. */
  function At(pool: Pool, lock: Option<nat>, mu: Option<nat>, clients: seq<Client>, first: Pc, second: Pc): State {
    State(pool, [lock], mu, false, 0, 0, clients, [JDone, first, second])
  }

  function Entry(client: Option<nat>, life: Life): Slot {
    Slot(QUARTER, client, 0, life)
  }

  function Open(client: Option<nat>): Pool {
    Pool([Entry(client, Live)], map[QUARTER := 0], false)
  }

  const EVICTED := Pool([Entry(Some(0), Dead(ByEvict))], map[], false)

  function Child(inFlight: nat, owner: Owner): Client {
    Client(0, inFlight, 0, false, false, true, owner)
  }

  lemma MoveDispatch(s: State, t: nat, choice: Choice, s': State)
    requires Reachable(s) && Steppable(s, t)
    requires PlanDispatch(s, t, choice).Some? && Apply(s, t, PlanDispatch(s, t, choice).value) == s'
    ensures Reachable(s')
  {
    Extend(s, Stepped(t, choice), s');
  }

  lemma MoveLocked(s: State, t: nat, choice: Choice, s': State)
    requires Reachable(s) && Steppable(s, t)
    requires PlanLocked(s, t, choice).Some? && Apply(s, t, PlanLocked(s, t, choice).value) == s'
    ensures Reachable(s')
  {
    Extend(s, Stepped(t, choice), s');
  }

  lemma MoveClose(s: State, t: nat, choice: Choice, s': State)
    requires Reachable(s) && Steppable(s, t)
    requires PlanClose(s, t, choice).Some? && Apply(s, t, PlanClose(s, t, choice).value) == s'
    ensures Reachable(s')
  {
    Extend(s, Stepped(t, choice), s');
  }

  lemma MoveDrain(s: State, t: nat, choice: Choice, s': State)
    requires Reachable(s) && Steppable(s, t)
    requires PlanDrain(s, t, choice).Some? && Apply(s, t, PlanDrain(s, t, choice).value) == s'
    ensures Reachable(s')
  {
    Extend(s, Stepped(t, choice), s');
  }

  const NO_CALLS := State(Pool([], map[], false), [], None, false, 0, 0, [], [JDone])
  const QUEUED := DWantLock(QUARTER, 0, 0)
  const EVICTING := DWantMuEvict(QUARTER, 0, None)
  const ONE_CHILD := [Child(0, ByEntry(0))]

  lemma BothCalled()
    ensures Reachable(NO_CALLS.(threads := [JDone, DWantMu(QUARTER, 0), DWantMu(QUARTER, 0)]))
  {
    assert Run([NO_CALLS], []);
    var s1 := NO_CALLS.(threads := [JDone, DWantMu(QUARTER, 0)]);
    Extend(NO_CALLS, DispatchCalled(QUARTER), s1);
    Extend(s1, DispatchCalled(QUARTER), NO_CALLS.(threads := [JDone, DWantMu(QUARTER, 0), DWantMu(QUARTER, 0)]));
  }

  lemma FirstCheckedOut()
    ensures Reachable(At(Open(None), None, None, [], QUEUED, DWantMu(QUARTER, 0)))
  {
    BothCalled();
    var s := NO_CALLS.(threads := [JDone, DWantMu(QUARTER, 0), DWantMu(QUARTER, 0)]);
    var s1 := NO_CALLS.(mu := Some(1), threads := [JDone, DCheckout(QUARTER, 0), DWantMu(QUARTER, 0)]);
    MoveDispatch(s, 1, Go, s1);
    MoveDispatch(s1, 1, Found(true), At(Open(None), None, None, [], QUEUED, DWantMu(QUARTER, 0)));
  }

  /** Both calls have the entry; neither has its mutex. */
  lemma BothCheckedOut()
    ensures Reachable(At(Open(None), None, None, [], QUEUED, QUEUED))
  {
    FirstCheckedOut();
    var s := At(Open(None), None, Some(2), [], QUEUED, DCheckout(QUARTER, 0));
    MoveDispatch(At(Open(None), None, None, [], QUEUED, DWantMu(QUARTER, 0)), 2, Go, s);
    MoveDispatch(s, 2, Found(true), At(Open(None), None, None, [], QUEUED, QUEUED));
  }

  lemma FirstLocked()
    ensures Reachable(At(Open(None), Some(1), None, [], DCheckDead(QUARTER, 0, 0), QUEUED))
  {
    BothCheckedOut();
    MoveDispatch(At(Open(None), None, None, [], QUEUED, QUEUED), 1, Go,
                 At(Open(None), Some(1), None, [], DCheckDead(QUARTER, 0, 0), QUEUED));
  }

  lemma FirstPassed()
    ensures Reachable(At(Open(None), Some(1), None, [], DPassed(QUARTER, 0, false), QUEUED))
  {
    FirstLocked();
    var s := At(Open(None), Some(1), None, [], DCheckDead(QUARTER, 0, 0), QUEUED);
    assert !SomeWindow(s, 0);
    MoveDispatch(s, 1, Go, At(Open(None), Some(1), None, [], DPassed(QUARTER, 0, false), QUEUED));
  }

  lemma FirstSpawning()
    ensures Reachable(At(Open(None), Some(1), None, [], DSpawning(QUARTER, 0, false), QUEUED))
  {
    FirstPassed();
    MoveLocked(At(Open(None), Some(1), None, [], DPassed(QUARTER, 0, false), QUEUED), 1, Go,
               At(Open(None), Some(1), None, [], DSpawning(QUARTER, 0, false), QUEUED));
  }

  lemma FirstFailed()
    ensures Reachable(At(Open(None), Some(1), None, [], DUnlockErr(QUARTER, 0, None), QUEUED))
  {
    FirstSpawning();
    MoveLocked(At(Open(None), Some(1), None, [], DSpawning(QUARTER, 0, false), QUEUED), 1, Fails,
               At(Open(None), Some(1), None, [], DUnlockErr(QUARTER, 0, None), QUEUED));
  }

  /** The first call's spawn failed; it is between its unlock and evict's section. */
  lemma FirstInWindow()
    ensures Reachable(At(Open(None), None, None, [], EVICTING, QUEUED))
  {
    FirstFailed();
    MoveLocked(At(Open(None), Some(1), None, [], DUnlockErr(QUARTER, 0, None), QUEUED), 1, Go,
               At(Open(None), None, None, [], EVICTING, QUEUED));
  }

  lemma SecondLocked()
    ensures Reachable(At(Open(None), Some(2), None, [], EVICTING, DCheckDead(QUARTER, 0, 0)))
  {
    FirstInWindow();
    MoveDispatch(At(Open(None), None, None, [], EVICTING, QUEUED), 2, Go,
                 At(Open(None), Some(2), None, [], EVICTING, DCheckDead(QUARTER, 0, 0)));
  }

  lemma SecondPassed()
    ensures Reachable(At(Open(None), Some(2), None, [], EVICTING, DSpawning(QUARTER, 0, true)))
  {
    SecondLocked();
    var s := At(Open(None), Some(2), None, [], EVICTING, DCheckDead(QUARTER, 0, 0));
    assert InWindow(s.threads[1], 0);
    var s1 := At(Open(None), Some(2), None, [], EVICTING, DPassed(QUARTER, 0, true));
    MoveDispatch(s, 2, Go, s1);
    MoveLocked(s1, 2, Go, At(Open(None), Some(2), None, [], EVICTING, DSpawning(QUARTER, 0, true)));
  }

  lemma SecondSpawned()
    ensures Reachable(At(Open(None), Some(2), None, [Child(0, ByThread(2))], EVICTING, DSpawned(QUARTER, 0, 0)))
  {
    SecondPassed();
    MoveLocked(At(Open(None), Some(2), None, [], EVICTING, DSpawning(QUARTER, 0, true)), 2, Succeeds,
               At(Open(None), Some(2), None, [Child(0, ByThread(2))], EVICTING, DSpawned(QUARTER, 0, 0)));
  }

  lemma SecondStored()
    ensures Reachable(At(Open(Some(0)), Some(2), None, ONE_CHILD, EVICTING, DReady(QUARTER, 0)))
  {
    SecondSpawned();
    MoveLocked(At(Open(None), Some(2), None, [Child(0, ByThread(2))], EVICTING, DSpawned(QUARTER, 0, 0)), 2, Go,
               At(Open(Some(0)), Some(2), None, ONE_CHILD, EVICTING, DReady(QUARTER, 0)));
  }

  lemma SecondCalling()
    ensures Reachable(At(Open(Some(0)), Some(2), None, [Child(1, ByEntry(0))], EVICTING, DCalling(QUARTER, 0, 0)))
  {
    SecondStored();
    MoveLocked(At(Open(Some(0)), Some(2), None, ONE_CHILD, EVICTING, DReady(QUARTER, 0)), 2, Go,
               At(Open(Some(0)), Some(2), None, [Child(1, ByEntry(0))], EVICTING, DCalling(QUARTER, 0, 0)));
  }

  lemma SecondAnswered()
    ensures Reachable(At(Open(Some(0)), Some(2), None, ONE_CHILD, EVICTING, DUnlockOk(QUARTER, 0)))
  {
    SecondCalling();
    MoveLocked(At(Open(Some(0)), Some(2), None, [Child(1, ByEntry(0))], EVICTING, DCalling(QUARTER, 0, 0)), 2, Succeeds,
               At(Open(Some(0)), Some(2), None, ONE_CHILD, EVICTING, DUnlockOk(QUARTER, 0)));
  }

  lemma SecondUnlocked()
    ensures Reachable(At(Open(Some(0)), None, None, ONE_CHILD, EVICTING, DWantMuUsed(QUARTER, 0)))
  {
    SecondAnswered();
    MoveLocked(At(Open(Some(0)), Some(2), None, ONE_CHILD, EVICTING, DUnlockOk(QUARTER, 0)), 2, Go,
               At(Open(Some(0)), None, None, ONE_CHILD, EVICTING, DWantMuUsed(QUARTER, 0)));
  }

  /** Only now does the first call mark the entry dead. */
  lemma FirstEvicting()
    ensures Reachable(At(Open(Some(0)), None, Some(1), ONE_CHILD, DEvict(QUARTER, 0, None), DWantMuUsed(QUARTER, 0)))
  {
    SecondUnlocked();
    MoveLocked(At(Open(Some(0)), None, None, ONE_CHILD, EVICTING, DWantMuUsed(QUARTER, 0)), 1, Go,
               At(Open(Some(0)), None, Some(1), ONE_CHILD, DEvict(QUARTER, 0, None), DWantMuUsed(QUARTER, 0)));
  }

  lemma FirstReturned()
    ensures Reachable(At(EVICTED, None, None, ONE_CHILD, DDone(QUARTER, SpawnFailed), DWantMuUsed(QUARTER, 0)))
  {
    FirstEvicting();
    assert map[QUARTER := 0] - {QUARTER} == map[];
    MoveLocked(At(Open(Some(0)), None, Some(1), ONE_CHILD, DEvict(QUARTER, 0, None), DWantMuUsed(QUARTER, 0)), 1, Go,
        At(EVICTED, None, None, ONE_CHILD, DDone(QUARTER, SpawnFailed), DWantMuUsed(QUARTER, 0)));
  }

  lemma SecondMarking()
    ensures Reachable(At(EVICTED, None, Some(2), ONE_CHILD, DDone(QUARTER, SpawnFailed), DMarkUsed(QUARTER, 0)))
  {
    FirstReturned();
    MoveLocked(At(EVICTED, None, None, ONE_CHILD, DDone(QUARTER, SpawnFailed), DWantMuUsed(QUARTER, 0)), 2, Go,
               At(EVICTED, None, Some(2), ONE_CHILD, DDone(QUARTER, SpawnFailed), DMarkUsed(QUARTER, 0)));
  }

  lemma BothReturned()
    ensures Reachable(At(EVICTED, None, None, ONE_CHILD, DDone(QUARTER, SpawnFailed), DDone(QUARTER, Served)))
  {
    SecondMarking();
    MoveLocked(At(EVICTED, None, Some(2), ONE_CHILD, DDone(QUARTER, SpawnFailed), DMarkUsed(QUARTER, 0)), 2, Go,
               At(EVICTED, None, None, ONE_CHILD, DDone(QUARTER, SpawnFailed), DDone(QUARTER, Served)));
  }

  function Closing(closed: bool, mu: Option<nat>, stopped: bool, pc: Pc): State {
    State(EVICTED.(closed := closed), [None], mu, stopped, 0, 0, ONE_CHILD,
          [JDone, DDone(QUARTER, SpawnFailed), DDone(QUARTER, Served), pc])
  }

  lemma CloseEntered()
    ensures Reachable(Closing(false, Some(3), false, CEnter))
  {
    BothReturned();
    Extend(At(EVICTED, None, None, ONE_CHILD, DDone(QUARTER, SpawnFailed), DDone(QUARTER, Served)), CloseCalled,
           Closing(false, None, false, CWantMu));
    MoveClose(Closing(false, None, false, CWantMu), 3, Go, Closing(false, Some(3), false, CEnter));
  }

  lemma CloseTookMap()
    ensures Reachable(Closing(true, Some(3), false, CMark({}, {})))
  {
    CloseEntered();
    assert EVICTED.entries.Values == {};
    MoveClose(Closing(false, Some(3), false, CEnter), 3, Go, Closing(true, Some(3), false, CMark({}, {})));
  }

  lemma CloseFoundNothing()
    ensures Reachable(Closing(true, None, false, CStop({})))
  {
    CloseTookMap();
    MoveClose(Closing(true, Some(3), false, CMark({}, {})), 3, Go, Closing(true, None, false, CStop({})));
  }

  lemma CloseStopped()
    ensures Reachable(Closing(true, None, true, CWait({})))
  {
    CloseFoundNothing();
    MoveClose(Closing(true, None, false, CStop({})), 3, Go, Closing(true, None, true, CWait({})));
  }

  lemma CloseWaited()
    ensures Reachable(Closing(true, None, true, VNext(Closer, [])))
  {
    CloseStopped();
    var none: seq<nat> := [];
    assert (set e | e in none) == {};
    MoveClose(Closing(true, None, true, CWait({})), 3, Order(none), Closing(true, None, true, VNext(Closer, none)));
  }

  /** Shutdown, and the child is still running. */
  lemma ShutdownCanLeak() returns (s: State)
    ensures Reachable(s) && Quiescent(s) && |s.clients| == 1 && !s.clients[0].closed
  {
    CloseWaited();
    s := Closing(true, None, true, CDone);
    MoveDrain(Closing(true, None, true, VNext(Closer, [])), 3, Go, s);
  }
}
