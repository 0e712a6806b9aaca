/** What holds of the pool in every run. */
module PoolTheorems {

  import opened Options
  import opened PoolMachine
  import opened PoolInvariant
  import opened PoolLeak

  /** Read off the state alone, without the history in `Client.owner`. */
  predicate Owns(s: State, o: Owner, c: nat) {
    match o
    case ByEntry(e) => EntryHas(s, e, c)
    case ByThread(t) => ThreadHas(s, t, c)
    case Nobody => c < |s.clients| && s.clients[c].closed
  }

  lemma OneOwner(s: State, c: nat)
    requires Reachable(s) && c < |s.clients|
    ensures exists o :: Owns(s, o, c) && forall other :: Owns(s, other, c) ==> other == o
  {
    ReachableInv(s);
    var o := s.clients[c].owner;
    OwnerOwns(s, c, o);
    forall other | Owns(s, other, c) ensures other == o {
      OwnerOwns(s, c, other);
    }
  }

  lemma OwnerOwns(s: State, c: nat, o: Owner)
    requires OwnersMatch(s) && c < |s.clients|
    ensures Owns(s, o, c) <==> s.clients[c].owner == o
  {
    match o {
      case ByEntry(e) => assert EntryHas(s, e, c) <==> OwnedBy(s, c, ByEntry(e));
      case ByThread(t) => assert ThreadHas(s, t, c) <==> OwnedBy(s, c, ByThread(t));
      case Nobody => assert OwnedBy(s, c, Nobody) <==> c < |s.clients| && s.clients[c].closed;
    }
  }

  /** At most one CallTool at a time, at most one Close, and no CallTool once Close has begun. */
  lemma CallsOfAClient(s: State, c: nat)
    requires Reachable(s) && c < |s.clients|
    ensures s.clients[c].inFlight <= 1 && s.clients[c].closeCalls <= 1
    ensures s.clients[c].closeCalls > 0 ==> s.clients[c].inFlight == 0
    ensures s.clients[c].closed ==> s.clients[c].closeCalls == 1
    ensures forall t: nat, u: nat :: Calling(s, t, c) && Calling(s, u, c) ==> t == u
  {
    ReachableInv(s);
    assert CountsOk(s, c);
    var home := s.clients[c].home;
    assert EntryHas(s, home, c) <==> OwnedBy(s, c, ByEntry(home));
    assert OwnedBy(s, c, Nobody) <==> s.clients[c].closed;
    forall t: nat, u: nat | Calling(s, t, c) && Calling(s, u, c) ensures t == u {
      CallerInside(s, t, c);
      CallerInside(s, u, c);
    }
  }

  lemma CallerInside(s: State, t: nat, c: nat)
    requires Inv(s) && c < |s.clients| && Calling(s, t, c)
    ensures LockedBy(s, s.clients[c].home, t)
  {
    var e := s.threads[t].e;
    assert Phase(s, s.threads[t]);
    assert EntryHas(s, e, c) <==> OwnedBy(s, c, ByEntry(e));
    assert CountsOk(s, c);
    assert Inside(s, t, e) <==> LockedBy(s, e, t);
  }

  /** While `mu` is free, an entry is mapped under its own quarter exactly when it is not dead. */
  lemma MappedIffAlive(s: State, e: nat)
    requires Reachable(s) && s.mu.None?
    ensures Mapped(s.pool, e) <==> Alive(s.pool, e)
    ensures forall q :: q in s.pool.entries ==> Filed(s.pool, q)
  {
    ReachableInv(s);
    assert Unmarked(s) == {};
  }

  lemma StaysClosed(s: State, s': State, ev: Event)
    requires Inv(s) && Next(s, s', ev) && s.pool.closed
    ensures s'.pool.closed
  {
    if ev.Stepped? {
      StepFacts(s, ev.t, ev.choice);
      assert PoolPlan(s, PlanStep(s, ev.t, ev.choice).value);
    }
  }

  /** Once Close has taken the map, nothing is mapped again. */
  lemma {:induction false} NothingMappedAfterClose(states: seq<State>, events: seq<Event>, i: nat, j: nat)
    requires Run(states, events) && i <= j <= |events| && states[i].pool.closed
    ensures states[j].pool.closed && states[j].pool.entries == map[]
  {
    if i < j {
      NothingMappedAfterClose(states, events, i, j - 1);
      ClosedBefore(states, events, j);
    } else {
      RunKeepsInv(states, events, j);
      ClosedIsEmpty(states[j]);
    }
  }

  lemma ClosedIsEmpty(s: State)
    requires Inv(s) && s.pool.closed
    ensures s.pool.entries == map[]
  {
  }

  lemma ClosedBefore(states: seq<State>, events: seq<Event>, j: nat)
    requires Run(states, events) && 0 < j <= |events| && states[j - 1].pool.closed
    ensures states[j].pool.closed && states[j].pool.entries == map[]
  {
    LastStep(states, events, j);
    StaysClosed(states[j - 1], states[j], events[j - 1]);
    ClosedIsEmpty(states[j]);
  }

  lemma LastStep(states: seq<State>, events: seq<Event>, j: nat)
    requires Run(states, events) && 0 < j <= |events|
    ensures Inv(states[j - 1]) && Inv(states[j]) && Next(states[j - 1], states[j], events[j - 1])
  {
    RunKeepsInv(states, events, j - 1);
    RunKeepsInv(states, events, j);
    assert Next(states[j - 1], states[j - 1 + 1], events[j - 1]);
  }

  /** No goroutine is ever inside `mu` and an entry's mutex together. */
  lemma NeverBothMutexes(s: State, t: nat, e: nat)
    requires Reachable(s) && s.mu == Some(t)
    ensures !LockedBy(s, e, t)
  {
    ReachableInv(s);
    assert InsideMu(s, t) <==> s.mu == Some(t);
    assert Inside(s, t, e) <==> LockedBy(s, e, t);
  }

  // ---- no deadlock ----

  ghost predicate CanStep(s: State, t: nat) {
    Steppable(s, t) && exists choice :: PlanStep(s, t, choice).Some?
  }

  /** Work remains: everything but a returned call and a janitor waiting for its ticker. */
  predicate Unfinished(s: State, t: nat) {
    t < |s.threads| && !Finished(s.threads[t]) && !(s.threads[t].JIdle? && !s.stopped)
  }

  lemma SetOrder(all: set<nat>) returns (order: seq<nat>)
    ensures forall e :: e in order <==> e in all
  {
    if all == {} {
      order := [];
    } else {
      var x :| x in all;
      var rest := SetOrder(all - {x});
      order := [x] + rest;
    }
  }

  /** A goroutine that holds a mutex, or waits for none, can go on. */
  predicate WaitsForNone(pc: Pc) {
    && !(pc.DWantMu? || pc.DWantMuUsed? || pc.DWantMuEvict? || pc.JWantMu? || pc.CWantMu?)
    && !(pc.DWantLock? || pc.CWait? || (pc.VNext? && pc.rest != []))
  }

  lemma RunningCanStep(s: State, t: nat)
    requires Inv(s) && Unfinished(s, t) && WaitsForNone(s.threads[t])
    ensures CanStep(s, t)
  {
    InvSteppable(s, t);
    var pc := s.threads[t];
    assert Phase(s, pc);
    var choice :=
      if pc.DCheckout? then Found(true)
      else if pc.DSpawning? || pc.DCalling? then Succeeds
      else if pc.JSweep? && pc.unvisited != {} then var q :| q in pc.unvisited; Visit(q)
      else if pc.CMark? && pc.unmarked != {} then var e :| e in pc.unmarked; Mark(e)
      else Go;
    assert PlanStep(s, t, choice).Some?;
  }

  lemma MuWaiterCanStep(s: State, t: nat)
    requires Inv(s) && s.mu.None? && t < |s.threads|
    requires var pc := s.threads[t]; pc.DWantMu? || pc.DWantMuUsed? || pc.DWantMuEvict? || pc.JWantMu? || pc.CWantMu?
    ensures CanStep(s, t)
  {
    InvSteppable(s, t);
    assert PlanStep(s, t, Go).Some?;
  }

  /** The entry a goroutine waits to lock. */
  function Awaits(pc: Pc): Option<nat> {
    match pc
    case DWantLock(_, _, e) => Some(e)
    case VNext(_, rest) => if rest == [] then None else Some(rest[0])
    case _ => None
  }

  lemma EntryWaiterMoves(s: State, t: nat)
    requires Inv(s) && LeakInv(s) && t < |s.threads| && Awaits(s.threads[t]).Some?
    ensures exists u :: Unfinished(s, u) && CanStep(s, u)
  {
    InvSteppable(s, t);
    var pc := s.threads[t];
    var e := Awaits(pc).value;
    assert Knows(s, pc);
    if pc.VNext? {
      assert DrainsAt(s, t, e);
      assert ListedRight(s, t, e);
    }
    if s.locks[e].None? {
      assert PlanStep(s, t, Go).Some?;
      assert Unfinished(s, t) && CanStep(s, t);
    } else {
      var u := s.locks[e].value;
      assert Inside(s, u, e) <==> LockedBy(s, e, u);
      RunningCanStep(s, u);
      assert Unfinished(s, u) && CanStep(s, u);
    }
  }

  lemma JanitorMoves(s: State)
    requires Inv(s) && LeakInv(s) && s.mu.None? && s.stopped && s.threads[0] != JDone
    ensures exists u :: Unfinished(s, u) && CanStep(s, u)
  {
    var pc := s.threads[0];
    assert JanitorPc(pc);
    if pc.JWantMu? {
      MuWaiterCanStep(s, 0);
      assert Unfinished(s, 0) && CanStep(s, 0);
    } else if pc.VNext? && pc.rest != [] {
      EntryWaiterMoves(s, 0);
    } else {
      RunningCanStep(s, 0);
      assert Unfinished(s, 0) && CanStep(s, 0);
    }
  }

  lemma CloserMoves(s: State, t: nat)
    requires Inv(s) && LeakInv(s) && s.mu.None? && t < |s.threads| && s.threads[t].CWait?
    ensures exists u :: Unfinished(s, u) && CanStep(s, u)
  {
    InvSteppable(s, t);
    var all := s.threads[t].all;
    assert Knows(s, s.threads[t]);
    if s.threads[0] == JDone {
      var order := SetOrder(all);
      assert (set e | e in order) == all;
      assert PlanStep(s, t, Order(order)).Some?;
      assert Unfinished(s, t) && CanStep(s, t);
    } else {
      JanitorMoves(s);
    }
  }

  lemma NoDeadlock(s: State, t: nat)
    requires Reachable(s) && Unfinished(s, t)
    ensures exists u :: Unfinished(s, u) && CanStep(s, u)
  {
    var states, events :| Run(states, events) && states[|events|] == s;
    RunKeepsLeakInv(states, events, |events|);
    InvSteppable(s, t);
    var pc := s.threads[t];
    if s.mu.Some? {
      var h := s.mu.value;
      assert InsideMu(s, h) <==> s.mu == Some(h);
      RunningCanStep(s, h);
      assert Unfinished(s, h) && CanStep(s, h);
    } else if Awaits(pc).Some? {
      EntryWaiterMoves(s, t);
    } else if pc.CWait? {
      CloserMoves(s, t);
    } else if WaitsForNone(pc) {
      RunningCanStep(s, t);
      assert Unfinished(s, t) && CanStep(s, t);
    } else {
      MuWaiterCanStep(s, t);
      assert Unfinished(s, t) && CanStep(s, t);
    }
  }
}
