/**
 The data of the sibling-process pool and the critical sections of `PoolRouter.mu`,
 as functions on values.

 A pooled entry is identified by its index in `slots`, which holds every entry ever
 created; `entries` is the map a later Dispatch can see.  The entries' own mutexes
 and the goroutines are in PoolMachine.
 */
module PoolSections {

  import opened Options
  import opened Quarters

  /** Who took an entry out of the map. */
  datatype Killer = ByEvict | BySweep | ByClose

  /** `entry.dead`, together with a history of which section set it first. */
  datatype Life = Live | Dead(killer: Killer)

  datatype Slot = Slot(quarter: Quarter, client: Option<nat>, lastUsed: int, life: Life)

  datatype Pool = Pool(slots: seq<Slot>, entries: map<Quarter, nat>, closed: bool) {

    predicate Valid() {
      forall q :: q in entries ==> entries[q] < |slots|
    }

    predicate IsDead(e: nat)
      requires e < |slots|
    {
      slots[e].life.Dead?
    }
  }

  function Kill(life: Life, killer: Killer): Life {
    if life.Live? then Dead(killer) else life
  }

  function KillSlot(p: Pool, e: nat, killer: Killer): Pool
    requires e < |p.slots|
  {
    p.(slots := p.slots[e := p.slots[e].(life := Kill(p.slots[e].life, killer))])
  }

  datatype Lookup = Refused | NotInstalled | Got(e: nat)

  /** checkout: reuse the live mapped entry, else create one if the backend exists. */
  function Checkout(p: Pool, want: Quarter, installed: bool, now: int): (r: (Pool, Lookup))
    requires p.Valid()
  {
    if p.closed then
      (p, Refused)
    else if want in p.entries && !p.IsDead(p.entries[want]) then
      var e := p.entries[want];
      (p.(slots := p.slots[e := p.slots[e].(lastUsed := now)]), Got(e))
    else if !installed then
      (p, NotInstalled)
    else
      var e := |p.slots|;
      (p.(slots := p.slots + [Slot(want, None, now, Live)], entries := p.entries[want := e]), Got(e))
  }

  /** A Dispatch for the quarter can be given an entry that is already there. */
  predicate HasLive(p: Pool, want: Quarter)
    requires p.Valid()
  {
    want in p.entries && p.slots[p.entries[want]].life.Live?
  }

  /** Nothing of the pool but one slot is different. */
  predicate OnlySlot(p: Pool, p': Pool, e: nat) {
    && p'.entries == p.entries && p'.closed == p.closed && |p'.slots| == |p.slots|
    && forall i :: 0 <= i < |p.slots| && i != e ==> p'.slots[i] == p.slots[i]
  }

  /**
   What a checkout may do to the pool, and what it answers: a closed pool refuses, a live
   mapped entry is reused, and only an installed backend gets a new entry.
   */
  lemma CheckoutAnswers(p: Pool, want: Quarter, installed: bool, now: int)
    requires p.Valid()
    ensures var (p', r) := Checkout(p, want, installed, now);
            && (r.Refused? <==> p.closed)
            && (r.NotInstalled? <==> !p.closed && !HasLive(p, want) && !installed)
            && (r.Refused? || r.NotInstalled? ==> p' == p)
            && (!p.closed && HasLive(p, want) ==>
                  && r == Got(p.entries[want]) && OnlySlot(p, p', r.e)
                  && p'.slots[r.e].lastUsed == now && p'.slots[r.e].client == p.slots[r.e].client
                  && p'.slots[r.e].quarter == p.slots[r.e].quarter && p'.slots[r.e].life == Live)
            && (!p.closed && !HasLive(p, want) && installed ==>
                  && r == Got(|p.slots|) && p'.slots == p.slots + [Slot(want, None, now, Live)]
                  && !p'.closed && p'.entries.Keys == p.entries.Keys + {want}
                  && forall q :: q in p'.entries ==> p'.entries[q] == if q == want then |p.slots| else p.entries[q])
  {
  }

  /** markUsed: a dead entry is left alone. */
  function MarkUsed(p: Pool, e: nat, now: int): Pool
    requires e < |p.slots|
  {
    if p.IsDead(e) then p else p.(slots := p.slots[e := p.slots[e].(lastUsed := now)])
  }

  /** evict: unmap the entry if it is still the mapped one, and mark it dead. */
  function Evict(p: Pool, want: Quarter, e: nat): Pool
    requires e < |p.slots|
  {
    var unmapped := if want in p.entries && p.entries[want] == e then p.entries - {want} else p.entries;
    KillSlot(p, e, ByEvict).(entries := unmapped)
  }

  /** One iteration of sweepIdle's loop over the map. */
  predicate Idle(p: Pool, want: Quarter, now: int, idleTimeout: int)
    requires p.Valid() && want in p.entries
  {
    now - p.slots[p.entries[want]].lastUsed >= idleTimeout
  }

  function SweepOne(p: Pool, want: Quarter): Pool
    requires p.Valid() && want in p.entries
  {
    KillSlot(p, p.entries[want], BySweep).(entries := p.entries - {want})
  }

  /** The first half of Close's critical section: the map is taken away. */
  function CloseMap(p: Pool): Pool {
    p.(closed := true, entries := map[])
  }

  function StoreClient(p: Pool, e: nat, client: Option<nat>): Pool
    requires e < |p.slots|
  {
    p.(slots := p.slots[e := p.slots[e].(client := client)])
  }

  // ---- whole loops ----

  /** The map files every entry under its own quarter. */
  predicate AllFiled(p: Pool) {
    p.Valid() && forall q :: q in p.entries ==> p.slots[p.entries[q]].quarter == q
  }

  /** Entry e is mapped under a quarter already visited, and idle. */
  predicate Victim(p: Pool, visited: set<Quarter>, e: nat, now: int, idleTimeout: int)
    requires p.Valid() && e < |p.slots|
  {
    var q := p.slots[e].quarter;
    q in visited && q in p.entries && p.entries[q] == e && Idle(p, q, now, idleTimeout)
  }

  /** sweepIdle's section after it has visited some of the quarters. */
  function Swept(p: Pool, visited: set<Quarter>, now: int, idleTimeout: int): Pool
    requires p.Valid()
  {
    p.(slots := seq(|p.slots|, e requires 0 <= e < |p.slots| =>
         if Victim(p, visited, e, now, idleTimeout) then p.slots[e].(life := Kill(p.slots[e].life, BySweep))
         else p.slots[e]),
       entries := map q | q in p.entries && !(q in visited && Idle(p, q, now, idleTimeout)) :: p.entries[q])
  }

  lemma NothingSwept(p: Pool, now: int, idleTimeout: int)
    requires p.Valid()
    ensures Swept(p, {}, now, idleTimeout) == p
  {
    assert Swept(p, {}, now, idleTimeout).slots == p.slots;
    assert Swept(p, {}, now, idleTimeout).entries == p.entries;
  }

  /** Visiting one more quarter is one iteration of the loop, in any order. */
  lemma SweptOneMore(p: Pool, visited: set<Quarter>, q: Quarter, now: int, idleTimeout: int)
    requires AllFiled(p) && q in p.entries && q !in visited
    ensures var before := Swept(p, visited, now, idleTimeout);
            && before.Valid() && q in before.entries && before.entries[q] == p.entries[q]
            && (Idle(before, q, now, idleTimeout) <==> Idle(p, q, now, idleTimeout))
            && Swept(p, visited + {q}, now, idleTimeout)
               == if Idle(p, q, now, idleTimeout) then SweepOne(before, q) else before
  {
    var before := Swept(p, visited, now, idleTimeout);
    var after := Swept(p, visited + {q}, now, idleTimeout);
    if Idle(p, q, now, idleTimeout) {
      assert after.entries == before.entries - {q};
      assert after.slots == SweepOne(before, q).slots;
    } else {
      assert after.entries == before.entries;
      assert after.slots == before.slots;
    }
  }

  /** Close's section after it has marked some of the entries it captured. */
  function Marked(p: Pool, marked: set<nat>): Pool {
    CloseMap(p).(slots := seq(|p.slots|, e requires 0 <= e < |p.slots| =>
      if e in marked then p.slots[e].(life := Kill(p.slots[e].life, ByClose)) else p.slots[e]))
  }

  lemma MarkedOneMore(p: Pool, marked: set<nat>, e: nat)
    requires e < |p.slots| && e !in marked
    ensures Marked(p, marked + {e}) == KillSlot(Marked(p, marked), e, ByClose)
  {
    assert Marked(p, marked + {e}).slots == KillSlot(Marked(p, marked), e, ByClose).slots;
  }
}
