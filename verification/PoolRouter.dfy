/**
 The critical sections of `mu` as methods on the pool's objects, each proved to do what
 its function in PoolSections says.  The loops of sweepIdle and Close are proved to do
 what the machine does one iteration at a time, in whatever order the map is ranged over.
 */
module PoolRouter {

  import opened Options
  import opened Quarters
  import opened PoolSections

  class PooledEntry {
    ghost const id: nat
    const quarter: Quarter
    var client: Option<nat>
    var lastUsed: int
    var dead: bool
    ghost var life: Life   // dead, with who marked it

    constructor (ghost id: nat, quarter: Quarter, now: int)
      ensures this.id == id && this.quarter == quarter && client == None && lastUsed == now && !dead && life == Live
    {
      this.id := id;
      this.quarter := quarter;
      client := None;
      lastUsed := now;
      dead := false;
      life := Live;
    }

    ghost function View(): Slot
      reads this
    {
      Slot(quarter, client, lastUsed, life)
    }
  }

  /** The victims are the idle entries among the quarters visited, each once. */
  ghost predicate VictimsAre(table: seq<PooledEntry>, victims: seq<PooledEntry>, p: Pool, visited: set<Quarter>,
                             now: int, idleTimeout: int)
    requires p.Valid() && |p.slots| == |table|
  {
    && (forall e :: e in victims ==> e.id < |table| && table[e.id] == e && Victim(p, visited, e.id, now, idleTimeout))
    && (forall e: nat :: e < |table| && Victim(p, visited, e, now, idleTimeout) ==> table[e] in victims)
    && (forall i, j :: 0 <= i < j < |victims| ==> victims[i] != victims[j])
  }

  lemma VisitedVictims(table: seq<PooledEntry>, victims: seq<PooledEntry>, p: Pool, visited: set<Quarter>,
                       now: int, idleTimeout: int, want: Quarter, entry: PooledEntry)
    requires AllFiled(p) && |p.slots| == |table| && VictimsAre(table, victims, p, visited, now, idleTimeout)
    requires want in p.entries && want !in visited && p.entries[want] == entry.id && table[entry.id] == entry
    ensures Idle(p, want, now, idleTimeout) ==>
            VictimsAre(table, victims + [entry], p, visited + {want}, now, idleTimeout)
    ensures !Idle(p, want, now, idleTimeout) ==> VictimsAre(table, victims, p, visited + {want}, now, idleTimeout)
  {
  }

  class Router {
    const idleTimeout: int
    var entries: map<Quarter, PooledEntry>
    var closed: bool
    ghost var table: seq<PooledEntry>   // every entry ever created, by id

    ghost predicate Listed(e: PooledEntry)
      reads this, table
    {
      e.id < |table| && table[e.id] == e
    }

    ghost predicate Valid()
      reads this, table
    {
      && (forall i :: 0 <= i < |table| ==> table[i].id == i)
      && (forall i :: 0 <= i < |table| ==> (table[i].dead <==> table[i].life.Dead?))
      && (forall q :: q in entries ==> Listed(entries[q]) && entries[q].quarter == q)
    }

    ghost function Slots(): (slots: seq<Slot>)
      reads this, table
    {
      seq(|table|, i requires 0 <= i < |table| reads this, table => table[i].View())
    }

    ghost function Ids(): map<Quarter, nat>
      reads this
    {
      map q | q in entries :: entries[q].id
    }

    ghost function View(): (p: Pool)
      reads this, table
      requires Valid()
      ensures p.Valid() && |p.slots| == |table|
    {
      assert forall q :: q in entries ==> Listed(entries[q]);
      Pool(Slots(), Ids(), closed)
    }

    /** A change to one entry is a change to one slot. */
    twostate lemma OneSlot(e: PooledEntry)
      requires old(Valid()) && Valid() && old(table) == table && e.id < |table| && e == table[e.id]
      requires forall i :: 0 <= i < |table| && i != e.id ==> unchanged(table[i])
      ensures Slots() == old(Slots())[e.id := e.View()]
    {
    }

    constructor (idleTimeout: int)
      ensures Valid() && View() == Pool([], map[], false) && this.idleTimeout == idleTimeout
    {
      this.idleTimeout := idleTimeout;
      entries := map[];
      closed := false;
      table := [];
    }

    ghost predicate HasLive(want: Quarter)
      reads this, table, entries.Values
    {
      want in entries && !entries[want].dead
    }

    /** checkout, between `mu.Lock` and `mu.Unlock`. */
    method Checkout(want: Quarter, installed: bool, now: int) returns (entry: PooledEntry?, refused: bool)
      requires Valid()
      modifies this, table
      ensures Valid() && |old(table)| <= |table| && table[..|old(table)|] == old(table)
      ensures forall i :: |old(table)| <= i < |table| ==> fresh(table[i])
      ensures View() == PoolSections.Checkout(old(View()), want, installed, now).0
      ensures match PoolSections.Checkout(old(View()), want, installed, now).1
              case Refused => refused && entry == null
              case NotInstalled => !refused && entry == null
              case Got(e) => !refused && e < |table| && entry == table[e]
      ensures refused <==> old(closed)
      ensures entry == null <==> old(closed) || (!old(HasLive(want)) && !installed)
      ensures entry == null || old(HasLive(want)) ==> entries == old(entries) && table == old(table)
      ensures entry != null ==> entry.lastUsed == now && !entry.dead && want in entries && entries[want] == entry
      ensures entry != null && !old(HasLive(want)) ==>
                fresh(entry) && entry.client == None && entry.quarter == want && entries == old(entries)[want := entry]
    {
      entry, refused := null, false;
      assert want in entries ==> Listed(entries[want]);
      if closed {
        refused := true;
      } else if want in entries && !entries[want].dead {
        entry := entries[want];
        Touch(entry, now);
      } else if installed {
        entry := Create(want, now);
      }
    }

    method Touch(entry: PooledEntry, now: int)
      requires Valid() && Listed(entry)
      modifies entry`lastUsed
      ensures Valid() && Listed(entry) && entry.lastUsed == now
      ensures View()
              == old(View()).(slots := old(View()).slots[entry.id := old(View()).slots[entry.id].(lastUsed := now)])
    {
      entry.lastUsed := now;
      assert forall q :: q in entries ==> old(Listed(entries[q]));
      OneSlot(entry);
    }

    method Create(want: Quarter, now: int) returns (entry: PooledEntry)
      requires Valid() && !closed
      modifies this`entries, this`table
      ensures Valid() && fresh(entry) && table == old(table) + [entry] && entry.id == |old(table)|
      ensures entry.View() == Slot(want, None, now, Live) && !entry.dead && entries == old(entries)[want := entry]
      ensures var p := old(View());
              View() == p.(slots := p.slots + [Slot(want, None, now, Live)], entries := p.entries[want := |p.slots|])
    {
      entry := new PooledEntry(|table|, want, now);
      assert forall q :: q in entries ==> old(Listed(entries[q]));
      entries := entries[want := entry];
      table := table + [entry];
      assert Slots() == old(Slots()) + [Slot(want, None, now, Live)];
      assert Ids() == old(Ids())[want := |old(table)|];
    }

    /** `entry.dead = true`. */
    method Kill(entry: PooledEntry, ghost killer: Killer)
      requires Valid() && Listed(entry)
      modifies entry`dead, entry`life
      ensures Valid() && Listed(entry) && entry.dead
      ensures View() == KillSlot(old(View()), entry.id, killer)
    {
      entry.dead := true;
      entry.life := PoolSections.Kill(entry.life, killer);
      assert forall q :: q in entries ==> old(Listed(entries[q]));
      OneSlot(entry);
    }

    /** markUsed, between `mu.Lock` and `mu.Unlock`. */
    method MarkUsed(entry: PooledEntry, now: int)
      requires Valid() && Listed(entry)
      modifies entry`lastUsed
      ensures Valid() && Listed(entry)
      ensures View() == PoolSections.MarkUsed(old(View()), entry.id, now)
      ensures entry.lastUsed == if entry.dead then old(entry.lastUsed) else now
    {
      if !entry.dead {
        Touch(entry, now);
      }
    }

    method Unmap(want: Quarter)
      requires Valid()
      modifies this`entries
      ensures Valid() && entries == old(entries) - {want}
      ensures View() == old(View()).(entries := old(View()).entries - {want})
    {
      assert forall q :: q in entries ==> old(Listed(entries[q]));
      entries := entries - {want};
      assert Ids() == old(Ids()) - {want};
      assert Slots() == old(Slots());
    }

    /** evict, between `mu.Lock` and `mu.Unlock`. */
    method Evict(want: Quarter, entry: PooledEntry)
      requires Valid() && Listed(entry)
      modifies this`entries, entry`dead, entry`life
      ensures Valid() && Listed(entry)
      ensures View() == PoolSections.Evict(old(View()), want, entry.id)
      ensures entry.dead
      ensures entries
              == if want in old(entries) && old(entries)[want] == entry then old(entries) - {want} else old(entries)
    {
      assert want in entries ==> Listed(entries[want]);
      if want in entries && entries[want] == entry {
        Unmap(want);
      }
      Kill(entry, ByEvict);
    }

    /** One iteration of the sweep. */
    method SweepVisit(want: Quarter, entry: PooledEntry, now: int, victims: seq<PooledEntry>,
                      ghost p: Pool, ghost visited: set<Quarter>) returns (victims': seq<PooledEntry>)
      requires Valid() && want in entries && entries[want] == entry
      requires AllFiled(p) && want in p.entries && want !in visited && View() == Swept(p, visited, now, idleTimeout)
      requires VictimsAre(table, victims, p, visited, now, idleTimeout)
      modifies this`entries, entry`dead, entry`life
      ensures Valid() && (forall q :: q in old(entries) && q != want ==> q in entries && entries[q] == old(entries)[q])
      ensures View() == Swept(p, visited + {want}, now, idleTimeout)
      ensures VictimsAre(table, victims', p, visited + {want}, now, idleTimeout)
    {
      assert Listed(entries[want]);
      SweptOneMore(p, visited, want, now, idleTimeout);
      VisitedVictims(table, victims, p, visited, now, idleTimeout, want, entry);
      victims' := victims;
      if now - entry.lastUsed >= idleTimeout {
        Kill(entry, BySweep);
        Unmap(want);
        victims' := victims + [entry];
      }
    }

    lemma ViewFiled()
      requires Valid()
      ensures AllFiled(View())
    {
      assert forall q :: q in entries ==> Listed(entries[q]);
    }

    /** sweepIdle, between `mu.Lock` and `mu.Unlock`. */
    method SweepSection(now: int) returns (victims: seq<PooledEntry>)
      requires Valid()
      modifies this`entries, table
      ensures Valid() && table == old(table)
      ensures View() == Swept(old(View()), old(entries).Keys, now, idleTimeout)
      ensures VictimsAre(table, victims, old(View()), old(entries).Keys, now, idleTimeout)
      ensures forall e :: e in old(table) ==> (e in victims <==> old(MappedIdle(e, now)))
      ensures forall e :: e in old(table) ==> e.dead == (old(e.dead) || e in victims)
      ensures forall e :: e in old(table) ==> e.lastUsed == old(e.lastUsed) && e.client == old(e.client)
      ensures forall q :: q in entries <==> q in old(entries) && old(entries)[q] !in victims
      ensures forall q :: q in entries ==> entries[q] == old(entries)[q]
    {
      ViewFiled();
      NothingSwept(View(), now, idleTimeout);
      assert forall q :: q in entries ==> Listed(entries[q]);
      ghost var p, was := View(), entries;
      victims := SweepLoop(now, p);
      assert p.entries.Keys == was.Keys;
      SweptEntries(p, was, victims, now);
      SweptMap(p, was, victims, now);
      assert forall e :: e in table ==> p.slots[e.id] == old(e.View());
    }

    /** The entry is mapped, and was last used at least the idle timeout ago. */
    ghost predicate MappedIdle(e: PooledEntry, now: int)
      reads this, e
    {
      e.quarter in entries && entries[e.quarter] == e && now - e.lastUsed >= idleTimeout
    }

    /** What the swept pool says about the entries themselves; p and `was` are the pool and its map before. */
    lemma SweptEntries(p: Pool, was: map<Quarter, PooledEntry>, victims: seq<PooledEntry>, now: int)
      requires Valid() && p.Valid() && |p.slots| == |table| && p.entries == map q | q in was :: was[q].id
      requires forall q :: q in was ==> Listed(was[q])
      requires View() == Swept(p, p.entries.Keys, now, idleTimeout)
      requires VictimsAre(table, victims, p, p.entries.Keys, now, idleTimeout)
      ensures forall e :: e in table ==> e.id < |table| && table[e.id] == e
      ensures forall e :: e in table ==> (e in victims <==>
                e.quarter in was && was[e.quarter] == e && now - p.slots[e.id].lastUsed >= idleTimeout)
      ensures forall e :: e in table ==> e.dead == (p.slots[e.id].life.Dead? || e in victims)
      ensures forall e :: e in table ==> e.lastUsed == p.slots[e.id].lastUsed && e.client == p.slots[e.id].client
    {
      forall e | e in table
        ensures e.id < |table| && table[e.id] == e && View().slots[e.id] == e.View()
        ensures e in victims <==> Victim(p, p.entries.Keys, e.id, now, idleTimeout)
      {
      }
    }

    lemma SweptMap(p: Pool, was: map<Quarter, PooledEntry>, victims: seq<PooledEntry>, now: int)
      requires Valid() && AllFiled(p) && |p.slots| == |table| && p.entries == map q | q in was :: was[q].id
      requires forall q :: q in was ==> Listed(was[q])
      requires View() == Swept(p, p.entries.Keys, now, idleTimeout)
      requires VictimsAre(table, victims, p, p.entries.Keys, now, idleTimeout)
      ensures forall q :: q in entries <==> q in was && was[q] !in victims
      ensures forall q :: q in entries ==> entries[q] == was[q]
    {
      forall q ensures q in entries <==> q in was && was[q] !in victims {
        assert q in entries <==> q in View().entries;
        if q in was {
          assert Listed(was[q]) && p.entries[q] == was[q].id;
          assert was[q] in victims <==> Victim(p, p.entries.Keys, was[q].id, now, idleTimeout);
        }
      }
      forall q | q in entries ensures entries[q] == was[q] {
        assert Listed(entries[q]) && Listed(was[q]);
        assert View().entries[q] == entries[q].id && p.entries[q] == was[q].id;
      }
    }

    /** sweepIdle up to its drain loop; an idle timeout that is not positive keeps every entry. */
    method SweepIdle(now: int) returns (victims: seq<PooledEntry>)
      requires Valid()
      modifies this`entries, table
      ensures Valid() && table == old(table)
      ensures idleTimeout <= 0 ==> victims == [] && entries == old(entries) && View() == old(View())
      ensures idleTimeout > 0 ==> forall e :: e in old(table) ==> (e in victims <==> old(MappedIdle(e, now)))
      ensures forall e :: e in old(table) ==> e.dead == (old(e.dead) || e in victims)
      ensures forall q :: q in entries <==> q in old(entries) && old(entries)[q] !in victims
    {
      if idleTimeout <= 0 { return []; }
      victims := SweepSection(now);
    }

    /** Its range over the map. */
    method SweepLoop(now: int, ghost p: Pool) returns (victims: seq<PooledEntry>)
      requires Valid() && AllFiled(p) && |p.slots| == |table| && p.entries == Ids()
      requires View() == Swept(p, {}, now, idleTimeout)
      modifies this`entries, table
      ensures Valid() && table == old(table)
      ensures View() == Swept(p, p.entries.Keys, now, idleTimeout)
      ensures VictimsAre(table, victims, p, p.entries.Keys, now, idleTimeout)
    {
      victims := [];
      var all := entries;
      assert forall q :: q in entries ==> Listed(entries[q]);
      var pending := entries.Keys;
      ghost var visited: set<Quarter> := {};
      while pending != {}
        invariant Valid() && table == old(table)
        invariant pending !! visited && pending + visited == p.entries.Keys == all.Keys
        invariant forall q :: q in pending ==> q in entries && entries[q] == all[q]
        invariant View() == Swept(p, visited, now, idleTimeout)
        invariant VictimsAre(table, victims, p, visited, now, idleTimeout)
        decreases pending
      {
        var want :| want in pending;
        victims := SweepVisit(want, all[want], now, victims, p, visited);
        pending := pending - {want};
        visited := visited + {want};
      }
      assert visited == p.entries.Keys;
    }

    /**
     Close, between `mu.Lock` and `mu.Unlock`: the first call captures the map, and
     leaves none and every captured entry dead; a later one changes nothing.
     */
    method CloseSection() returns (captured: map<Quarter, PooledEntry>, first: bool)
      requires Valid()
      modifies this`entries, this`closed, table
      ensures Valid() && table == old(table)
      ensures first <==> !old(closed)
      ensures first ==> captured == old(entries) && View() == Marked(old(View()), old(View()).entries.Values)
      ensures !first ==> captured == map[] && View() == old(View())
      ensures closed && (first ==> entries == map[])
      ensures forall e :: e in old(table) ==> e.dead == (old(e.dead) || e in captured.Values)
    {
      if closed {
        return map[], false;
      }
      first, captured := true, entries;
      ghost var p := View();
      assert forall q :: q in entries ==> old(Listed(entries[q]));
      closed := true;
      entries := map[];
      assert View() == Marked(p, {}) by {
        assert Slots() == Marked(p, {}).slots;
        assert Ids() == map[];
      }
      MarkCaptured(captured, p);
      MarkedEntries(p, captured);
      assert forall e :: e in table ==> p.slots[e.id] == old(e.View());
    }

    /** Its range over the captured map. */
    method MarkCaptured(captured: map<Quarter, PooledEntry>, ghost p: Pool)
      requires Valid() && View() == Marked(p, {}) && p.entries == map q | q in captured :: captured[q].id
      requires forall q :: q in captured ==> Listed(captured[q]) && captured[q].quarter == q
      modifies table
      ensures Valid() && View() == Marked(p, p.entries.Values)
      ensures forall q :: q in captured ==> Listed(captured[q])
    {
      ghost var marked: set<nat> := {};
      var pending := captured.Keys;
      while pending != {}
        invariant Valid() && pending <= captured.Keys
        invariant forall q :: q in captured ==> Listed(captured[q]) && captured[q].quarter == q
        invariant marked == set q | q in captured.Keys - pending :: captured[q].id
        invariant View() == Marked(p, marked)
        decreases pending
      {
        var want :| want in pending;
        var entry := captured[want];
        assert entry.id !in marked;
        MarkedOneMore(p, marked, entry.id);
        Kill(entry, ByClose);
        pending := pending - {want};
        marked := marked + {entry.id};
      }
      ValuesAreIds(captured, p.entries, marked);
    }

    /** What the closed pool says about the entries themselves. */
    lemma MarkedEntries(p: Pool, captured: map<Quarter, PooledEntry>)
      requires Valid() && p.Valid() && |p.slots| == |table| && p.entries == map q | q in captured :: captured[q].id
      requires forall q :: q in captured ==> Listed(captured[q])
      requires View() == Marked(p, p.entries.Values)
      ensures forall e :: e in table ==> e.id < |table| && table[e.id] == e
      ensures forall e :: e in table ==> e.dead == (p.slots[e.id].life.Dead? || e in captured.Values)
    {
      forall e | e in table
        ensures e.id < |table| && table[e.id] == e && View().slots[e.id] == e.View()
        ensures e in captured.Values <==> e.id in p.entries.Values
      {
        if e in captured.Values {
          var q :| q in captured && captured[q] == e;
          assert p.entries[q] == e.id;
        }
        if e.id in p.entries.Values {
          var q :| q in p.entries && p.entries[q] == e.id;
          assert Listed(captured[q]);
        }
      }
    }

    lemma ValuesAreIds(captured: map<Quarter, PooledEntry>, ids: map<Quarter, nat>, marked: set<nat>)
      requires ids == map q | q in captured :: captured[q].id
      requires marked == set q | q in captured.Keys :: captured[q].id
      ensures marked == ids.Values
    {
      forall x | x in marked ensures x in ids.Values {
        var q :| q in captured.Keys && captured[q].id == x;
        assert ids[q] == x;
      }
      forall x | x in ids.Values ensures x in marked {
        var q :| q in ids && ids[q] == x;
        assert q in captured.Keys;
      }
    }

    /** The drain loop's body, inside the entry's mutex. */
    method TakeClient(entry: PooledEntry) returns (c: Option<nat>)
      requires Valid() && Listed(entry)
      modifies entry`client
      ensures Valid() && Listed(entry)
      ensures c == old(entry.client) && View() == StoreClient(old(View()), entry.id, None)
    {
      c := entry.client;
      entry.client := None;
      assert forall q :: q in entries ==> old(Listed(entries[q]));
      OneSlot(entry);
    }
  }
}
