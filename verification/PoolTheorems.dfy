// What the pool keeps over whole runs, and where it does not do what its callers expect.
module PoolTheorems {
  import opened Events
  import opened Pool
  import opened PoolProtocol

  // The index is the exact inverse of the table; at most one build of a key is under way, and
  // only while the key is cold; builds are the live entries and those taken out; every call was
  // a hit, a build, still early, or left early.
  lemma IndexAndCounts(actions: seq<Action>)
    ensures var s := Exec(actions); var m := s.pool.metrics;
            && (forall k, i :: k in s.pool.entries && s.pool.entries[k].conn.id == i <==>
                               i in s.pool.byConn && s.pool.byConn[i] == k)
            && Exclusive(s)
            && m.builds == |s.pool.entries| + m.evictions + s.h.closed
            && m.acquires == m.cacheHits + m.builds + |Early(s.calls)| + s.h.quits
  {
    RunKeepsInv(actions);
  }

  // A call goes as far as it can: past its key's lock unless another call is building that very
  // key, to the entry if the key is warm and into the factory if it is cold; and to its slot as soon
  // as the entry has a permit.
  lemma CallsMoveOn(s: Sys, i: nat)
    requires i in s.calls
    ensures var h, stage := s.calls[i].handle, s.calls[i].stage;
            && (stage == Queued && (forall j :: j in s.calls && s.calls[j].stage == Building ==>
                                                  s.calls[j].handle.key != h.key) ==>
                  var t := Enter(s, i);
                  if h.key in s.pool.entries then
                    && t.calls == s.calls[i := Call(h, Waiting(s.pool.entries[h.key].conn))]
                    && t.pool.metrics.cacheHits == s.pool.metrics.cacheHits + 1
                  else t.calls == s.calls[i := Call(h, Building)])
            && (stage.Waiting? && stage.conn in s.pool.free && s.pool.free[stage.conn] > 0 ==>
                  var t := Permit(s, i);
                  && h in t.held && t.held[h] == stage.conn && t.calls == s.calls - {i}
                  && t.pool.free == s.pool.free[stage.conn := s.pool.free[stage.conn] - 1])
  {
  }

  // Two builds of one key have a removal of that key between them.
  lemma RebuiltOnlyAfterRemoval(actions: seq<Action>, i: nat, j: nat)
    requires var log := Exec(actions).h.log; i < j < |log| && log[i].Built? && log[j] == log[i]
    ensures exists m :: i < m < j && Exec(actions).h.log[m] == Removed(Exec(actions).h.log[i].key)
  {
    RunKeepsInv(actions);
    var log := Exec(actions).h.log;
    assert RemovedSince(log[..j], i, log[i].key);
    RemovedInside(log, i, j);
  }

  lemma RemovedInside(log: seq<Mark>, i: nat, j: nat)
    requires i < j < |log| && log[i].Built? && RemovedSince(log[..j], i, log[i].key)
    ensures exists m :: i < m < j && log[m] == Removed(log[i].key)
  {
    var m :| i <= m < j && log[..j][m] == Removed(log[i].key);
    assert log[m] == Removed(log[i].key);
  }

  // The slot whose handle a step overwrites with a new one or drops, releasing nothing.
  function Overwritten(s: Sys, a: Action): Option<Handle> {
    match a
    case DoPermit(i) =>
      if i in s.calls && s.calls[i].stage.Waiting? && s.calls[i].stage.conn in s.pool.free
         && s.pool.free[s.calls[i].stage.conn] > 0
      then Some(s.calls[i].handle)
      else None
    case DoEvictEnd(e) => if e in s.evictors && s.evictors[e].pending == [] then s.evictors[e].drop else None
    case _ => None
  }

  predicate LosesPermit(s: Sys, a: Action, c: Conn) {
    var h := Overwritten(s, a);
    h.Some? && h.value in s.held && s.held[h.value] == c && Live(s.pool, c)
  }

  // How often a run has overwritten or dropped a handle of c while c was in the table.
  function Losses(actions: seq<Action>, c: Conn): nat {
    if actions == [] then 0
    else
      var before := actions[..|actions| - 1];
      Losses(before, c) + if LosesPermit(Exec(before), actions[|actions| - 1], c) then 1 else 0
  }

  lemma LostInStep(s: Sys, a: Action, c: Conn)
    ensures Apply(s, a).h.lost[c] == s.h.lost[c] + if LosesPermit(s, a, c) then 1 else 0
  {
  }

  lemma {:induction false} LostIsLosses(actions: seq<Action>, c: Conn)
    ensures Exec(actions).h.lost[c] == Losses(actions, c)
  {
    if actions != [] {
      var before := actions[..|actions| - 1];
      LostIsLosses(before, c);
      LostInStep(Exec(before), actions[|actions| - 1], c);
    }
  }

  // A slot is got again while what it holds is live, or while it is being evicted.
  ghost predicate Regets(s: Sys, a: Action) {
    a.DoPermit? && Overwritten(s, a).Some? &&
    var h := Overwritten(s, a).value;
    || (h in s.held && Live(s.pool, s.held[h]))
    || exists e :: e in s.evictors && s.evictors[e].drop == Some(h)
  }

  // No step of the run does.
  ghost predicate NeverRegets(actions: seq<Action>) {
    forall n :: 0 <= n < |actions| ==> !Regets(Exec(actions[..n]), actions[n])
  }

  lemma RegetInStep(s: Sys, a: Action)
    ensures Apply(s, a).h.reget <==> s.h.reget || Regets(s, a)
  {
  }

  lemma {:induction false} RegetIsAStep(actions: seq<Action>)
    requires NeverRegets(actions)
    ensures !Exec(actions).h.reget
  {
    if actions != [] {
      var before := actions[..|actions| - 1];
      assert forall n :: 0 <= n < |before| ==> before[..n] == actions[..n] && before[n] == actions[n];
      RegetIsAStep(before);
      assert !Regets(Exec(actions[..|actions| - 1]), actions[|actions| - 1]);
      RegetInStep(Exec(before), actions[|actions| - 1]);
    }
  }

  // For every live entry: free permits, slots holding it, and the times a handle of it was
  // overwritten or dropped while it was live make up its cap. That never happens unless a slot is
  // got again while what it holds is live, or while it is being evicted.
  lemma PermitsAreConserved(actions: seq<Action>, k: PoolKey)
    requires k in Exec(actions).pool.entries
    ensures var s := Exec(actions); var c := s.pool.entries[k].conn;
            && c in s.pool.free
            && s.pool.free[c] + |Slots(s.held, c)| + Losses(actions, c) == s.pool.entries[k].max
            && (NeverRegets(actions) ==> Losses(actions, c) == 0)
  {
    if NeverRegets(actions) {
      RegetIsAStep(actions);
    }
    RunKeepsInv(actions);
    LostIsLosses(actions, Exec(actions).pool.entries[k].conn);
    assert Conserved(Exec(actions), k);
  }

  // Releasing a slot gives a permit back to the entry it was taken from if that entry is still
  // there, and to no entry otherwise: never to one rebuilt in its place.
  lemma ReleaseReachesItsOwnEntry(actions: seq<Action>, h: Handle, k: PoolKey)
    requires var s := Exec(actions); h in s.held && k in s.pool.entries
    ensures var s := Exec(actions); var t := ReleaseSlot(s, h); var c := s.pool.entries[k].conn;
            && t.pool.entries == s.pool.entries && c in s.pool.free && c in t.pool.free
            && t.pool.free[c] == s.pool.free[c] + (if k == h.key && c == s.held[h] then 1 else 0)
            && (c.id == s.held[h].id ==> c == s.held[h])
            && t.pool.metrics.releases
               == s.pool.metrics.releases
                  + (if h.key in s.pool.entries && s.pool.entries[h.key].conn == s.held[h] then 1 else 0)
  {
    RunKeepsInv(actions);
    var s := Exec(actions);
    LiveAt(s, h);
    assert Refers(s.pool, s.held[h], h.key);
    assert Conserved(s, k);
  }

  // --- after an eviction ---

  predicate Dead(p: Pool, c: Conn) {
    c.serial < p.metrics.builds && forall k :: k in p.entries ==> p.entries[k].conn != c
  }

  // c is dead and has gained neither a permit nor a holder who was not there.
  ghost predicate StillDead(s: Sys, t: Sys, c: Conn)
    requires c in s.pool.free
  {
    && Dead(t.pool, c) && c in t.pool.free && t.pool.free[c] <= s.pool.free[c]
    && (s.pool.free[c] == 0 ==> Slots(t.held, c) <= Slots(s.held, c))
  }

  lemma DeadPermit(s: Sys, i: nat, c: Conn)
    requires Dead(s.pool, c) && c in s.pool.free
    ensures StillDead(s, Permit(s, i), c)
  {
  }

  lemma DeadRelease(s: Sys, h: Handle, c: Conn)
    requires Indexed(s) && Dead(s.pool, c) && c in s.pool.free
    ensures StillDead(s, ReleaseSlot(s, h), c)
  {
  }

  lemma DeadStep(s: Sys, a: Action, c: Conn)
    requires Indexed(s) && Dead(s.pool, c) && c in s.pool.free
    ensures StillDead(s, Apply(s, a), c)
  {
    if a.DoPermit? {
      DeadPermit(s, a.i, c);
    } else if a.DoRelease? {
      DeadRelease(s, a.handle, c);
    } else if a.DoBuild? {
      DeadBuild(s, a.i, a.id, c);
    } else {
      DeadOther(s, a, c);
    }
  }

  lemma DeadBuild(s: Sys, i: nat, id: nat, c: Conn)
    requires Dead(s.pool, c) && c in s.pool.free
    ensures StillDead(s, FinishBuild(s, i, id), c)
  {
  }

  lemma DeadOther(s: Sys, a: Action, c: Conn)
    requires Dead(s.pool, c) && c in s.pool.free && !a.DoPermit? && !a.DoRelease? && !a.DoBuild?
    ensures StillDead(s, Apply(s, a), c)
  {
    var t := Apply(s, a);
    assert t.pool.free == s.pool.free && t.pool.entries.Keys <= s.pool.entries.Keys;
    assert t.held == s.held || (a.DoEvictEnd? && t.held.Keys <= s.held.Keys);
  }

  // Once its entry has left the table a connection never comes back and its semaphore is never
  // released: with no permit left, whoever waits for one can only time out.
  lemma {:induction false} EvictedWaitersStarve(actions: seq<Action>, later: seq<Action>, c: Conn)
    requires var s := Exec(actions); Dead(s.pool, c) && c in s.pool.free && s.pool.free[c] == 0
    ensures Starved(Exec(actions), Exec(actions + later), c)
  {
    if later == [] {
      assert actions + later == actions;
    } else {
      var n := |later| - 1;
      EvictedWaitersStarve(actions, later[..n], c);
      StarvedSnoc(Exec(actions), actions + later[..n], later[n], c);
      assert actions + later == actions + later[..n] + [later[n]];
    }
  }

  lemma StarvedSnoc(s: Sys, actions: seq<Action>, a: Action, c: Conn)
    requires Starved(s, Exec(actions), c)
    ensures Starved(s, Exec(actions + [a]), c)
  {
    assert (actions + [a])[..|actions|] == actions;
    RunIsIndexed(actions);
    StarvedStep(s, Exec(actions), a, c);
  }

  lemma RunIsIndexed(actions: seq<Action>)
    ensures Indexed(Exec(actions))
  {
    RunKeepsInv(actions);
  }

  // t still has no permit for c, and nobody holds it who did not in s.
  ghost predicate Starved(s: Sys, t: Sys, c: Conn) {
    Dead(t.pool, c) && c in t.pool.free && t.pool.free[c] == 0 && Slots(t.held, c) <= Slots(s.held, c)
  }

  lemma StarvedStep(s: Sys, t: Sys, a: Action, c: Conn)
    requires Indexed(t) && Starved(s, t, c)
    ensures Starved(s, Apply(t, a), c)
  {
    DeadStep(t, a, c);
  }

  // --- KeyError ---

  // A step of evict() or close_all() raises KeyError exactly when the last that happened to its
  // next key since its list was made is a removal. It ends there and takes nothing more out.
  lemma KeyErrorMeansRemovedMeanwhile(actions: seq<Action>, e: nat)
    requires var s := Exec(actions); e in s.evictors && s.evictors[e].pending != []
    ensures var s := Exec(actions); var ev := s.evictors[e];
            && (EvictOne(s, e).h.keyErrors > s.h.keyErrors <==> GoneSince(s.h.log, ev.since, ev.pending[0]))
            && (GoneSince(s.h.log, ev.since, ev.pending[0]) ==>
                  e !in EvictOne(s, e).evictors && EvictOne(s, e).pool == s.pool && EvictOne(s, e).held == s.held)
  {
    RunKeepsInv(actions);
    var s := Exec(actions);
    assert Watched(s, s.evictors[e]);
    assert s.evictors[e].pending[0] in s.evictors[e].pending;
  }

  predicate OneKeyAtATime(a: Action) {
    a.DoEvict? ==> |a.keys| <= 1
  }

  // An eviction of at most one key is over before anyone else can run.
  lemma {:induction false} SingleKeyEvictionsNeverFail(actions: seq<Action>)
    requires forall i :: 0 <= i < |actions| ==> OneKeyAtATime(actions[i])
    ensures Exec(actions).h.keyErrors == 0
    ensures forall e :: e in Exec(actions).evictors ==> Exec(actions).evictors[e].pending == []
  {
    if actions != [] {
      var before, a := actions[..|actions| - 1], actions[|actions| - 1];
      SingleKeyEvictionsNeverFail(before);
      SingleKeyStep(Exec(before), a);
    }
  }

  ghost predicate Idle(s: Sys) {
    s.h.keyErrors == 0 && forall e :: e in s.evictors ==> s.evictors[e].pending == []
  }

  lemma SingleKeyStep(s: Sys, a: Action)
    requires Idle(s) && OneKeyAtATime(a)
    ensures Idle(Apply(s, a))
  {
    if a.DoEvict? && Apply(s, a) != s && a.keys != [] {
      assert a.keys[0] in a.keys;
      assert a.keys[1..] == [];
    }
  }

  // --- two short runs ---

  ghost predicate Reachable(s: Sys) {
    exists actions :: Exec(actions) == s
  }

  lemma StartReachable()
    ensures Reachable(START)
  {
    assert Exec([]) == START;
  }

  lemma ReachStep(s: Sys, a: Action)
    requires Reachable(s)
    ensures Reachable(Apply(s, a))
  {
    var actions :| Exec(actions) == s;
    assert (actions + [a])[..|actions + [a]| - 1] == actions;
    assert Exec(actions + [a]) == Apply(s, a);
  }

  lemma ReachBuilt(s: Sys, h: Handle, id: nat)
    requires Reachable(s) && s.calls == map[] && h.key !in s.pool.entries && Unused(s, id)
    ensures var t := s.(pool := Install(s.pool, h.key, id, h.max),
                        calls := map[0 := Call(h, Waiting(Conn(id, s.pool.metrics.builds)))],
                        h := s.h.(log := s.h.log + [Built(h.key)]));
            Reachable(t.(pool := t.pool.(metrics := t.pool.metrics.(acquires := s.pool.metrics.acquires + 1))))
  {
    ReachBuilding(s, h);
    var t := Begun(s, h);
    ReachStep(t, DoBuild(0, id));
    assert t.calls[0 := Call(h, Waiting(Conn(id, s.pool.metrics.builds)))]
           == map[0 := Call(h, Waiting(Conn(id, s.pool.metrics.builds)))];
  }

  // The first call, inside the factory.
  function Begun(s: Sys, h: Handle): Sys {
    s.(pool := s.pool.(metrics := s.pool.metrics.(acquires := s.pool.metrics.acquires + 1)),
       calls := map[0 := Call(h, Building)])
  }

  lemma ReachBuilding(s: Sys, h: Handle)
    requires Reachable(s) && s.calls == map[] && h.key !in s.pool.entries
    ensures Reachable(Begun(s, h))
  {
    ReachStep(s, DoGet(0, h));
    var t := Apply(s, DoGet(0, h));
    assert t.calls == map[0 := Call(h, Queued)];
    ReachStep(t, DoEnter(0));
    assert t.calls[0 := Call(h, Building)] == map[0 := Call(h, Building)];
  }

  const KEY_A := PoolKey("db", "a", "p")
  const KEY_B := PoolKey("db", "b", "p")
  const SLOT_A := Handle(0, "main", KEY_A, 2)
  const SLOT_B := Handle(1, "main", KEY_B, 2)
  const CONN_A := Conn(1, 0)
  const CONN_B := Conn(2, 1)

  const ONE_ENTRY := Sys(Pool(map[KEY_A := Entry(CONN_A, 2)], map[1 := KEY_A], map[CONN_A := 2],
                              Metrics(1, 0, 1, 0, 0)),
                        map[0 := Call(SLOT_A, Waiting(CONN_A))], map[], map[],
                        History([Built(KEY_A)], multiset{}, false, 0, 0, 0))
  // Two configurations of one reference in the table.
  const TWO_ENTRIES := Sys(Pool(map[KEY_A := Entry(CONN_A, 2), KEY_B := Entry(CONN_B, 2)], map[1 := KEY_A, 2 := KEY_B],
                               map[CONN_A := 2, CONN_B := 2], Metrics(2, 0, 2, 0, 0)),
                          map[0 := Call(SLOT_B, Waiting(CONN_B))], map[], map[],
                          History([Built(KEY_A), Built(KEY_B)], multiset{}, false, 0, 0, 0))

  lemma OneEntryReachable()
    ensures Reachable(ONE_ENTRY)
  {
    StartReachable();
    ReachBuilt(START, SLOT_A, 1);
  }

  lemma TwoEntriesReachable()
    ensures Reachable(TWO_ENTRIES)
  {
    OneEntryReachable();
    ReachStep(ONE_ENTRY, DoGiveUp(0));
    var s := Apply(ONE_ENTRY, DoGiveUp(0));
    assert s == ONE_ENTRY.(calls := map[]);
    assert KEY_A.configHash != KEY_B.configHash;
    ReachBuilt(s, SLOT_B, 2);
    assert [Built(KEY_A)] + [Built(KEY_B)] == [Built(KEY_A), Built(KEY_B)];
  }

  const HALFWAY := TWO_ENTRIES.(
    pool := Pool(map[KEY_B := Entry(CONN_B, 2)], map[2 := KEY_B], map[CONN_A := 2, CONN_B := 2],
                 Metrics(2, 0, 2, 1, 0)),
    evictors := map[0 := Evictor([KEY_B], true, None, 2, OfRef("db", None), [KEY_A, KEY_B])],
    h := History([Built(KEY_A), Built(KEY_B), Removed(KEY_A)], multiset{}, false, 0, 0, 0))

  const FIRST_LISTED := TWO_ENTRIES.(
    evictors := map[0 := Evictor([KEY_A, KEY_B], true, None, 2, OfRef("db", None), [KEY_A, KEY_B])])

  lemma FirstEviction()
    ensures StartEvict(TWO_ENTRIES, 0, OfRef("db", None), [KEY_A, KEY_B], None) == HALFWAY
  {
    assert KEY_A.configHash != KEY_B.configHash;
    assert Listing(TWO_ENTRIES, 0, OfRef("db", None), [KEY_A, KEY_B], None) == FIRST_LISTED;
    FirstPop();
  }

  lemma FirstPop()
    ensures EvictOne(FIRST_LISTED, 0) == HALFWAY
  {
    assert KEY_A.configHash != KEY_B.configHash;
    assert [KEY_A, KEY_B][1..] == [KEY_B];
    var t := EvictOne(FIRST_LISTED, 0);
    assert t.pool.entries == HALFWAY.pool.entries && t.pool.byConn == HALFWAY.pool.byConn;
    assert t.evictors == HALFWAY.evictors;
  }

  // Two evictions of that reference at the same time: the second pops what the first has
  // listed, and the first raises.
  lemma ConcurrentEvictionsCollide()
    ensures Reachable(TWO_ENTRIES) && StartEvict(TWO_ENTRIES, 0, OfRef("db", None), [KEY_A, KEY_B], None) == HALFWAY
    ensures var t := StartEvict(HALFWAY, 1, OfRef("db", None), [KEY_B], None);
            t.h.keyErrors == 0 && EvictOne(t, 0).h.keyErrors == 1
  {
    TwoEntriesReachable();
    FirstEviction();
    SecondPop();
  }

  lemma SecondPop()
    ensures var t := StartEvict(HALFWAY, 1, OfRef("db", None), [KEY_B], None);
            t.h.keyErrors == 0 && 0 in t.evictors && t.evictors[0] == HALFWAY.evictors[0] && t.pool.entries.Keys == {}
  {
    assert Lists(HALFWAY.pool, OfRef("db", None), [KEY_B]);
    var u := Listing(HALFWAY, 1, OfRef("db", None), [KEY_B], None);
    assert u.evictors[1].pending == [KEY_B] && u.pool == HALFWAY.pool && u.evictors[0] == HALFWAY.evictors[0];
  }

  // A slot got twice loses a permit for good: nobody holds the connection any more, yet one of
  // its two permits never comes back.
  lemma SlotGotTwiceLosesAPermit()
    ensures Reachable(ONE_ENTRY)
    ensures var s := Apply(Apply(ONE_ENTRY, DoPermit(0)), DoGet(1, SLOT_A));
            var t := Apply(Apply(Apply(s, DoEnter(1)), DoPermit(1)), DoRelease(SLOT_A));
            t.held == map[] && t.calls == map[] && t.pool.free == map[CONN_A := 1] && t.h.lost[CONN_A] == 1
  {
    OneEntryReachable();
    var s := Apply(Apply(ONE_ENTRY, DoPermit(0)), DoGet(1, SLOT_A));
    assert s.calls == map[1 := Call(SLOT_A, Queued)] && s.held == map[SLOT_A := CONN_A]
           && s.pool.free == map[CONN_A := 1];
    var t := Apply(s, DoEnter(1));
    assert t.calls == map[1 := Call(SLOT_A, Waiting(CONN_A))];
  }
}
