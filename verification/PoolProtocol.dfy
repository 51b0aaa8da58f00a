// The pool's invariants and what follows from them, over every interleaving of calls, builds,
// releases and evictions.
module PoolProtocol {
  import opened Events
  import opened Pool

  // --- the index ---

  // _by_conn_id is the exact inverse of _entries.
  ghost predicate Inverse(p: Pool) {
    && (forall k :: k in p.entries ==> p.entries[k].conn.id in p.byConn && p.byConn[p.entries[k].conn.id] == k)
    && forall i :: i in p.byConn ==> p.byConn[i] in p.entries && p.entries[p.byConn[i]].conn.id == i
  }

  // A reference to an object built for key: no other entry has taken over its id.
  ghost predicate Refers(p: Pool, c: Conn, key: PoolKey) {
    && c.serial < p.metrics.builds && c in p.free
    && forall k :: k in p.entries && p.entries[k].conn.id == c.id ==> p.entries[k].conn == c && k == key
  }

  ghost predicate References(s: Sys) {
    && (forall k :: k in s.pool.entries ==> Refers(s.pool, s.pool.entries[k].conn, k))
    && (forall h :: h in s.held ==> Refers(s.pool, s.held[h], h.key))
    && (forall i :: i in s.calls && s.calls[i].stage.Waiting? ==>
        Refers(s.pool, s.calls[i].stage.conn, s.calls[i].handle.key))
  }

  ghost predicate Indexed(s: Sys) {
    Inverse(s.pool) && References(s) && forall c :: c in s.pool.free ==> c.serial < s.pool.metrics.builds
  }

  lemma InstallKeepsReference(p: Pool, key: PoolKey, id: nat, max: nat, c: Conn, k: PoolKey)
    requires Refers(p, c, k) && c.id != id && key !in p.entries
    ensures Refers(Install(p, key, id, max), c, k)
  {
  }

  lemma InstallReferences(s: Sys, key: PoolKey, id: nat, max: nat)
    requires Indexed(s) && key !in s.pool.entries && Unused(s, id)
    ensures var p := Install(s.pool, key, id, max);
            && Inverse(p) && Refers(p, Conn(id, s.pool.metrics.builds), key)
            && (forall k :: k in p.entries ==> Refers(p, p.entries[k].conn, k))
  {
    var p := Install(s.pool, key, id, max);
    assert id !in s.pool.byConn;
    forall k | k in p.entries ensures Refers(p, p.entries[k].conn, k) {
      if k != key {
        InstallKeepsReference(s.pool, key, id, max, s.pool.entries[k].conn, k);
      }
    }
  }

  lemma IndexBuild(s: Sys, i: nat, id: nat)
    requires Indexed(s) && Exclusive(s)
    ensures Indexed(FinishBuild(s, i, id))
  {
    var t := FinishBuild(s, i, id);
    if t != s {
      var h := s.calls[i].handle;
      InstallReferences(s, h.key, id, h.max);
      forall g | g in t.held ensures Refers(t.pool, t.held[g], g.key) {
        InstallKeepsReference(s.pool, h.key, id, h.max, s.held[g], g.key);
      }
      forall j | j in t.calls && t.calls[j].stage.Waiting?
        ensures Refers(t.pool, t.calls[j].stage.conn, t.calls[j].handle.key)
      {
        if j != i {
          InstallKeepsReference(s.pool, h.key, id, h.max, s.calls[j].stage.conn, s.calls[j].handle.key);
        }
      }
    }
  }

  lemma RemoveKeepsReferences(p: Pool, key: PoolKey, counted: bool)
    requires Inverse(p) && key in p.entries
    ensures Inverse(Remove(p, key, counted))
    ensures forall c, k :: Refers(p, c, k) ==> Refers(Remove(p, key, counted), c, k)
  {
  }

  lemma IndexEvict(s: Sys, e: nat)
    requires Indexed(s)
    ensures Indexed(EvictOne(s, e))
  {
    if e in s.evictors && s.evictors[e].pending != [] && s.evictors[e].pending[0] in s.pool.entries {
      RemoveKeepsReferences(s.pool, s.evictors[e].pending[0], s.evictors[e].counted);
    }
  }

  predicate SameTable(p: Pool, q: Pool) {
    q.entries == p.entries && q.byConn == p.byConn && q.metrics.builds == p.metrics.builds && q.free.Keys == p.free.Keys
  }

  lemma IndexFrame(s: Sys, t: Sys)
    requires Indexed(s) && SameTable(s.pool, t.pool)
    requires forall h :: h in t.held ==> (h in s.held && t.held[h] == s.held[h]) || Refers(s.pool, t.held[h], h.key)
    requires forall i :: i in t.calls && t.calls[i].stage.Waiting? ==>
                           (i in s.calls && t.calls[i] == s.calls[i])
                           || Refers(s.pool, t.calls[i].stage.conn, t.calls[i].handle.key)
    ensures Indexed(t)
  {
    assert forall c, k :: Refers(s.pool, c, k) ==> Refers(t.pool, c, k);
  }

  lemma IndexStep(s: Sys, a: Action)
    requires Indexed(s) && Exclusive(s)
    ensures Indexed(Apply(s, a))
  {
    match a
    case DoBuild(i, id) => IndexBuild(s, i, id);
    case DoEvict(e, scope, keys, drop) =>
      IndexListing(s, e, scope, keys, drop);
      IndexEvict(Listing(s, e, scope, keys, drop), e);
    case DoEvictNext(e) => IndexEvict(s, e);
    case DoGet(i, h) => IndexGet(s, i, h);
    case DoEnter(i) => IndexEnter(s, i);
    case DoGiveUp(i) => IndexGiveUp(s, i);
    case DoPermit(i) => IndexPermit(s, i);
    case DoRelease(h) => IndexRelease(s, h);
    case DoEvictEnd(e) => IndexEnd(s, e);
  }

  lemma IndexListing(s: Sys, e: nat, scope: Scope, keys: seq<PoolKey>, drop: Option<Handle>)
    requires Indexed(s)
    ensures Indexed(Listing(s, e, scope, keys, drop))
  {
    IndexFrame(s, Listing(s, e, scope, keys, drop));
  }

  lemma IndexGet(s: Sys, i: nat, h: Handle)
    requires Indexed(s)
    ensures Indexed(Get(s, i, h))
  {
    IndexFrame(s, Get(s, i, h));
  }

  lemma IndexGiveUp(s: Sys, i: nat)
    requires Indexed(s)
    ensures Indexed(GiveUp(s, i))
  {
    IndexFrame(s, GiveUp(s, i));
  }

  lemma IndexRelease(s: Sys, h: Handle)
    requires Indexed(s)
    ensures Indexed(ReleaseSlot(s, h))
  {
    IndexFrame(s, ReleaseSlot(s, h));
  }

  lemma IndexEnd(s: Sys, e: nat)
    requires Indexed(s)
    ensures Indexed(EndEvict(s, e))
  {
    IndexFrame(s, EndEvict(s, e));
  }

  lemma IndexEnter(s: Sys, i: nat)
    requires Indexed(s)
    ensures Indexed(Enter(s, i))
  {
    var t := Enter(s, i);
    if t != s {
      var k := s.calls[i].handle.key;
      assert k in s.pool.entries ==> Refers(s.pool, s.pool.entries[k].conn, k);
      assert t.calls.Keys == s.calls.Keys && t.held == s.held;
      IndexFrame(s, t);
    }
  }

  lemma IndexPermit(s: Sys, i: nat)
    requires Indexed(s)
    ensures Indexed(Permit(s, i))
  {
    var t := Permit(s, i);
    if t != s {
      assert Refers(s.pool, s.calls[i].stage.conn, s.calls[i].handle.key);
      IndexFrame(s, t);
    }
  }

  // --- one build at a time ---

  predicate BuildSame(c: Call, d: Call) {
    c.stage.Building? && d.stage.Building? && c.handle.key == d.handle.key
  }

  ghost predicate Exclusive(s: Sys) {
    && (forall i :: i in s.calls && s.calls[i].stage.Building? ==> s.calls[i].handle.key !in s.pool.entries)
    && forall i, j :: i in s.calls && j in s.calls && BuildSame(s.calls[i], s.calls[j]) ==> i == j
  }

  lemma ExclusiveStep(s: Sys, a: Action)
    requires Exclusive(s)
    ensures Exclusive(Apply(s, a))
  {
  }

  // --- builds, removals, calls ---

  function Early(calls: map<nat, Call>): set<nat> {
    set i | i in calls && !calls[i].stage.Waiting?
  }

  ghost predicate Balanced(s: Sys) {
    var m := s.pool.metrics;
    && m.builds == |s.pool.entries| + m.evictions + s.h.closed
    && m.acquires == m.cacheHits + m.builds + |Early(s.calls)| + s.h.quits
  }

  lemma EarlyPut(calls: map<nat, Call>, i: nat, c: Call)
    ensures |Early(calls[i := c])|
            == |Early(calls)| - (if i in Early(calls) then 1 else 0) + if c.stage.Waiting? then 0 else 1
  {
    var rest := Early(calls) - {i};
    assert Early(calls[i := c]) == rest + if c.stage.Waiting? then {} else {i};
    assert i !in rest;
  }

  lemma EarlyDrop(calls: map<nat, Call>, i: nat)
    ensures |Early(calls - {i})| == |Early(calls)| - if i in Early(calls) then 1 else 0
  {
    assert Early(calls - {i}) == Early(calls) - {i};
  }

  lemma BalancedStep(s: Sys, a: Action)
    requires Balanced(s) && Exclusive(s)
    ensures Balanced(Apply(s, a))
  {
    match a
    case DoGet(i, h) => EarlyPut(s.calls, i, Call(h, Queued));
    case DoEnter(i) => BalancedEnter(s, i);
    case DoBuild(i, id) => BalancedBuild(s, i, id);
    case DoGiveUp(i) => EarlyDrop(s.calls, i);
    case DoPermit(i) => EarlyDrop(s.calls, i);
    case DoRelease(h) =>
    case DoEvict(e, scope, keys, drop) =>
      BalancedEvict(Listing(s, e, scope, keys, drop), e);
    case DoEvictNext(e) => BalancedEvict(s, e);
    case DoEvictEnd(e) =>
  }

  lemma BalancedEnter(s: Sys, i: nat)
    requires Balanced(s)
    ensures Balanced(Enter(s, i))
  {
    if i in s.calls {
      var h := s.calls[i].handle;
      EarlyPut(s.calls, i, Call(h, Building));
      if h.key in s.pool.entries {
        EarlyPut(s.calls, i, Call(h, Waiting(s.pool.entries[h.key].conn)));
      }
    }
  }

  lemma BalancedBuild(s: Sys, i: nat, id: nat)
    requires Balanced(s) && Exclusive(s)
    ensures Balanced(FinishBuild(s, i, id))
  {
    if i in s.calls {
      EarlyPut(s.calls, i, Call(s.calls[i].handle, Waiting(Conn(id, s.pool.metrics.builds))));
    }
  }

  lemma BalancedEvict(s: Sys, e: nat)
    requires Balanced(s)
    ensures Balanced(EvictOne(s, e))
  {
  }

  // --- the log ---

  // key is removed at or after position `from`.
  ghost predicate RemovedSince(log: seq<Mark>, from: nat, key: PoolKey) {
    exists m :: from <= m < |log| && log[m] == Removed(key)
  }

  ghost predicate Logged(s: Sys) {
    && (forall i :: 0 <= i < |s.h.log| && s.h.log[i].Built? && s.h.log[i].key !in s.pool.entries
                    ==> RemovedSince(s.h.log, i, s.h.log[i].key))
    && (forall i, j :: 0 <= i < j < |s.h.log| && s.h.log[i].Built? && s.h.log[j] == s.h.log[i]
                       ==> RemovedSince(s.h.log[..j], i, s.h.log[i].key))
    && forall e :: e in s.evictors ==> Watched(s, s.evictors[e])
  }

  // The last mark of key at or after position `from` is a removal.
  ghost predicate GoneSince(log: seq<Mark>, from: nat, key: PoolKey) {
    exists m :: RemovedLast(log, from, key, m)
  }

  ghost predicate RemovedLast(log: seq<Mark>, from: nat, key: PoolKey, m: nat) {
    from <= m < |log| && log[m] == Removed(key) && forall n :: m < n < |log| ==> log[n] != Built(key)
  }

  // A key an evictor has yet to pop is missing exactly if it was removed since its list was made
  // and not built again.
  ghost predicate Watched(s: Sys, ev: Evictor) {
    && ev.since <= |s.h.log|
    && (forall i, j :: 0 <= i < j < |ev.pending| ==> ev.pending[i] != ev.pending[j])
    && forall k :: k in ev.pending ==> (k !in s.pool.entries <==> GoneSince(s.h.log, ev.since, k))
  }

  lemma SinceGrows(log: seq<Mark>, m: Mark, from: nat, key: PoolKey)
    ensures RemovedSince(log, from, key) ==> RemovedSince(log + [m], from, key)
    ensures m == Removed(key) && from <= |log| ==> RemovedSince(log + [m], from, key)
  {
    if RemovedSince(log, from, key) {
      var i :| from <= i < |log| && log[i] == Removed(key);
      assert (log + [m])[i] == Removed(key);
    }
    assert (log + [m])[|log|] == m;
  }

  lemma GoneGrows(log: seq<Mark>, m: Mark, from: nat, key: PoolKey)
    requires from <= |log|
    ensures GoneSince(log + [m], from, key) <==> m == Removed(key) || (m != Built(key) && GoneSince(log, from, key))
  {
    var longer := log + [m];
    assert forall i :: 0 <= i < |log| ==> longer[i] == log[i];
    if m == Removed(key) {
      assert RemovedLast(longer, from, key, |log|);
    } else if m != Built(key) && GoneSince(log, from, key) {
      var i: nat :| RemovedLast(log, from, key, i);
      assert RemovedLast(longer, from, key, i);
    }
    if GoneSince(longer, from, key) && m != Removed(key) {
      var i: nat :| RemovedLast(longer, from, key, i);
      assert longer[|log|] == m;
      assert RemovedLast(log, from, key, i);
    }
  }

  lemma LogGrows(s: Sys, t: Sys, m: Mark)
    requires Logged(s) && t.h.log == s.h.log + [m]
    requires if m.Built? then m.key !in s.pool.entries && t.pool.entries.Keys == s.pool.entries.Keys + {m.key}
             else t.pool.entries.Keys == s.pool.entries.Keys - {m.key}
    requires forall e :: e in t.evictors ==> e in s.evictors && t.evictors[e].since == s.evictors[e].since
                                             && t.evictors[e].pending == s.evictors[e].pending
    ensures Logged(t)
  {
    var log, n := s.h.log, |s.h.log|;
    forall i | 0 <= i < n + 1 && t.h.log[i].Built? && t.h.log[i].key !in t.pool.entries
      ensures RemovedSince(t.h.log, i, t.h.log[i].key)
    {
      SinceGrows(log, m, i, t.h.log[i].key);
    }
    forall i, j | 0 <= i < j < n + 1 && t.h.log[i].Built? && t.h.log[j] == t.h.log[i]
      ensures RemovedSince(t.h.log[..j], i, t.h.log[i].key)
    {
      assert t.h.log[..j] == log[..j];
      if j == n {
        assert log[..n] == log;
      }
    }
    forall e | e in t.evictors ensures Watched(t, t.evictors[e]) {
      assert Watched(s, s.evictors[e]);
      forall k | k in t.evictors[e].pending
        ensures k !in t.pool.entries <==> GoneSince(t.h.log, t.evictors[e].since, k)
      {
        GoneGrows(log, m, s.evictors[e].since, k);
      }
    }
  }

  lemma LogEvict(s: Sys, e: nat)
    requires Logged(s)
    ensures Logged(EvictOne(s, e))
  {
    var t := EvictOne(s, e);
    if t != s && t.h.log != s.h.log {
      var ev := s.evictors[e];
      assert Watched(s, ev);
      var rest := ev.(pending := ev.pending[1..]);
      assert Watched(s, rest);
      LogGrows(s.(evictors := s.evictors[e := rest]), t, Removed(ev.pending[0]));
    }
  }

  lemma LogStep(s: Sys, a: Action)
    requires Logged(s) && Exclusive(s)
    ensures Logged(Apply(s, a))
  {
    match a
    case DoBuild(i, id) => LogBuild(s, i, id);
    case DoEvict(e, scope, keys, drop) =>
      if StartEvict(s, e, scope, keys, drop) != s {
        LogListing(s, e, scope, keys, drop);
        LogEvict(Listing(s, e, scope, keys, drop), e);
      }
    case DoEvictNext(e) => LogEvict(s, e);
    case _ => LogOther(s, a);
  }

  lemma LogBuild(s: Sys, i: nat, id: nat)
    requires Logged(s) && Exclusive(s)
    ensures Logged(FinishBuild(s, i, id))
  {
    var t := FinishBuild(s, i, id);
    if t != s {
      LogGrows(s, t, Built(s.calls[i].handle.key));
    }
  }

  lemma LogOther(s: Sys, a: Action)
    requires Logged(s) && !a.DoBuild? && !a.DoEvict? && !a.DoEvictNext?
    ensures Logged(Apply(s, a))
  {
    LogFrame(s, Apply(s, a));
  }

  lemma LogListing(s: Sys, e: nat, scope: Scope, keys: seq<PoolKey>, drop: Option<Handle>)
    requires Logged(s) && Lists(s.pool, scope, keys)
    ensures Logged(Listing(s, e, scope, keys, drop))
  {
  }

  lemma LogFrame(s: Sys, t: Sys)
    requires Logged(s) && t.h.log == s.h.log && t.pool.entries == s.pool.entries
    requires forall e :: e in t.evictors ==> e in s.evictors && t.evictors[e] == s.evictors[e]
    ensures Logged(t)
  {
  }

  // --- permits ---

  ghost predicate Conserved(s: Sys, k: PoolKey)
    requires k in s.pool.entries
  {
    var c := s.pool.entries[k].conn;
    c in s.pool.free && s.pool.free[c] + |Slots(s.held, c)| + s.h.lost[c] == s.pool.entries[k].max
  }

  ghost predicate AllConserved(s: Sys) {
    && (forall k :: k in s.pool.entries ==> Conserved(s, k))
    && forall c :: c in s.h.lost ==> c.serial < s.pool.metrics.builds
  }

  lemma ForgetConserves(s: Sys, h: Handle, c: Conn)
    requires h in s.held
    ensures var t := Forget(s, h);
            |Slots(t.held, c)| + t.h.lost[c] == |Slots(s.held, c)| + s.h.lost[c]
            || (s.held[h] == c && !Live(s.pool, c))
  {
    SlotsMinus(s.held, h, c);
  }

  lemma LiveEntry(s: Sys, k: PoolKey)
    requires Indexed(s) && k in s.pool.entries
    ensures Live(s.pool, s.pool.entries[k].conn)
  {
  }

  lemma PermitConserves(s: Sys, i: nat)
    requires Indexed(s) && AllConserved(s)
    ensures AllConserved(Permit(s, i))
  {
    var t := Permit(s, i);
    if t != s {
      var h, c := s.calls[i].handle, s.calls[i].stage.conn;
      forall k | k in t.pool.entries ensures Conserved(t, k) {
        assert Conserved(s, k);
        LiveEntry(s, k);
        TakesOver(s, h, c, s.pool.entries[k].conn);
      }
    }
  }

  // h gets c, and what it held before is forgotten.
  lemma TakesOver(s: Sys, h: Handle, c: Conn, d: Conn)
    requires Live(s.pool, d)
    ensures var f := Forget(s, h);
            |Slots(f.held[h := c], d)| + f.h.lost[d] == |Slots(s.held, d)| + s.h.lost[d] + if c == d then 1 else 0
  {
    var f := Forget(s, h);
    if h in s.held {
      ForgetConserves(s, h, d);
    } else {
      assert f.held == s.held;
    }
    SlotsPlus(f.held, h, c, d);
  }

  lemma ReleaseConserves(s: Sys, h: Handle)
    requires Indexed(s) && AllConserved(s)
    ensures AllConserved(ReleaseSlot(s, h))
  {
    var t := ReleaseSlot(s, h);
    if t != s {
      forall k | k in t.pool.entries ensures Conserved(t, k) {
        assert Conserved(s, k);
        LiveEntry(s, k);
        SlotsMinus(s.held, h, s.pool.entries[k].conn);
      }
    }
  }

  lemma EndConserves(s: Sys, e: nat)
    requires Indexed(s) && AllConserved(s)
    ensures AllConserved(EndEvict(s, e))
  {
    var t := EndEvict(s, e);
    if t != s && s.evictors[e].drop.Some? && s.evictors[e].drop.value in s.held {
      forall k | k in t.pool.entries ensures Conserved(t, k) {
        assert Conserved(s, k);
        LiveEntry(s, k);
        ForgetConserves(s.(evictors := s.evictors - {e}), s.evictors[e].drop.value, s.pool.entries[k].conn);
      }
    } else if t != s {
      assert t.held == s.held;
      forall k | k in t.pool.entries ensures Conserved(t, k) {
        assert Conserved(s, k);
      }
    }
  }

  lemma BuildConserves(s: Sys, i: nat, id: nat)
    requires Indexed(s) && Exclusive(s) && AllConserved(s)
    ensures AllConserved(FinishBuild(s, i, id))
  {
  }

  lemma ConservedStep(s: Sys, a: Action)
    requires Indexed(s) && Exclusive(s) && AllConserved(s)
    ensures AllConserved(Apply(s, a))
  {
    match a
    case DoBuild(i, id) => BuildConserves(s, i, id);
    case DoPermit(i) => PermitConserves(s, i);
    case DoRelease(h) => ReleaseConserves(s, h);
    case DoEvictEnd(e) => EndConserves(s, e);
    case DoEvict(e, scope, keys, drop) =>
      EvictConserves(Listing(s, e, scope, keys, drop), e);
    case DoEvictNext(e) => EvictConserves(s, e);
    case _ => CallConserves(s, a);
  }

  lemma CallConserves(s: Sys, a: Action)
    requires AllConserved(s) && (a.DoGet? || a.DoEnter? || a.DoGiveUp?)
    ensures AllConserved(Apply(s, a))
  {
    FrameConserves(s, Apply(s, a));
  }

  lemma EvictConserves(s: Sys, e: nat)
    requires AllConserved(s)
    ensures AllConserved(EvictOne(s, e))
  {
    FrameConserves(s, EvictOne(s, e));
  }

  lemma FrameConserves(s: Sys, t: Sys)
    requires AllConserved(s) && t.held == s.held && t.h.lost == s.h.lost && t.pool.free == s.pool.free
    requires t.pool.metrics.builds == s.pool.metrics.builds
    requires forall k :: k in t.pool.entries ==> k in s.pool.entries && t.pool.entries[k] == s.pool.entries[k]
    ensures AllConserved(t)
  {
  }

  // --- no permit is lost unless a slot is got again ---

  // The slot an evictor will forget is dead by then.
  ghost predicate DropIsDead(s: Sys, ev: Evictor) {
    ev.drop.Some? && ev.drop.value in s.held && Live(s.pool, s.held[ev.drop.value]) ==> ev.drop.value.key in ev.pending
  }

  ghost predicate Careful(s: Sys) {
    !s.h.reget ==> s.h.lost == multiset{} && forall e :: e in s.evictors ==> DropIsDead(s, s.evictors[e])
  }

  lemma LiveAt(s: Sys, h: Handle)
    requires Indexed(s) && h in s.held
    ensures Live(s.pool, s.held[h]) <==> h.key in s.pool.entries && s.pool.entries[h.key].conn == s.held[h]
  {
    assert Refers(s.pool, s.held[h], h.key);
  }

  lemma CarefulEvict(s: Sys, e: nat)
    requires Indexed(s) && Careful(s)
    ensures Careful(EvictOne(s, e))
  {
  }

  lemma CarefulStart(s: Sys, e: nat, scope: Scope, keys: seq<PoolKey>, drop: Option<Handle>)
    requires Indexed(s) && Careful(s)
    ensures Careful(StartEvict(s, e, scope, keys, drop))
  {
    if StartEvict(s, e, scope, keys, drop) != s {
      var u := Listing(s, e, scope, keys, drop);
      if drop.Some? {
        LiveAt(s, drop.value);
        assert DropIsDead(u, u.evictors[e]);
      }
      assert Careful(u) by {
        if !s.h.reget {
          forall g | g in u.evictors ensures DropIsDead(u, u.evictors[g]) {
            assert g != e ==> DropIsDead(s, s.evictors[g]);
          }
        }
      }
      CarefulEvict(u, e);
    }
  }

  lemma CarefulBuild(s: Sys, i: nat, id: nat)
    requires Indexed(s) && Exclusive(s) && Careful(s)
    ensures Careful(FinishBuild(s, i, id))
  {
  }

  lemma CarefulPermit(s: Sys, i: nat)
    requires Careful(s)
    ensures Careful(Permit(s, i))
  {
  }

  lemma CarefulOther(s: Sys, a: Action)
    requires Careful(s) && !a.DoBuild? && !a.DoPermit? && !a.DoEvict? && !a.DoEvictNext?
    ensures Careful(Apply(s, a))
  {
  }

  lemma CarefulStep(s: Sys, a: Action)
    requires Indexed(s) && Exclusive(s) && Careful(s)
    ensures Careful(Apply(s, a))
  {
    match a
    case DoBuild(i, id) => CarefulBuild(s, i, id);
    case DoPermit(i) => CarefulPermit(s, i);
    case DoEvict(e, scope, keys, drop) => CarefulStart(s, e, scope, keys, drop);
    case DoEvictNext(e) => CarefulEvict(s, e);
    case _ => CarefulOther(s, a);
  }

  // --- every run ---

  ghost predicate Inv(s: Sys) {
    Indexed(s) && Exclusive(s) && Balanced(s) && Logged(s) && AllConserved(s) && Careful(s)
  }

  lemma InvStep(s: Sys, a: Action)
    requires Inv(s)
    ensures Inv(Apply(s, a))
  {
    IndexStep(s, a);
    ExclusiveStep(s, a);
    BalancedStep(s, a);
    LogStep(s, a);
    ConservedStep(s, a);
    CarefulStep(s, a);
  }

  lemma {:induction false} RunKeepsInv(actions: seq<Action>)
    ensures Inv(Exec(actions))
  {
    if actions != [] {
      RunKeepsInv(actions[..|actions| - 1]);
      InvStep(Exec(actions[..|actions| - 1]), actions[|actions| - 1]);
    } else {
      assert Early(START.calls) == {};
    }
  }
}
