// What evict() and close_all() take out of the pool: over every run, the connections of the
// reference and project they were asked for and no others.
module PoolEvictions {
  import opened Events
  import opened Pool
  import opened PoolProtocol

  // Of the reference, and of the project if one is given; close_all() takes everything.
  predicate InScope(scope: Scope, key: PoolKey) {
    match scope
    case OfRef(ref, project) => key.ref == ref && (project == None || project == Some(key.project))
    case Everything => true
  }

  ghost predicate ScopeKept(s: Sys, ev: Evictor) {
    && ev.since <= |s.h.log| && |ev.pending| <= |ev.listed|
    && ev.pending == ev.listed[|ev.listed| - |ev.pending|..]
    && (forall k :: k in ev.listed ==> InScope(ev.scope, k))
    && forall i :: 0 <= i < |ev.listed| - |ev.pending| ==> RemovedSince(s.h.log, ev.since, ev.listed[i])
  }

  ghost predicate ScopesKept(s: Sys) {
    forall e :: e in s.evictors ==> ScopeKept(s, s.evictors[e])
  }

  lemma ListsInScope(p: Pool, scope: Scope, keys: seq<PoolKey>)
    requires Lists(p, scope, keys)
    ensures forall k :: k in keys <==> k in p.entries && InScope(scope, k)
  {
  }

  // The log only grows.
  lemma ScopeStays(s: Sys, t: Sys, ev: Evictor)
    requires ScopeKept(s, ev) && s.h.log <= t.h.log
    ensures ScopeKept(t, ev)
  {
    forall i | 0 <= i < |ev.listed| - |ev.pending| ensures RemovedSince(t.h.log, ev.since, ev.listed[i]) {
      var m :| ev.since <= m < |s.h.log| && s.h.log[m] == Removed(ev.listed[i]);
      assert t.h.log[m] == Removed(ev.listed[i]);
    }
  }

  lemma ScopeEvict(s: Sys, e: nat)
    requires ScopesKept(s)
    ensures ScopesKept(EvictOne(s, e))
  {
    var t := EvictOne(s, e);
    forall g | g in t.evictors ensures ScopeKept(t, t.evictors[g]) {
      ScopeStays(s, t, s.evictors[g]);
      if g == e && t.evictors[e] != s.evictors[e] {
        ScopePopped(t, s.evictors[e]);
      }
    }
  }

  lemma ScopePopped(t: Sys, ev: Evictor)
    requires ScopeKept(t, ev) && ev.pending != [] && ev.since < |t.h.log|
    requires t.h.log[|t.h.log| - 1] == Removed(ev.pending[0])
    ensures ScopeKept(t, ev.(pending := ev.pending[1..]))
  {
  }

  lemma ScopeStep(s: Sys, a: Action)
    requires ScopesKept(s)
    ensures ScopesKept(Apply(s, a))
  {
    match a
    case DoEvict(e, scope, keys, drop) =>
      if StartEvict(s, e, scope, keys, drop) != s {
        ScopeListing(s, e, scope, keys, drop);
        ScopeEvict(Listing(s, e, scope, keys, drop), e);
      }
    case DoEvictNext(e) => ScopeEvict(s, e);
    case _ => ScopeOther(s, a);
  }

  lemma ScopeListing(s: Sys, e: nat, scope: Scope, keys: seq<PoolKey>, drop: Option<Handle>)
    requires ScopesKept(s) && Lists(s.pool, scope, keys)
    ensures ScopesKept(Listing(s, e, scope, keys, drop))
  {
    ListsInScope(s.pool, scope, keys);
    var t := Listing(s, e, scope, keys, drop);
    forall g | g in t.evictors ensures ScopeKept(t, t.evictors[g]) {
      if g != e {
        ScopeStays(s, t, s.evictors[g]);
      }
    }
  }

  lemma OthersKeepEvictors(s: Sys, a: Action)
    requires !a.DoEvict? && !a.DoEvictNext?
    ensures s.h.log <= Apply(s, a).h.log
    ensures forall g :: g in Apply(s, a).evictors ==> g in s.evictors && Apply(s, a).evictors[g] == s.evictors[g]
  {
  }

  lemma ScopeOther(s: Sys, a: Action)
    requires ScopesKept(s) && !a.DoEvict? && !a.DoEvictNext?
    ensures ScopesKept(Apply(s, a))
  {
    OthersKeepEvictors(s, a);
    forall g | g in Apply(s, a).evictors ensures ScopeKept(Apply(s, a), s.evictors[g]) {
      ScopeStays(s, Apply(s, a), s.evictors[g]);
    }
  }

  lemma {:induction false} RunKeepsScopes(actions: seq<Action>)
    ensures ScopesKept(Exec(actions))
  {
    if actions != [] {
      RunKeepsScopes(actions[..|actions| - 1]);
      ScopeStep(Exec(actions[..|actions| - 1]), actions[|actions| - 1]);
    }
  }

  // The eviction that a step lets pop its next key: what it was asked for, and the keys left.
  function Popping(s: Sys, a: Action): Option<(Scope, seq<PoolKey>)> {
    match a
    case DoEvict(e, scope, keys, _) => Some((scope, keys))
    case DoEvictNext(e) => if e in s.evictors then Some((s.evictors[e].scope, s.evictors[e].pending)) else None
    case _ => None
  }

  // k has its entry still, or it was the next key of the eviction that ran.
  ghost predicate StaysOrPopped(s: Sys, a: Action, t: Sys, k: PoolKey)
    requires k in s.pool.entries
  {
    if k in t.pool.entries then t.pool.entries[k] == s.pool.entries[k]
    else Popping(s, a).Some? && Popping(s, a).value.1 != [] && k == Popping(s, a).value.1[0]
  }

  lemma PoppedIsNext(s: Sys, a: Action, k: PoolKey)
    requires Exclusive(s) && k in s.pool.entries
    ensures StaysOrPopped(s, a, Apply(s, a), k)
  {
    match a
    case DoBuild(i, id) => BuildKeepsEntries(s, i, id, k);
    case DoEvict(e, scope, keys, drop) => StartPops(s, e, scope, keys, drop, k);
    case DoEvictNext(e) =>
    case _ => OthersKeepEntries(s, a);
  }

  lemma BuildKeepsEntries(s: Sys, i: nat, id: nat, k: PoolKey)
    requires Exclusive(s) && k in s.pool.entries
    ensures var t := FinishBuild(s, i, id); k in t.pool.entries && t.pool.entries[k] == s.pool.entries[k]
  {
  }

  lemma StartPops(s: Sys, e: nat, scope: Scope, keys: seq<PoolKey>, drop: Option<Handle>, k: PoolKey)
    requires k in s.pool.entries
    ensures var t := StartEvict(s, e, scope, keys, drop);
            if k in t.pool.entries then t.pool.entries[k] == s.pool.entries[k]
            else keys != [] && k == keys[0] && Lists(s.pool, scope, keys)
  {
  }

  lemma OthersKeepEntries(s: Sys, a: Action)
    requires !a.DoBuild? && !a.DoEvict? && !a.DoEvictNext?
    ensures Apply(s, a).pool.entries == s.pool.entries
  {
  }

  lemma PoppedInScope(s: Sys, a: Action, k: PoolKey)
    requires ScopesKept(s) && Exclusive(s) && k in s.pool.entries && k !in Apply(s, a).pool.entries
    ensures Popping(s, a).Some? && InScope(Popping(s, a).value.0, k)
  {
    PoppedIsNext(s, a, k);
    match a
    case DoEvict(e, scope, keys, drop) =>
      StartPops(s, e, scope, keys, drop, k);
      ListsInScope(s.pool, scope, keys);
    case DoEvictNext(e) =>
      assert ScopeKept(s, s.evictors[e]);
      assert k in s.evictors[e].listed;
    case _ =>
  }

  // Whatever the step, in every run: an entry that leaves the table is the next one on the list of
  // the eviction that ran, and of the reference and project that one was asked for. Every other
  // entry stays, in table and index.
  lemma EvictsOnlyItsScope(actions: seq<Action>, a: Action, k: PoolKey)
    requires k in Exec(actions).pool.entries
    ensures var s := Exec(actions); var t, popping := Apply(s, a), Popping(s, a);
            if k in t.pool.entries then
              && t.pool.entries[k] == s.pool.entries[k]
              && s.pool.entries[k].conn.id in t.pool.byConn && t.pool.byConn[s.pool.entries[k].conn.id] == k
            else
              && popping.Some? && popping.value.1 != [] && k == popping.value.1[0]
              && match popping.value.0
                 case OfRef(ref, project) => k.ref == ref && (project == None || project == Some(k.project))
                 case Everything => true
  {
    RunKeepsInv(actions);
    RunKeepsScopes(actions);
    var s := Exec(actions);
    IndexStep(s, a);
    PoppedIsNext(s, a, k);
    if k !in Apply(s, a).pool.entries {
      PoppedInScope(s, a, k);
    }
  }

  // An eviction starts with a list of exactly the entries of its reference and project at that
  // moment, each once; and when it comes to its end it has removed all of them.
  lemma EvictionListsItsScope(actions: seq<Action>, e: nat, scope: Scope, keys: seq<PoolKey>, drop: Option<Handle>)
    requires var s := Exec(actions); StartEvict(s, e, scope, keys, drop) != s
    ensures var s := Exec(actions);
            && (forall i, j :: 0 <= i < j < |keys| ==> keys[i] != keys[j])
            && forall k :: k in keys <==>
                           k in s.pool.entries
                           && match scope
                              case OfRef(ref, project) =>
                                k.ref == ref && (project == None || project == Some(k.project))
                              case Everything => true
  {
    ListsInScope(Exec(actions).pool, scope, keys);
  }

  // Such a list there always is, so an eviction can always start.
  lemma EvictionCanStart(actions: seq<Action>, e: nat, scope: Scope) returns (keys: seq<PoolKey>)
    requires e !in Exec(actions).evictors
    ensures var s := Exec(actions); var t := StartEvict(s, e, scope, keys, None);
            && e in t.evictors && t.evictors[e].listed == keys && t.evictors[e].scope == scope
            && (keys != [] ==> keys[0] !in t.pool.entries)
  {
    var p := Exec(actions).pool;
    keys := InSomeOrder(set k | k in p.entries && InScope(scope, k));
    ListsInScopeOnly(p, scope, keys);
    if keys != [] {
      assert keys[0] in keys;
    }
  }

  lemma ListsInScopeOnly(p: Pool, scope: Scope, keys: seq<PoolKey>)
    requires forall i, j :: 0 <= i < j < |keys| ==> keys[i] != keys[j]
    requires forall k :: k in keys <==> k in p.entries && InScope(scope, k)
    ensures Lists(p, scope, keys)
  {
  }

  lemma {:induction false} InSomeOrder(keys: set<PoolKey>) returns (list: seq<PoolKey>)
    ensures forall i, j :: 0 <= i < j < |list| ==> list[i] != list[j]
    ensures forall k :: k in list <==> k in keys
    decreases |keys|
  {
    list := [];
    if keys != {} {
      var k :| k in keys;
      var rest := InSomeOrder(keys - {k});
      list := [k] + rest;
    }
  }

  lemma EndedEvictionTookAll(actions: seq<Action>, e: nat)
    requires var s := Exec(actions); e in s.evictors && s.evictors[e].pending == []
    ensures var s := Exec(actions); var ev := s.evictors[e];
            forall k :: k in ev.listed ==> RemovedSince(s.h.log, ev.since, k)
  {
    RunKeepsScopes(actions);
    var s := Exec(actions);
    assert ScopeKept(s, s.evictors[e]);
  }
}
