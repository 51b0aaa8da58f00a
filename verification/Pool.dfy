// connections/pool.py: one connection per key, built on first use, handed out under a
// semaphore, and taken out of the table while callers may still hold it.
module Pool {
  import opened Events

  datatype PoolKey = PoolKey(ref: string, configHash: string, project: string)

  // A connection object. id is what id() returns: no two objects alive at the same time share
  // it, but a later object may take it over. serial tells objects apart for ever.
  datatype Conn = Conn(id: nat, serial: nat)

  datatype Entry = Entry(conn: Conn, max: nat)

  datatype Metrics = Metrics(acquires: nat, cacheHits: nat, builds: nat, evictions: nat, releases: nat)

  // free: the value of every entry's semaphore, also after the entry has left the table.
  datatype Pool = Pool(entries: map<PoolKey, Entry>, byConn: map<nat, PoolKey>, free: map<Conn, nat>, metrics: Metrics)

  // --- the sections between two awaits ---

  function Hit(p: Pool): Pool {
    p.(metrics := p.metrics.(cacheHits := p.metrics.cacheHits + 1))
  }

  function Install(p: Pool, key: PoolKey, id: nat, max: nat): Pool {
    var c := Conn(id, p.metrics.builds);
    Pool(p.entries[key := Entry(c, max)], p.byConn[id := key], p.free[c := max],
         p.metrics.(builds := p.metrics.builds + 1))
  }

  predicate Live(p: Pool, c: Conn) {
    c.id in p.byConn && p.byConn[c.id] in p.entries && p.entries[p.byConn[c.id]].conn == c
  }

  function Release(p: Pool, c: Conn): Pool {
    if Live(p, c) && c in p.free then
      p.(free := p.free[c := p.free[c] + 1], metrics := p.metrics.(releases := p.metrics.releases + 1))
    else p
  }

  function Remove(p: Pool, key: PoolKey, counted: bool): Pool
    requires key in p.entries
  {
    p.(entries := p.entries - {key}, byConn := p.byConn - {p.entries[key].conn.id},
       metrics := p.metrics.(evictions := p.metrics.evictions + if counted then 1 else 0))
  }

  // --- the whole system: the pool, the calls under way, the accessors' slots ---

  // A slot of one accessor, with what was prepared for it.
  datatype Handle = Handle(accessor: nat, slot: string, key: PoolKey, max: nat)

  // Queued for the key's build lock, inside the factory holding it, or queued for a permit.
  datatype Stage = Queued | Building | Waiting(conn: Conn)

  datatype Call = Call(handle: Handle, stage: Stage)

  datatype Scope = OfRef(ref: string, project: Option<string>) | Everything

  // An evict() or close_all() between two closes, with the keys it has yet to pop; drop is the
  // slot on_auth_error() forgets afterwards. since, scope and listed are history only: the log's
  // length when the list was made, what was asked for, and the list.
  datatype Evictor = Evictor(pending: seq<PoolKey>, counted: bool, drop: Option<Handle>,
                             since: nat, scope: Scope, listed: seq<PoolKey>)

  datatype Mark = Built(key: PoolKey) | Removed(key: PoolKey)

  // History only: builds and removals in order, permits of live entries whose handle was
  // forgotten, whether a slot was got again while its connection was live or being evicted, calls that left before
  // they had an entry, entries removed by close_all, and KeyErrors.
  datatype History = History(log: seq<Mark>, lost: multiset<Conn>, reget: bool, quits: nat, closed: nat, keyErrors: nat)

  datatype Sys = Sys(pool: Pool, calls: map<nat, Call>, held: map<Handle, Conn>, evictors: map<nat, Evictor>,
                     h: History)

  const START := Sys(Pool(map[], map[], map[], Metrics(0, 0, 0, 0, 0)), map[], map[], map[],
                     History([], multiset{}, false, 0, 0, 0))

  predicate Matches(scope: Scope, key: PoolKey) {
    scope.Everything? || (key.ref == scope.ref && (scope.project.None? || key.project == scope.project.value))
  }

  // The dictionary's keys in scope, in its order.
  predicate Lists(p: Pool, scope: Scope, keys: seq<PoolKey>) {
    && (forall i, j :: 0 <= i < j < |keys| ==> keys[i] != keys[j])
    && (forall k :: k in keys ==> k in p.entries && Matches(scope, k))
    && forall k :: k in p.entries && Matches(scope, k) ==> k in keys
  }

  // The id of an object created now: no object still referred to has it.
  predicate Unused(s: Sys, id: nat) {
    && (forall k :: k in s.pool.entries ==> s.pool.entries[k].conn.id != id)
    && (forall h :: h in s.held ==> s.held[h].id != id)
    && forall i :: i in s.calls && s.calls[i].stage.Waiting? ==> s.calls[i].stage.conn.id != id
  }

  predicate Locked(s: Sys, key: PoolKey) {
    exists i :: i in s.calls && s.calls[i].stage.Building? && s.calls[i].handle.key == key
  }

  function Get(s: Sys, i: nat, h: Handle): Sys {
    if i in s.calls then s
    else s.(pool := s.pool.(metrics := s.pool.metrics.(acquires := s.pool.metrics.acquires + 1)),
            calls := s.calls[i := Call(h, Queued)])
  }

  // The build lock is taken; a warm key gives it up at once.
  function Enter(s: Sys, i: nat): Sys {
    if i !in s.calls || !s.calls[i].stage.Queued? || Locked(s, s.calls[i].handle.key) then s
    else
      var h := s.calls[i].handle;
      if h.key in s.pool.entries then
        s.(pool := Hit(s.pool), calls := s.calls[i := Call(h, Waiting(s.pool.entries[h.key].conn))])
      else s.(calls := s.calls[i := Call(h, Building)])
  }

  function FinishBuild(s: Sys, i: nat, id: nat): Sys {
    if i !in s.calls || !s.calls[i].stage.Building? || !Unused(s, id) then s
    else
      var h := s.calls[i].handle;
      s.(pool := Install(s.pool, h.key, id, h.max),
         calls := s.calls[i := Call(h, Waiting(Conn(id, s.pool.metrics.builds)))],
         h := s.h.(log := s.h.log + [Built(h.key)]))
  }

  // The factory raised, the permit timed out, or the task was cancelled.
  function GiveUp(s: Sys, i: nat): Sys {
    if i !in s.calls then s
    else s.(calls := s.calls - {i},
            h := s.h.(quits := s.h.quits + if s.calls[i].stage.Waiting? then 0 else 1))
  }

  // A handle is overwritten or dropped without being released.
  function Forget(s: Sys, h: Handle): Sys {
    if h in s.held && Live(s.pool, s.held[h]) then
      s.(held := s.held - {h}, h := s.h.(lost := s.h.lost + multiset{s.held[h]}))
    else s.(held := s.held - {h})
  }

  predicate Dropping(s: Sys, h: Handle) {
    exists e :: e in s.evictors && s.evictors[e].drop == Some(h)
  }

  function Permit(s: Sys, i: nat): Sys {
    if i !in s.calls || !s.calls[i].stage.Waiting? then s
    else
      var h, c := s.calls[i].handle, s.calls[i].stage.conn;
      if c !in s.pool.free || s.pool.free[c] == 0 then s
      else
        var f := Forget(s, h);
        f.(pool := s.pool.(free := s.pool.free[c := s.pool.free[c] - 1]),
           calls := s.calls - {i}, held := f.held[h := c],
           h := f.h.(reget := s.h.reget || (h in s.held && Live(s.pool, s.held[h])) || Dropping(s, h)))
  }

  // One slot of release_all().
  function ReleaseSlot(s: Sys, h: Handle): Sys {
    if h !in s.held then s else s.(pool := Release(s.pool, s.held[h]), held := s.held - {h})
  }

  // pop(key), without a default.
  function EvictOne(s: Sys, e: nat): Sys {
    if e !in s.evictors || s.evictors[e].pending == [] then s
    else
      var ev := s.evictors[e];
      var key := ev.pending[0];
      if key !in s.pool.entries then
        s.(evictors := s.evictors - {e}, h := s.h.(keyErrors := s.h.keyErrors + 1))
      else
        s.(pool := Remove(s.pool, key, ev.counted), evictors := s.evictors[e := ev.(pending := ev.pending[1..])],
           h := s.h.(log := s.h.log + [Removed(key)], closed := s.h.closed + if ev.counted then 0 else 1))
  }

  // The list of keys is taken and the first key popped without a suspension in between.
  function StartEvict(s: Sys, e: nat, scope: Scope, keys: seq<PoolKey>, drop: Option<Handle>): Sys {
    if e in s.evictors || !Lists(s.pool, scope, keys) || (drop.Some? && !DropsOwn(s, scope, drop.value)) then s
    else EvictOne(Listing(s, e, scope, keys, drop), e)
  }

  function Listing(s: Sys, e: nat, scope: Scope, keys: seq<PoolKey>, drop: Option<Handle>): Sys {
    s.(evictors := s.evictors[e := Evictor(keys, scope.OfRef?, drop, |s.h.log|, scope, keys)])
  }

  // on_auth_error(): the reference and project of a slot the accessor has acquired.
  predicate DropsOwn(s: Sys, scope: Scope, h: Handle) {
    h in s.held && scope == OfRef(h.key.ref, Some(h.key.project))
  }

  function EndEvict(s: Sys, e: nat): Sys {
    if e !in s.evictors || s.evictors[e].pending != [] then s
    else
      var t := s.(evictors := s.evictors - {e});
      if s.evictors[e].drop.Some? then Forget(t, s.evictors[e].drop.value) else t
  }

  datatype Action =
    | DoGet(i: nat, handle: Handle) | DoEnter(i: nat) | DoBuild(i: nat, id: nat) | DoGiveUp(i: nat) | DoPermit(i: nat)
    | DoRelease(handle: Handle)
    | DoEvict(e: nat, scope: Scope, keys: seq<PoolKey>, drop: Option<Handle>) | DoEvictNext(e: nat) | DoEvictEnd(e: nat)

  function Apply(s: Sys, a: Action): Sys {
    match a
    case DoGet(i, h) => Get(s, i, h)
    case DoEnter(i) => Enter(s, i)
    case DoBuild(i, id) => FinishBuild(s, i, id)
    case DoGiveUp(i) => GiveUp(s, i)
    case DoPermit(i) => Permit(s, i)
    case DoRelease(h) => ReleaseSlot(s, h)
    case DoEvict(e, scope, keys, drop) => StartEvict(s, e, scope, keys, drop)
    case DoEvictNext(e) => EvictOne(s, e)
    case DoEvictEnd(e) => EndEvict(s, e)
  }

  function Exec(actions: seq<Action>): Sys {
    if actions == [] then START else Apply(Exec(actions[..|actions| - 1]), actions[|actions| - 1])
  }

  // --- the objects ---

  class InProcessConnectionPool {
    var entries: map<PoolKey, Entry>
    var byConn: map<nat, PoolKey>
    var free: map<Conn, nat>
    var metrics: Metrics

    constructor ()
      ensures View() == START.pool
    {
      entries, byConn, free, metrics := map[], map[], map[], Metrics(0, 0, 0, 0, 0);
    }

    function View(): Pool
      reads this
    {
      Pool(entries, byConn, free, metrics)
    }

    // acquire(), under the build lock and before any await: the entry, if the key is warm.
    method Lookup(key: PoolKey) returns (entry: Option<Entry>)
      modifies this
      ensures entry == if key in old(entries) then Some(old(entries)[key]) else None
      ensures View() == if entry.Some? then Hit(old(View())) else old(View())
    {
      if key !in entries {
        return None;
      }
      metrics := metrics.(cacheHits := metrics.cacheHits + 1);
      return Some(entries[key]);
    }

    // _build(), after the factory has returned an object.
    method AddBuilt(key: PoolKey, id: nat, max: nat) returns (entry: Entry)
      modifies this
      ensures View() == Install(old(View()), key, id, max)
      ensures key in entries && entry == entries[key]
    {
      entry := Entry(Conn(id, metrics.builds), max);
      entries := entries[key := entry];
      byConn := byConn[id := key];
      free := free[entry.conn := max];
      metrics := metrics.(builds := metrics.builds + 1);
    }

    method ReleaseConn(c: Conn)
      requires c in free
      modifies this
      ensures View() == Release(old(View()), c)
    {
      if c.id !in byConn {
        return;
      }
      var key := byConn[c.id];
      if key in entries && entries[key].conn == c {
        free := free[c := free[c] + 1];
        metrics := metrics.(releases := metrics.releases + 1);
      }
    }

    // One turn of the loop of evict() (counted) or close_all().
    method Pop(key: PoolKey, counted: bool) returns (found: bool)
      modifies this
      ensures found <==> key in old(entries)
      ensures View() == if found then Remove(old(View()), key, counted) else old(View())
    {
      if key !in entries {
        return false;
      }
      var entry := entries[key];
      entries := entries - {key};
      byConn := byConn - {entry.conn.id};
      if counted {
        metrics := metrics.(evictions := metrics.evictions + 1);
      }
      return true;
    }
  }

  class SlotConnectionAccessor {
    const pool: InProcessConnectionPool
    var acquired: map<string, Conn>

    constructor (pool: InProcessConnectionPool)
      ensures this.pool == pool && acquired == map[]
    {
      this.pool := pool;
      acquired := map[];
    }

    // Every slot's connection is released once: a live one gets back as many permits as slots
    // hold it, the others nothing.
    method ReleaseAll()
      requires forall slot :: slot in acquired ==> acquired[slot] in pool.free
      modifies this, pool
      ensures acquired == map[]
      ensures pool.entries == old(pool.entries) && pool.byConn == old(pool.byConn)
      ensures pool.free.Keys == old(pool.free.Keys)
      ensures forall c :: c in pool.free ==>
                            pool.free[c] == old(pool.free[c])
                            + if Live(old(pool.View()), c) then |Slots(old(acquired), c)| else 0
    {
      ghost var was := acquired;
      while acquired != map[]
        invariant GivenBack(old(pool.View()), pool.View(), was, acquired)
        decreases |acquired|
      {
        var slot :| slot in acquired;
        GiveBackOne(old(pool.View()), pool.View(), was, acquired, slot);
        pool.ReleaseConn(acquired[slot]);
        acquired := acquired - {slot};
      }
      assert forall c :: Slots(acquired, c) == {};
    }
  }

  // p became q when the slots of was that are not in rest were released.
  ghost predicate GivenBack(p: Pool, q: Pool, was: map<string, Conn>, rest: map<string, Conn>) {
    && q.entries == p.entries && q.byConn == p.byConn && q.free.Keys == p.free.Keys
    && (forall slot :: slot in rest ==> rest[slot] in q.free)
    && forall c :: c in q.free ==>
                     q.free[c] == p.free[c] + if Live(p, c) then |Slots(was, c)| - |Slots(rest, c)| else 0
  }

  lemma GiveBackOne(p: Pool, q: Pool, was: map<string, Conn>, rest: map<string, Conn>, slot: string)
    requires GivenBack(p, q, was, rest) && slot in rest
    ensures GivenBack(p, Release(q, rest[slot]), was, rest - {slot})
  {
    forall c ensures |Slots(rest, c)| == |Slots(rest - {slot}, c)| + if rest[slot] == c then 1 else 0 {
      SlotsMinus(rest, slot, c);
    }
  }

  // The keys that hold a connection: slots of an accessor, or handles of all of them.
  function Slots<K>(held: map<K, Conn>, c: Conn): set<K> {
    set k | k in held && held[k] == c
  }

  lemma SlotsMinus<K>(held: map<K, Conn>, k: K, c: Conn)
    ensures |Slots(held, c)| == |Slots(held - {k}, c)| + if k in held && held[k] == c then 1 else 0
  {
    assert Slots(held, c) - {k} == Slots(held - {k}, c);
    if k in held && held[k] == c {
      assert Slots(held, c) == Slots(held - {k}, c) + {k};
    } else {
      assert Slots(held, c) == Slots(held - {k}, c);
    }
  }

  lemma SlotsPlus<K>(held: map<K, Conn>, k: K, taken: Conn, c: Conn)
    requires k !in held
    ensures |Slots(held[k := taken], c)| == |Slots(held, c)| + if taken == c then 1 else 0
  {
    if taken == c {
      assert Slots(held[k := taken], c) == Slots(held, c) + {k};
    } else {
      assert Slots(held[k := taken], c) == Slots(held, c);
    }
  }
}
