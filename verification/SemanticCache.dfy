// cache/semantic.py, the in-process backend: one table of rows, searched within a bucket by
// similarity, trimmed to the most recently accessed rows of a scope.
module SemanticCache {
  import opened Events
  import opened Cosine
  import opened CacheKeys

  datatype Row = Row(id: nat, scope: string, agent: string, bucket: string, vector: seq<real>,
                     response: string, expiresAt: real, lastAccess: real)

  // rows in the order of their ids, which are never used twice.
  datatype Table = Table(rows: seq<Row>, nextId: nat)

  datatype Hit = Hit(response: string, similarity: real)

  datatype Query = Query(scope: string, key: SemanticKey, threshold: real, now: real)

  predicate Sorted(rows: seq<Row>) {
    forall i, j :: 0 <= i < j < |rows| ==> rows[i].id < rows[j].id
  }

  predicate WellFormed(t: Table) {
    Sorted(t.rows) && forall r :: r in t.rows ==> r.id < t.nextId
  }

  // --- rows kept by a DELETE ---

  function Select(rows: seq<Row>, keep: Row -> bool): (out: seq<Row>)
    ensures forall r :: r in out <==> r in rows && keep(r)
    ensures Sorted(rows) ==> Sorted(out)
  {
    if rows == [] then [] else
      var n := |rows| - 1;
      var front := Select(rows[..n], keep);
      assert Sorted(rows) ==> forall r :: r in front ==> r in rows[..n] && r.id < rows[n].id;
      if keep(rows[n]) then front + [rows[n]] else front
  }

  // --- lookup ---

  predicate Candidate(r: Row, q: Query) {
    r.expiresAt > q.now && r.scope == q.scope && r.bucket == Bucket(q.key)
  }

  function Similarity(root: real -> real, r: Row, q: Query): real {
    CosineSimilarity(root, q.key.vector, r.vector)
  }

  // The loop over the rows: a later row must be strictly more similar to win.
  function Best(root: real -> real, rows: seq<Row>, q: Query): (b: Option<Row>)
    ensures b.None? ==> forall r :: r in rows ==> !Candidate(r, q)
    ensures b.Some? ==> b.value in rows && Candidate(b.value, q)
    ensures b.Some? ==> forall r :: r in rows && Candidate(r, q) ==>
            Similarity(root, r, q) <= Similarity(root, b.value, q)
    ensures b.Some? && Sorted(rows) ==>
              forall r :: r in rows && Candidate(r, q) && r.id < b.value.id ==>
                Similarity(root, r, q) < Similarity(root, b.value, q)
  {
    if rows == [] then None else
      var n := |rows| - 1;
      var b := Best(root, rows[..n], q);
      if Candidate(rows[n], q) && (b.None? || Similarity(root, rows[n], q) > Similarity(root, b.value, q))
      then Some(rows[n])
      else b
  }

  function Touch(rows: seq<Row>, id: nat, now: real): (out: seq<Row>)
    ensures |out| == |rows|
    ensures forall i :: 0 <= i < |rows| ==> out[i] == if rows[i].id == id then rows[i].(lastAccess := now) else rows[i]
  {
    seq(|rows|, i requires 0 <= i < |rows| => if rows[i].id == id then rows[i].(lastAccess := now) else rows[i])
  }

  // The row a lookup answers with.
  function Found(root: real -> real, t: Table, q: Query): Option<Row> {
    var b := Best(root, t.rows, q);
    if b.Some? && Similarity(root, b.value, q) >= q.threshold then b else None
  }

  function LookupHit(root: real -> real, t: Table, q: Query): Option<Hit> {
    var f := Found(root, t, q);
    if f.None? then None else Some(Hit(f.value.response, Similarity(root, f.value, q)))
  }

  function AfterLookup(root: real -> real, t: Table, q: Query): Table {
    var live := Select(t.rows, (r: Row) => r.expiresAt > q.now);
    var f := Found(root, t, q);
    t.(rows := if f.Some? then Touch(live, f.value.id, q.now) else live)
  }

  // --- store ---

  function IdsIn(rows: seq<Row>, scope: string): set<nat> {
    set r | r in rows && r.scope == scope :: r.id
  }

  // What the trimming DELETE may remove: as many rows of the scope as exceed the limit, none
  // more recently accessed than a row that stays. Ties are the database's choice.
  ghost predicate Trims(rows: seq<Row>, scope: string, max: nat, evicted: set<nat>) {
    && evicted <= IdsIn(rows, scope)
    && |IdsIn(rows, scope) - evicted| == (if |IdsIn(rows, scope)| <= max then |IdsIn(rows, scope)| else max)
    && forall r, k :: r in rows && k in rows && r.id in evicted && k.scope == scope && k.id !in evicted
         ==> r.lastAccess <= k.lastAccess
  }

  function NewRow(id: nat, scope: string, key: SemanticKey, response: string, ttl: real, now: real): Row {
    Row(id, scope, key.agent, Bucket(key), key.vector, response, now + ttl, now)
  }

  function Insert(t: Table, scope: string, key: SemanticKey, response: string, ttl: real, now: real): Table {
    Table(t.rows + [NewRow(t.nextId, scope, key, response, ttl, now)], t.nextId + 1)
  }

  function Evict(t: Table, evicted: set<nat>): Table {
    t.(rows := Select(t.rows, (r: Row) => r.id !in evicted))
  }

  // --- invalidate ---

  predicate Invalidates(scope: string, agent: string, r: Row) {
    r.scope == scope && (agent == "*" || r.agent == agent)
  }

  function AfterInvalidate(t: Table, scope: string, agent: string): Table {
    t.(rows := Select(t.rows, (r: Row) => !Invalidates(scope, agent, r)))
  }

  // --- runs: caches of several scopes over one database ---

  datatype Op =
    | DoStore(scope: string, max: nat, key: SemanticKey, response: string, ttl: real, now: real, evicted: set<nat>)
    | DoLookup(query: Query)
    | DoInvalidate(scope: string, agent: string)

  ghost function Apply(root: real -> real, t: Table, op: Op): Table {
    match op
    case DoStore(scope, max, key, response, ttl, now, evicted) =>
      var all := Insert(t, scope, key, response, ttl, now);
      if Trims(all.rows, scope, max, evicted) then Evict(all, evicted) else t
    case DoLookup(q) => AfterLookup(root, t, q)
    case DoInvalidate(scope, agent) => AfterInvalidate(t, scope, agent)
  }

  ghost function Exec(root: real -> real, ops: seq<Op>): Table {
    if ops == [] then Table([], 0) else Apply(root, Exec(root, ops[..|ops| - 1]), ops[|ops| - 1])
  }

  // --- the object ---

  class InProcessSemanticCache {
    const root: real -> real
    const scopeKey: string
    const maxEntries: nat
    var rows: seq<Row>
    var nextId: nat
    var lastTopSimilarity: real

    constructor (root: real -> real, scopeKey: string, maxEntries: nat)
      ensures this.root == root && this.scopeKey == scopeKey && this.maxEntries == maxEntries
      ensures View() == Table([], 0) && WellFormed(View()) && lastTopSimilarity == 0.0
    {
      this.root, this.scopeKey, this.maxEntries := root, scopeKey, maxEntries;
      rows, nextId, lastTopSimilarity := [], 0, 0.0;
    }

    function View(): Table
      reads this
    {
      Table(rows, nextId)
    }

    method Lookup(key: SemanticKey, threshold: real, now: real) returns (hit: Option<Hit>)
      requires WellFormed(View())
      modifies this
      ensures var q := Query(scopeKey, key, threshold, now);
              && View() == AfterLookup(root, old(View()), q)
              && hit == LookupHit(root, old(View()), q)
              && lastTopSimilarity == TopSimilarity(root, old(View()), q)
    {
      ghost var q := Query(scopeKey, key, threshold, now);
      ghost var before := rows;
      rows := Select(rows, (r: Row) => r.expiresAt > now);
      var best := Search(key, now, threshold);
      SelectKeepsBest(root, before, q);
      lastTopSimilarity := if best.Some? then CosineSimilarity(root, key.vector, best.value.vector) else 0.0;
      if best.None? || CosineSimilarity(root, key.vector, best.value.vector) < threshold {
        return None;
      }
      rows := Touch(rows, best.value.id, now);
      return Some(Hit(best.value.response, lastTopSimilarity));
    }

    // The loop over the fetched rows.
    method Search(key: SemanticKey, now: real, ghost threshold: real) returns (best: Option<Row>)
      requires forall r :: r in rows ==> r.expiresAt > now
      ensures best == Best(root, rows, Query(scopeKey, key, threshold, now))
    {
      ghost var q := Query(scopeKey, key, threshold, now);
      best := None;
      var top := 0.0;
      for i := 0 to |rows|
        invariant best.Some? ==> top == CosineSimilarity(root, key.vector, best.value.vector)
        invariant best == Best(root, rows[..i], q)
      {
        assert rows[..i + 1][..i] == rows[..i];
        var row := rows[i];
        assert row in rows;
        if row.scope == scopeKey && row.bucket == Bucket(key) {
          var similarity := CosineSimilarity(root, key.vector, row.vector);
          if best.None? || similarity > top {
            best, top := Some(row), similarity;
          }
        }
      }
      assert rows[..|rows|] == rows;
    }

    method Store(key: SemanticKey, response: string, ttl: real, now: real) returns (ghost evicted: set<nat>)
      requires WellFormed(View())
      modifies this
      ensures View() == Apply(root, old(View()), DoStore(scopeKey, maxEntries, key, response, ttl, now, evicted))
      ensures Trims(Insert(old(View()), scopeKey, key, response, ttl, now).rows, scopeKey, maxEntries, evicted)
    {
      rows := rows + [NewRow(nextId, scopeKey, key, response, ttl, now)];
      nextId := nextId + 1;
      evicted := Trim();
    }

    // DELETE … NOT IN (SELECT … ORDER BY last_access DESC LIMIT max): the least recently
    // accessed rows of the scope go first.
    method Trim() returns (ghost evicted: set<nat>)
      requires Sorted(rows)
      modifies this`rows
      ensures Trims(old(rows), scopeKey, maxEntries, evicted)
      ensures rows == Select(old(rows), (r: Row) => r.id !in evicted)
    {
      ghost var all := rows;
      evicted := {};
      var remaining := IdsIn(rows, scopeKey);
      while |remaining| > maxEntries
        invariant rows == all && Trimming(all, scopeKey, maxEntries, remaining, evicted)
        decreases |remaining|
      {
        var least := LeastRecent(remaining);
        TrimStep(all, scopeKey, maxEntries, remaining, evicted, least);
        remaining := remaining - {least.id};
        evicted := evicted + {least.id};
      }
      var scope := scopeKey;
      rows := Select(rows, (r: Row) => r.scope != scope || r.id in remaining);
      KeepIsEvict(all, scopeKey, maxEntries, remaining, evicted);
    }

    method LeastRecent(among: set<nat>) returns (least: Row)
      requires among != {} && forall id :: id in among ==> exists r :: r in rows && r.id == id
      ensures least in rows && least.id in among
      ensures forall r :: r in rows && r.id in among ==> least.lastAccess <= r.lastAccess
    {
      var found: Option<Row> := None;
      for i := 0 to |rows|
        invariant found.None? ==> forall j :: 0 <= j < i ==> rows[j].id !in among
        invariant found.Some? ==> found.value in rows && found.value.id in among
        invariant found.Some? ==> forall j :: 0 <= j < i && rows[j].id in among ==>
                  found.value.lastAccess <= rows[j].lastAccess
      {
        if rows[i].id in among && (found.None? || rows[i].lastAccess < found.value.lastAccess) {
          found := Some(rows[i]);
        }
      }
      ghost var id :| id in among;
      least := found.value;
    }

    method Invalidate(agent: string)
      modifies this
      ensures View() == AfterInvalidate(old(View()), scopeKey, agent)
    {
      var scope := scopeKey;
      rows := Select(rows, (r: Row) => !Invalidates(scope, agent, r));
    }
  }

  function TopSimilarity(root: real -> real, t: Table, q: Query): real {
    var b := Best(root, t.rows, q);
    if b.Some? then Similarity(root, b.value, q) else 0.0
  }

  ghost predicate Trimming(rows: seq<Row>, scope: string, max: nat, remaining: set<nat>, evicted: set<nat>) {
    && evicted <= IdsIn(rows, scope) && remaining == IdsIn(rows, scope) - evicted
    && (|remaining| < max ==> evicted == {})
    && forall r, k :: r in rows && k in rows && r.id in evicted && k.id in remaining ==> r.lastAccess <= k.lastAccess
  }

  lemma TrimStep(rows: seq<Row>, scope: string, max: nat, remaining: set<nat>, evicted: set<nat>, least: Row)
    requires Sorted(rows) && Trimming(rows, scope, max, remaining, evicted) && |remaining| > max
    requires least in rows && least.id in remaining
    requires forall r :: r in rows && r.id in remaining ==> least.lastAccess <= r.lastAccess
    ensures Trimming(rows, scope, max, remaining - {least.id}, evicted + {least.id})
  {
    UniqueIds(rows);
    assert |remaining - {least.id}| == |remaining| - 1;
  }

  lemma UniqueIds(rows: seq<Row>)
    requires Sorted(rows)
    ensures forall r, k :: r in rows && k in rows && r.id == k.id ==> r == k
  {
  }

  lemma KeepIsEvict(rows: seq<Row>, scope: string, max: nat, keep: set<nat>, evicted: set<nat>)
    requires Sorted(rows) && Trimming(rows, scope, max, keep, evicted) && |keep| <= max
    ensures Trims(rows, scope, max, evicted)
    ensures Select(rows, (r: Row) => r.scope != scope || r.id in keep) == Select(rows, (r: Row) => r.id !in evicted)
  {
    UniqueIds(rows);
    SelectAgrees(rows, (r: Row) => r.scope != scope || r.id in keep, (r: Row) => r.id !in evicted);
  }

  lemma {:induction false} SelectAgrees(rows: seq<Row>, p: Row -> bool, q: Row -> bool)
    requires forall r :: r in rows ==> p(r) == q(r)
    ensures Select(rows, p) == Select(rows, q)
  {
    if rows != [] {
      SelectAgrees(rows[..|rows| - 1], p, q);
    }
  }

  // Deleting expired rows first does not change the best candidate.
  lemma {:induction false} SelectKeepsBest(root: real -> real, rows: seq<Row>, q: Query)
    ensures Best(root, Select(rows, (r: Row) => r.expiresAt > q.now), q) == Best(root, rows, q)
  {
    var p := (r: Row) => r.expiresAt > q.now;
    if rows != [] {
      var n := |rows| - 1;
      SelectKeepsBest(root, rows[..n], q);
      var front := Select(rows[..n], p);
      assert (front + [rows[n]])[..|front|] == front;
    }
  }
}
