// The in-process semantic cache over runs: what was used last stays, and an invalidation reaches
// the rows it names and no answer of anybody else.
module SemanticCacheRecency {
  import opened Events
  import opened Cosine
  import opened CacheKeys
  import opened SemanticCache
  import opened SemanticCacheTheorems

  // --- the least recently used row goes first ---

  // When a run last stored the row with this id, or answered a lookup with it.
  ghost function LastUse(root: real -> real, ops: seq<Op>, id: nat): Option<real> {
    if ops == [] then None
    else
      var before := ops[..|ops| - 1];
      var t, earlier := Exec(root, before), LastUse(root, before, id);
      match ops[|ops| - 1]
      case DoStore(_, _, _, _, _, now, _) =>
        if t.nextId == id && Apply(root, t, ops[|ops| - 1]) != t then Some(now) else earlier
      case DoLookup(q) =>
        if Found(root, t, q).Some? && Found(root, t, q).value.id == id then Some(q.now) else earlier
      case DoInvalidate(_, _) => earlier
  }

  ghost predicate AccessesOk(root: real -> real, ops: seq<Op>) {
    forall r :: r in Exec(root, ops).rows ==> LastUse(root, ops, r.id) == Some(r.lastAccess)
  }

  // A hit sets the time of the row that answers and leaves the others alone; what has expired goes.
  lemma HitTouchesItsRow(root: real -> real, ops: seq<Op>, q: Query)
    ensures var t := Exec(root, ops); var t', f := Apply(root, t, DoLookup(q)), Found(root, t, q);
            forall r: Row ::
              r in t'.rows <==>
              if f.Some? && r.id == f.value.id then r == f.value.(lastAccess := q.now)
              else r in t.rows && r.expiresAt > q.now
  {
    RunSourced(root, ops);
    var t := Exec(root, ops);
    var live := Select(t.rows, (r: Row) => r.expiresAt > q.now);
    UniqueIds(t.rows);
    if Found(root, t, q).Some? {
      TouchedRows(live, Found(root, t, q).value, q.now);
    }
  }

  lemma TouchedRows(rows: seq<Row>, f: Row, now: real)
    requires Sorted(rows) && f in rows
    ensures forall r: Row ::
              r in Touch(rows, f.id, now) <==> if r.id == f.id then r == f.(lastAccess := now) else r in rows
  {
    UniqueIds(rows);
    var out := Touch(rows, f.id, now);
    forall r: Row | if r.id == f.id then r == f.(lastAccess := now) else r in rows ensures r in out {
      var was := if r.id == f.id then f else r;
      var i :| 0 <= i < |rows| && rows[i] == was;
      assert out[i] == r;
    }
    forall r: Row | r in out ensures if r.id == f.id then r == f.(lastAccess := now) else r in rows {
      var i :| 0 <= i < |rows| && out[i] == r;
      assert rows[i] in rows;
    }
  }

  // What is inserted is the row of its store.
  lemma InsertedRows(root: real -> real, ops: seq<Op>, op: Op, r: Row)
    requires op.DoStore? && Apply(root, Exec(root, ops), op) != Exec(root, ops) && AccessesOk(root, ops)
    requires r in Insert(Exec(root, ops), op.scope, op.key, op.response, op.ttl, op.now).rows
    ensures LastUse(root, ops + [op], r.id) == Some(r.lastAccess)
  {
    RunSourced(root, ops);
    assert (ops + [op])[..|ops + [op]| - 1] == ops;
    var t := Exec(root, ops);
    if r !in t.rows {
      assert r == NewRow(t.nextId, op.scope, op.key, op.response, op.ttl, op.now);
    }
  }

  lemma AccessesStep(root: real -> real, ops: seq<Op>, op: Op)
    requires AccessesOk(root, ops)
    ensures AccessesOk(root, ops + [op])
  {
    RunSourced(root, ops);
    ExecSnoc(root, ops, op);
    assert (ops + [op])[..|ops + [op]| - 1] == ops;
    match op
    case DoStore(_, _, _, _, _, _, _) =>
      if Apply(root, Exec(root, ops), op) != Exec(root, ops) {
        forall r | r in Exec(root, ops + [op]).rows ensures LastUse(root, ops + [op], r.id) == Some(r.lastAccess) {
          InsertedRows(root, ops, op, r);
        }
      }
    case DoLookup(q) => HitTouchesItsRow(root, ops, q);
    case DoInvalidate(_, _) =>
  }

  // In every run a row's access time is when it was last stored or last answered a lookup.
  lemma {:induction false} AccessIsLastUse(root: real -> real, ops: seq<Op>)
    ensures forall r :: r in Exec(root, ops).rows ==> LastUse(root, ops, r.id) == Some(r.lastAccess)
  {
    if ops != [] {
      var before, op := ops[..|ops| - 1], ops[|ops| - 1];
      assert ops == before + [op];
      AccessIsLastUse(root, before);
      AccessesStep(root, before, op);
    }
  }

  // Rows of the scope, other than the one with this id, stored or answered since that one was.
  ghost function UsedSince(root: real -> real, ops: seq<Op>, rows: seq<Row>, scope: string, id: nat): set<nat> {
    set r | r in rows && r.scope == scope && r.id != id
            && LastUse(root, ops, r.id).Some? && LastUse(root, ops, id).Some?
            && LastUse(root, ops, r.id).value >= LastUse(root, ops, id).value :: r.id
  }

  // A store evicts a row only if at least max_entries others of its scope, the stored one among
  // them, were stored or answered a lookup no earlier than it was itself last stored or answered.
  lemma EvictedIsLeastRecentlyUsed(root: real -> real, ops: seq<Op>, op: Op, r: Row)
    requires op.DoStore? && Apply(root, Exec(root, ops), op) != Exec(root, ops)
    requires r in Insert(Exec(root, ops), op.scope, op.key, op.response, op.ttl, op.now).rows
    requires r !in Apply(root, Exec(root, ops), op).rows
    ensures r.scope == op.scope
    ensures var all := Insert(Exec(root, ops), op.scope, op.key, op.response, op.ttl, op.now).rows;
            |UsedSince(root, ops + [op], all, op.scope, r.id)| >= op.max
  {
    var all := Insert(Exec(root, ops), op.scope, op.key, op.response, op.ttl, op.now).rows;
    AccessIsLastUse(root, ops);
    EvictedOnlyAfterOthers(root, ops, op, r);
    forall x | x in all ensures LastUse(root, ops + [op], x.id) == Some(x.lastAccess) {
      InsertedRows(root, ops, op, x);
    }
    SinceIsUsedSince(root, ops + [op], all, op.scope, r);
  }

  lemma SinceIsUsedSince(root: real -> real, ops: seq<Op>, all: seq<Row>, scope: string, r: Row)
    requires r in all && forall x :: x in all ==> LastUse(root, ops, x.id) == Some(x.lastAccess)
    ensures UsedSince(root, ops, all, scope, r.id) == Since(all, scope, r.id, r.lastAccess)
  {
  }

  // --- the similarity kept ---

  // last_top_similarity is the highest similarity in the bucket, or 0 if nothing is there.
  lemma TopSimilarityIsTheMaximum(root: real -> real, t: Table, q: Query)
    ensures var top := TopSimilarity(root, t, q);
            if exists r :: r in t.rows && Candidate(r, q) then
              && (exists r :: r in t.rows && Candidate(r, q) && CosineSimilarity(root, q.key.vector, r.vector) == top)
              && forall r :: r in t.rows && Candidate(r, q) ==> CosineSimilarity(root, q.key.vector, r.vector) <= top
            else top == 0.0
  {
  }

  // --- invalidation ---

  // The rows of the agent in the scope go, or all of the scope for the star.
  lemma InvalidationTakesItsRows(root: real -> real, ops: seq<Op>, scope: string, agent: string, r: Row)
    ensures r in Apply(root, Exec(root, ops), DoInvalidate(scope, agent)).rows
            <==> r in Exec(root, ops).rows && (r.scope != scope || (agent != "*" && r.agent != agent))
  {
  }

  lemma {:induction false} SelectKeepsCandidates(root: real -> real, rows: seq<Row>, q: Query, keep: Row -> bool)
    requires forall r :: r in rows && Candidate(r, q) ==> keep(r)
    ensures Best(root, Select(rows, keep), q) == Best(root, rows, q)
  {
    if rows != [] {
      var n := |rows| - 1;
      assert rows[n] in rows;
      SelectKeepsCandidates(root, rows[..n], q, keep);
      var front := Select(rows[..n], keep);
      assert (front + [rows[n]])[..|front|] == front;
    }
  }

  // What a key may find belongs to its agent.
  ghost predicate OwnRows(t: Table, q: Query) {
    forall r :: r in t.rows && Candidate(r, q) ==> r.agent == q.key.agent
  }

  ghost predicate AllHashed(ops: seq<Op>) {
    forall k :: 0 <= k < |ops| && ops[k].DoStore? ==> Hashed(ops[k].key)
  }

  lemma CandidatesAreTheAgents(root: real -> real, ops: seq<Op>, q: Query)
    requires Hashed(q.key) && AllHashed(ops)
    ensures OwnRows(Exec(root, ops), q)
  {
    RunSourced(root, ops);
    forall r | r in Exec(root, ops).rows && Candidate(r, q) ensures r.agent == q.key.agent {
      CandidateIsTheAgents(ops, q, r);
    }
  }

  lemma CandidateIsTheAgents(ops: seq<Op>, q: Query, r: Row)
    requires Hashed(q.key) && AllHashed(ops) && Sourced(ops, r) && Candidate(r, q)
    ensures r.agent == q.key.agent
  {
    var k: nat :| Standing(ops, k, r);
    OwnRow(q, r, ops[k].key);
  }

  lemma OwnRow(q: Query, r: Row, stored: SemanticKey)
    requires Hashed(q.key) && Hashed(stored) && r.agent == stored.agent && r.bucket == Bucket(stored) && Candidate(r, q)
    ensures r.agent == q.key.agent
  {
    BucketIsInjective(q.key, stored);
  }

  lemma InvalidatedFindsNothing(root: real -> real, t: Table, scope: string, agent: string, q: Query)
    requires OwnRows(t, q) && q.scope == scope && agent in {"*", q.key.agent}
    ensures Found(root, AfterInvalidate(t, scope, agent), q) == None
  {
  }

  lemma OthersFindTheSame(root: real -> real, t: Table, scope: string, agent: string, q: Query)
    requires OwnRows(t, q) && !(q.scope == scope && agent in {"*", q.key.agent})
    ensures Found(root, AfterInvalidate(t, scope, agent), q) == Found(root, t, q)
  {
    SelectKeepsCandidates(root, t.rows, q, (r: Row) => !Invalidates(scope, agent, r));
  }

  // In every run, an invalidation leaves the answers of other scopes and of other agents as they
  // were, and the agent it names, or every agent for the star, finds nothing.
  lemma InvalidationReachesItsAgent(root: real -> real, ops: seq<Op>, scope: string, agent: string, q: Query)
    requires Hashed(q.key) && AllHashed(ops)
    ensures var t := Exec(root, ops);
            LookupHit(root, Apply(root, t, DoInvalidate(scope, agent)), q)
            == if q.scope == scope && agent in {"*", q.key.agent} then None else LookupHit(root, t, q)
  {
    CandidatesAreTheAgents(root, ops, q);
    if q.scope == scope && agent in {"*", q.key.agent} {
      InvalidatedFindsNothing(root, Exec(root, ops), scope, agent, q);
    } else {
      OthersFindTheSame(root, Exec(root, ops), scope, agent, q);
    }
  }
}
