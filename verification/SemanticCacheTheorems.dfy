// What the in-process semantic cache promises over any run of stores, lookups and
// invalidations by caches of several scopes.
module SemanticCacheTheorems {
  import opened Events
  import opened Cosine
  import opened CacheKeys
  import opened SemanticCache

  // Row r comes from the store at position k and has survived every invalidation since.
  ghost predicate Standing(ops: seq<Op>, k: nat, r: Row) {
    && k < |ops| && ops[k].DoStore?
    && r.scope == ops[k].scope && r.agent == ops[k].key.agent && r.bucket == Bucket(ops[k].key)
    && r.vector == ops[k].key.vector && r.response == ops[k].response && r.expiresAt == ops[k].now + ops[k].ttl
    && forall j :: k < j < |ops| && ops[j].DoInvalidate? ==> !Invalidates(ops[j].scope, ops[j].agent, r)
  }

  ghost predicate Sourced(ops: seq<Op>, r: Row) {
    exists k :: Standing(ops, k, r)
  }

  ghost predicate AllSourced(ops: seq<Op>, t: Table) {
    WellFormed(t) && forall r :: r in t.rows ==> Sourced(ops, r)
  }

  lemma SourcedSnoc(ops: seq<Op>, op: Op, r: Row)
    requires Sourced(ops, r) && (op.DoInvalidate? ==> !Invalidates(op.scope, op.agent, r))
    ensures Sourced(ops + [op], r)
  {
    var k :| Standing(ops, k, r);
    assert Standing(ops + [op], k, r);
  }

  lemma StoreSourced(root: real -> real, ops: seq<Op>, t: Table, op: Op)
    requires op.DoStore? && AllSourced(ops, t)
    ensures AllSourced(ops + [op], Apply(root, t, op))
  {
    var added := NewRow(t.nextId, op.scope, op.key, op.response, op.ttl, op.now);
    assert Standing(ops + [op], |ops|, added);
    forall r | r in t.rows ensures Sourced(ops + [op], r) {
      SourcedSnoc(ops, op, r);
    }
  }

  lemma TouchSourced(ops: seq<Op>, rows: seq<Row>, id: nat, now: real)
    requires Sorted(rows) && forall r :: r in rows ==> Sourced(ops, r)
    ensures Sorted(Touch(rows, id, now)) && forall r :: r in Touch(rows, id, now) ==> Sourced(ops, r)
    ensures forall r :: r in Touch(rows, id, now) ==> exists r' :: r' in rows && r'.id == r.id
  {
    var out := Touch(rows, id, now);
    forall r | r in out
      ensures Sourced(ops, r) && exists r' :: r' in rows && r'.id == r.id
    {
      var i :| 0 <= i < |out| && out[i] == r;
      assert rows[i] in rows;
      var k :| Standing(ops, k, rows[i]);
      assert Standing(ops, k, r);
    }
  }

  lemma StepSourced(root: real -> real, ops: seq<Op>, t: Table, op: Op)
    requires AllSourced(ops, t)
    ensures AllSourced(ops + [op], Apply(root, t, op))
  {
    match op
    case DoStore(_, _, _, _, _, _, _) => StoreSourced(root, ops, t, op);
    case DoLookup(q) =>
      forall r | r in t.rows ensures Sourced(ops + [op], r) {
        SourcedSnoc(ops, op, r);
      }
      var f := Found(root, t, q);
      if f.Some? {
        TouchSourced(ops + [op], Select(t.rows, (r: Row) => r.expiresAt > q.now), f.value.id, q.now);
      }
    case DoInvalidate(scope, agent) =>
      forall r | r in t.rows && !Invalidates(scope, agent, r) ensures Sourced(ops + [op], r) {
        SourcedSnoc(ops, op, r);
      }
  }

  lemma {:induction false} RunSourced(root: real -> real, ops: seq<Op>)
    ensures AllSourced(ops, Exec(root, ops))
  {
    if ops != [] {
      var before, op := ops[..|ops| - 1], ops[|ops| - 1];
      assert ops == before + [op];
      RunSourced(root, before);
      StepSourced(root, before, Exec(root, before), op);
    }
  }

  ghost predicate AnswerOf(root: real -> real, ops: seq<Op>, q: Query, h: Hit, k: nat) {
    && k < |ops| && ops[k].DoStore? && ops[k].scope == q.scope
    && h.response == ops[k].response
    && h.similarity == CosineSimilarity(root, q.key.vector, ops[k].key.vector)
    && ops[k].now + ops[k].ttl > q.now
    && ops[k].key.agent == q.key.agent && ops[k].key.version == q.key.version && ops[k].key.model == q.key.model
    && ops[k].key.tools == q.key.tools && ops[k].key.structure == q.key.structure
    && forall j :: k < j < |ops| && ops[j].DoInvalidate? && ops[j].scope == q.scope ==>
       ops[j].agent !in {"*", q.key.agent}
  }

  // Whatever the run, a hit is the answer of an unexpired store in the same scope for the same
  // agent, version, model binding, tools and message structure, at least as similar as the
  // threshold, with no invalidation of that agent since. No answer crosses a bucket.
  lemma HitsDoNotCross(root: real -> real, ops: seq<Op>, q: Query)
    requires Hashed(q.key) && forall k :: 0 <= k < |ops| && ops[k].DoStore? ==> Hashed(ops[k].key)
    requires LookupHit(root, Exec(root, ops), q).Some?
    ensures var h := LookupHit(root, Exec(root, ops), q).value;
            h.similarity >= q.threshold && exists k :: AnswerOf(root, ops, q, h, k)
  {
    RunSourced(root, ops);
    var t := Exec(root, ops);
    var r := Found(root, t, q).value;
    var k :| Standing(ops, k, r);
    StandingAnswers(root, ops, q, r, k);
  }

  lemma StandingAnswers(root: real -> real, ops: seq<Op>, q: Query, r: Row, k: nat)
    requires Standing(ops, k, r) && Candidate(r, q) && Hashed(q.key) && Hashed(ops[k].key)
    ensures AnswerOf(root, ops, q, Hit(r.response, Similarity(root, r, q)), k)
  {
    BucketIsInjective(q.key, ops[k].key);
  }

  // A lookup misses only if no row of the bucket is similar enough, and otherwise answers with
  // a most similar one, the oldest of those.
  lemma LookupIsExact(root: real -> real, ops: seq<Op>, q: Query)
    ensures var t := Exec(root, ops); var f := Found(root, t, q);
            && (f.None? <==> forall r :: r in t.rows && Candidate(r, q) ==> Similarity(root, r, q) < q.threshold)
            && (f.Some? ==> f.value in t.rows && Candidate(f.value, q)
                            && forall r :: r in t.rows && Candidate(r, q) ==>
                                             Similarity(root, r, q) <= Similarity(root, f.value, q)
                                             && (r.id < f.value.id ==>
                                                 Similarity(root, r, q) < Similarity(root, f.value, q)))
  {
    RunSourced(root, ops);
  }

  // A row stored with a vector other than zero answers its own key, as long as it is there and
  // has not expired: the similarity is 1 at every threshold up to 1, and the response is the
  // row's own exactly when no older row of the bucket points the same way.
  lemma StoredKeyHits(root: real -> real, ops: seq<Op>, q: Query, r: Row)
    requires IsSqrt(root) && q.threshold <= 1.0
    requires r in Exec(root, ops).rows && Candidate(r, q) && r.vector == q.key.vector && Nonzero(r.vector)
    ensures var t := Exec(root, ops);
            && LookupHit(root, t, q).Some? && LookupHit(root, t, q).value.similarity == 1.0
            && (Found(root, t, q) == Some(r)
                <==> forall e :: e in t.rows && Candidate(e, q) && e.id < r.id ==> Similarity(root, e, q) < 1.0)
  {
    RunSourced(root, ops);
    var t := Exec(root, ops);
    SelfIsOne(root, r.vector);
    var b := Best(root, t.rows, q).value;
    CosineInRange(root, q.key.vector, b.vector);
    UniqueIds(t.rows);
    forall e | e in t.rows ensures Similarity(root, e, q) <= 1.0 {
      CosineInRange(root, q.key.vector, e.vector);
    }
  }

  // --- trimming ---

  // A store leaves at most max rows in its scope and touches no row of another.
  lemma StoreKeepsLimit(root: real -> real, ops: seq<Op>, op: Op)
    requires op.DoStore? && Apply(root, Exec(root, ops), op) != Exec(root, ops)
    ensures var t, t' := Exec(root, ops), Apply(root, Exec(root, ops), op);
            && |IdsIn(t'.rows, op.scope)| <= op.max
            && forall r: Row :: r.scope != op.scope ==> (r in t.rows <==> r in t'.rows)
  {
    RunSourced(root, ops);
    var t := Exec(root, ops);
    var all := Insert(t, op.scope, op.key, op.response, op.ttl, op.now);
    IdsAfterEviction(all, op.scope, op.evicted);
    forall r: Row | r.scope != op.scope ensures r in t.rows <==> r in Evict(all, op.evicted).rows {
      OthersStay(all, op.scope, op.evicted, r);
    }
  }

  lemma IdsAfterEviction(all: Table, scope: string, evicted: set<nat>)
    ensures IdsIn(Evict(all, evicted).rows, scope) == IdsIn(all.rows, scope) - evicted
  {
  }

  // A row of another scope stays.
  lemma OthersStay(all: Table, scope: string, evicted: set<nat>, r: Row)
    requires Sorted(all.rows) && evicted <= IdsIn(all.rows, scope) && r.scope != scope
    ensures r in Evict(all, evicted).rows <==> r in all.rows
  {
    if r in all.rows && r.id in evicted {
      IdTellsScope(all.rows, scope, r);
    }
  }

  lemma IdTellsScope(rows: seq<Row>, scope: string, r: Row)
    requires Sorted(rows) && r in rows && r.id in IdsIn(rows, scope)
    ensures r.scope == scope
  {
    UniqueIds(rows);
    var e :| e in rows && e.scope == scope && e.id == r.id;
  }

  // Rows of the scope, other than the one with this id, accessed at or after a time.
  function Since(rows: seq<Row>, scope: string, id: nat, time: real): set<nat> {
    set r | r in rows && r.scope == scope && r.id != id && r.lastAccess >= time :: r.id
  }

  // A row is evicted only if at least max others of its scope were accessed since, so a new
  // row goes at once only if the clock did not move past max others.
  lemma EvictedOnlyAfterOthers(root: real -> real, ops: seq<Op>, op: Op, r: Row)
    requires op.DoStore? && Apply(root, Exec(root, ops), op) != Exec(root, ops)
    requires r in Insert(Exec(root, ops), op.scope, op.key, op.response, op.ttl, op.now).rows
    requires r !in Apply(root, Exec(root, ops), op).rows
    ensures r.scope == op.scope
    ensures var all := Insert(Exec(root, ops), op.scope, op.key, op.response, op.ttl, op.now).rows;
            |Since(all, op.scope, r.id, r.lastAccess)| >= op.max
  {
    RunSourced(root, ops);
    TrimmedAfterOthers(Insert(Exec(root, ops), op.scope, op.key, op.response, op.ttl, op.now).rows, op.scope, op.max,
                       op.evicted, r);
  }

  lemma TrimmedAfterOthers(all: seq<Row>, scope: string, max: nat, evicted: set<nat>, r: Row)
    requires Sorted(all) && Trims(all, scope, max, evicted) && r in all && r.id in evicted
    ensures r.scope == scope && |Since(all, scope, r.id, r.lastAccess)| >= max
  {
    IdTellsScope(all, scope, r);
    var kept := IdsIn(all, scope) - evicted;
    forall id | id in kept ensures id in Since(all, scope, r.id, r.lastAccess) {
      var k :| k in all && k.scope == scope && k.id == id;
      assert r.lastAccess <= k.lastAccess;
    }
    Larger(kept, Since(all, scope, r.id, r.lastAccess));
    Larger(kept, IdsIn(all, scope) - {r.id});
  }

  lemma Larger(a: set<nat>, b: set<nat>)
    requires a <= b
    ensures |a| <= |b|
  {
    if a != {} {
      var x :| x in a;
      Larger(a - {x}, b - {x});
    }
  }

  lemma NewestRowStays(root: real -> real, ops: seq<Op>, op: Op)
    requires op.DoStore? && op.max > 0 && Apply(root, Exec(root, ops), op) != Exec(root, ops)
    requires forall r :: r in Exec(root, ops).rows && r.scope == op.scope ==> r.lastAccess < op.now
    ensures NewRow(Exec(root, ops).nextId, op.scope, op.key, op.response, op.ttl, op.now)
            in Apply(root, Exec(root, ops), op).rows
  {
    var t := Exec(root, ops);
    var r := NewRow(t.nextId, op.scope, op.key, op.response, op.ttl, op.now);
    assert Since(Insert(t, op.scope, op.key, op.response, op.ttl, op.now).rows, op.scope, r.id, r.lastAccess) == {};
    if r !in Apply(root, t, op).rows {
      EvictedOnlyAfterOthers(root, ops, op, r);
    }
  }

  // --- two short runs ---

  const KEY_1 := SemanticKey("a", "1", "m", "t", "s", [1.0])
  const KEY_2 := SemanticKey("a", "1", "m", "t", "s", [2.0])
  const STORE_1 := DoStore("g", 9, KEY_1, "first", 10.0, 0.0, {})
  const STORE_2 := DoStore("g", 9, KEY_2, "second", 10.0, 1.0, {})
  const ROW_1 := NewRow(0, "g", KEY_1, "first", 10.0, 0.0)
  const ROW_2 := NewRow(1, "g", KEY_2, "second", 10.0, 1.0)

  lemma {:induction false} SelectAll(rows: seq<Row>, keep: Row -> bool)
    requires forall r :: r in rows ==> keep(r)
    ensures Select(rows, keep) == rows
  {
    if rows != [] {
      var n := |rows| - 1;
      SelectAll(rows[..n], keep);
      assert rows[n] in rows && rows[..n] + [rows[n]] == rows;
    }
  }

  lemma {:induction false} IdsAtMost(rows: seq<Row>, scope: string)
    ensures |IdsIn(rows, scope)| <= |rows|
  {
    if rows != [] {
      var n := |rows| - 1;
      IdsAtMost(rows[..n], scope);
      assert rows == rows[..n] + [rows[n]];
      assert IdsIn(rows, scope) == IdsIn(rows[..n], scope) + if rows[n].scope == scope then {rows[n].id} else {};
    }
  }

  lemma StoreUnderLimit(root: real -> real, t: Table, op: Op)
    requires op.DoStore? && op.evicted == {} && |t.rows| < op.max
    ensures Apply(root, t, op) == Insert(t, op.scope, op.key, op.response, op.ttl, op.now)
  {
    var all := Insert(t, op.scope, op.key, op.response, op.ttl, op.now);
    IdsAtMost(all.rows, op.scope);
    assert IdsIn(all.rows, op.scope) - {} == IdsIn(all.rows, op.scope);
    SelectAll(all.rows, (r: Row) => r.id !in op.evicted);
  }

  lemma TwoRows(root: real -> real)
    ensures Exec(root, [STORE_1, STORE_2]).rows == [ROW_1, ROW_2]
  {
    OneRow(root);
    SecondStore(root);
    ExecSnoc(root, [STORE_1], STORE_2);
    assert [STORE_1] + [STORE_2] == [STORE_1, STORE_2];
  }

  lemma SecondStore(root: real -> real)
    ensures Apply(root, Table([ROW_1], 1), STORE_2) == Table([ROW_1, ROW_2], 2)
  {
    StoreUnderLimit(root, Table([ROW_1], 1), STORE_2);
    assert Insert(Table([ROW_1], 1), "g", KEY_2, "second", 10.0, 1.0).rows == [ROW_1, ROW_2];
  }

  lemma OneRow(root: real -> real)
    ensures Exec(root, [STORE_1]) == Table([ROW_1], 1)
  {
    StoreUnderLimit(root, Table([], 0), STORE_1);
    assert Insert(Table([], 0), "g", KEY_1, "first", 10.0, 0.0).rows == [ROW_1];
    ExecSnoc(root, [], STORE_1);
    assert [] + [STORE_1] == [STORE_1];
  }

  lemma ExecSnoc(root: real -> real, ops: seq<Op>, op: Op)
    ensures Exec(root, ops + [op]) == Apply(root, Exec(root, ops), op)
  {
    assert (ops + [op])[..|ops + [op]| - 1] == ops;
  }

  lemma SameDirection(root: real -> real)
    requires IsSqrt(root)
    ensures Nonzero([2.0]) && CosineSimilarity(root, [2.0], [1.0]) == 1.0
  {
  }

  // Two answers stored under vectors pointing the same way: the second key gets the first
  // answer, at similarity 1.
  lemma OlderParallelRowAnswers(root: real -> real)
    requires IsSqrt(root)
    ensures LookupHit(root, Exec(root, [STORE_1, STORE_2]), Query("g", KEY_2, 1.0, 2.0)) == Some(Hit("first", 1.0))
  {
    TwoRows(root);
    SameDirection(root);
    var ops := [STORE_1, STORE_2];
    var t, q := Exec(root, ops), Query("g", KEY_2, 1.0, 2.0);
    assert t.rows[0] == ROW_1 && t.rows[1] == ROW_2;
    assert Bucket(KEY_1) == Bucket(KEY_2);
    assert Candidate(ROW_1, q) && Candidate(ROW_2, q) && Similarity(root, ROW_1, q) == 1.0;
    StoredKeyHits(root, ops, q, ROW_2);
    assert Found(root, t, q) != Some(ROW_2);
    assert Found(root, t, q) == Some(ROW_1);
  }
}
