// cache/semantic.py, the Redis backend: entries under keys of their own, one set of entry keys
// per bucket and one set of entry and bucket keys per agent. Each await is one command.
module RedisIndex {
  import opened Events
  import opened Cosine
  import opened CacheKeys

  // The keys the backend uses; the scope's prefix is the same for all of them.
  datatype Name = EntryName(bucket: string, ns: nat) | BucketName(bucket: string) | AgentName(agent: string)

  datatype Entry = Entry(vector: seq<real>, response: string)

  // A set that is not there reads as empty.
  datatype Redis = Redis(values: map<Name, Entry>, sets: map<Name, set<Name>>)

  function Members(r: Redis, n: Name): set<Name> {
    if n in r.sets then r.sets[n] else {}
  }

  // --- commands ---

  function Add(r: Redis, n: Name, members: set<Name>): Redis {
    r.(sets := r.sets[n := Members(r, n) + members])
  }

  function Drop(r: Redis, n: Name, members: set<Name>): Redis {
    if n in r.sets then r.(sets := r.sets[n := r.sets[n] - members]) else r
  }

  function Delete(r: Redis, names: set<Name>): Redis {
    Redis(r.values - names, r.sets - names)
  }

  // --- store, lookup, invalidate, and the server's expiry ---

  function SetEntry(r: Redis, k: SemanticKey, response: string, ns: nat): Redis {
    r.(values := r.values[EntryName(Bucket(k), ns) := Entry(k.vector, response)])
  }

  function AddToBucket(r: Redis, k: SemanticKey, ns: nat): Redis {
    Add(r, BucketName(Bucket(k)), {EntryName(Bucket(k), ns)})
  }

  function AddToAgent(r: Redis, k: SemanticKey, ns: nat): Redis {
    Add(r, AgentName(k.agent), {EntryName(Bucket(k), ns), BucketName(Bucket(k))})
  }

  function Store(r: Redis, k: SemanticKey, response: string, ns: nat): Redis {
    AddToAgent(AddToBucket(SetEntry(r, k, response, ns), k, ns), k, ns)
  }

  function Invalidate(r: Redis, agent: string): Redis {
    Delete(r, Members(r, AgentName(agent)) + {AgentName(agent)})
  }

  function LiveMembers(r: Redis, k: SemanticKey): set<Name> {
    set n | n in Members(r, BucketName(Bucket(k))) && n in r.values
  }

  function AfterLookup(r: Redis, k: SemanticKey): Redis {
    Drop(r, BucketName(Bucket(k)), Members(r, BucketName(Bucket(k))) - LiveMembers(r, k))
  }

  function Expire(r: Redis, n: Name): Redis {
    r.(values := r.values - {n})
  }

  datatype Hit = Hit(response: string, similarity: real)

  function SimilarityTo(root: real -> real, r: Redis, k: SemanticKey, n: Name): real
    requires n in r.values
  {
    CosineSimilarity(root, k.vector, r.values[n].vector)
  }

  // What a lookup may answer: the members of a set come in any order.
  ghost predicate Answers(root: real -> real, r: Redis, k: SemanticKey, threshold: real, hit: Option<Hit>) {
    if hit.None? then forall n :: n in LiveMembers(r, k) ==> SimilarityTo(root, r, k, n) < threshold
    else
      && hit.value.similarity >= threshold
      && (forall n :: n in LiveMembers(r, k) ==> SimilarityTo(root, r, k, n) <= hit.value.similarity)
      && exists n :: n in LiveMembers(r, k) && hit.value == Hit(r.values[n].response, SimilarityTo(root, r, k, n))
  }

  datatype Op =
    | DoStore(key: SemanticKey, response: string, ns: nat)
    | DoLookup(key: SemanticKey)
    | DoInvalidate(agent: string)
    | DoExpire(bucket: string, ns: nat)

  function Apply(r: Redis, op: Op): Redis {
    match op
    case DoStore(k, response, ns) => Store(r, k, response, ns)
    case DoLookup(k) => AfterLookup(r, k)
    case DoInvalidate(agent) => Invalidate(r, agent)
    case DoExpire(bucket, ns) => Expire(r, EntryName(bucket, ns))
  }

  function Exec(r: Redis, ops: seq<Op>): Redis {
    if ops == [] then r else Apply(Exec(r, ops[..|ops| - 1]), ops[|ops| - 1])
  }

  const NO_DATA := Redis(map[], map[])

  predicate AllHashed(ops: seq<Op>) {
    forall i :: 0 <= i < |ops| && (ops[i].DoStore? || ops[i].DoLookup?) ==> Hashed(ops[i].key)
  }

  // --- the object ---

  class RedisSemanticCache {
    const root: real -> real
    var client: Redis
    var lastTopSimilarity: real

    constructor (root: real -> real, client: Redis)
      ensures this.root == root && this.client == client
    {
      this.root, this.client, lastTopSimilarity := root, client, 0.0;
    }

    method Lookup(key: SemanticKey, threshold: real) returns (hit: Option<Hit>)
      modifies this
      ensures client == AfterLookup(old(client), key)
      ensures Answers(root, old(client), key, threshold, hit)
    {
      var bucket := BucketName(Bucket(key));
      var best, stale := Scan(root, client, key, Members(client, bucket));
      AllSeen(root, client, key, best, threshold);
      client := Drop(client, bucket, stale);
      lastTopSimilarity := if best.Some? then best.value.similarity else 0.0;
      if best.None? || best.value.similarity < threshold {
        return None;
      }
      return best;
    }

    // The loop over the members of the bucket's set.
    static method Scan(root: real -> real, r: Redis, key: SemanticKey, members: set<Name>)
      returns (best: Option<Hit>, stale: set<Name>)
      requires members == Members(r, BucketName(Bucket(key)))
      ensures BestOf(root, r, key, members, best)
      ensures stale == members - LiveMembers(r, key)
    {
      best, stale := None, {};
      var rest := members;
      while rest != {}
        invariant Scanned(root, r, key, members, rest, best, stale)
        decreases |rest|
      {
        var name :| name in rest;
        ScanOne(root, r, key, members, rest, best, stale, name);
        if name !in r.values {
          stale := stale + {name};
        } else {
          var similarity := CosineSimilarity(root, key.vector, r.values[name].vector);
          if best.None? || similarity > best.value.similarity {
            best := Some(Hit(r.values[name].response, similarity));
          }
        }
        rest := rest - {name};
      }
      assert members - rest == members;
    }

    method StoreResponse(key: SemanticKey, response: string, ns: nat)
      modifies this
      ensures client == Store(old(client), key, response, ns)
    {
      client := SetEntry(client, key, response, ns);
      client := AddToBucket(client, key, ns);
      client := AddToAgent(client, key, ns);
    }

    method InvalidateAgent(agent: string)
      modifies this
      ensures client == Invalidate(old(client), agent)
    {
      var names := Members(client, AgentName(agent));
      client := Delete(client, names);
      client := Delete(client, {AgentName(agent)});
    }
  }

  // The best of the live members among those seen.
  ghost predicate BestOf(root: real -> real, r: Redis, k: SemanticKey, seen: set<Name>, best: Option<Hit>) {
    if best.None? then forall n :: n in LiveMembers(r, k) ==> n !in seen
    else
      && (forall n :: n in LiveMembers(r, k) && n in seen ==> SimilarityTo(root, r, k, n) <= best.value.similarity)
      && exists n :: n in LiveMembers(r, k) && best.value == Hit(r.values[n].response, SimilarityTo(root, r, k, n))
  }

  ghost predicate Scanned(root: real -> real, r: Redis, k: SemanticKey, members: set<Name>, rest: set<Name>,
                          best: Option<Hit>, stale: set<Name>)
  {
    rest <= members && stale == (members - rest) - LiveMembers(r, k) && BestOf(root, r, k, members - rest, best)
  }

  function Better(root: real -> real, r: Redis, k: SemanticKey, best: Option<Hit>, n: Name): Option<Hit> {
    if n in r.values && (best.None? || SimilarityTo(root, r, k, n) > best.value.similarity)
    then Some(Hit(r.values[n].response, SimilarityTo(root, r, k, n)))
    else best
  }

  lemma ScanOne(root: real -> real, r: Redis, k: SemanticKey, members: set<Name>, rest: set<Name>,
                best: Option<Hit>, stale: set<Name>, name: Name)
    requires Scanned(root, r, k, members, rest, best, stale) && name in rest
             && members == Members(r, BucketName(Bucket(k)))
    ensures Scanned(root, r, k, members, rest - {name}, Better(root, r, k, best, name),
                    if name in r.values then stale else stale + {name})
  {
    assert members - (rest - {name}) == (members - rest) + {name};
    assert name in r.values <==> name in LiveMembers(r, k);
  }

  lemma AllSeen(root: real -> real, r: Redis, k: SemanticKey, best: Option<Hit>, threshold: real)
    requires BestOf(root, r, k, Members(r, BucketName(Bucket(k))), best)
    ensures Answers(root, r, k, threshold, if best.None? || best.value.similarity < threshold then None else best)
  {
  }

  // --- coherence ---

  // A bucket's set lists entries of that bucket, all of them in the set of the bucket's agent
  // together with the bucket itself.
  ghost predicate BucketCoherent(r: Redis, k: SemanticKey) {
    && (forall n :: n in Members(r, BucketName(Bucket(k))) ==>
                      n.EntryName? && n.bucket == Bucket(k) && n in Members(r, AgentName(k.agent)))
    && (Members(r, BucketName(Bucket(k))) != {} ==> BucketName(Bucket(k)) in Members(r, AgentName(k.agent)))
  }

  // An agent's set names nothing that belongs to another agent's buckets.
  ghost predicate OwnsOnly(r: Redis, agent: string, k: SemanticKey) {
    k.agent != agent ==>
      BucketName(Bucket(k)) !in Members(r, AgentName(agent))
      && forall ns :: EntryName(Bucket(k), ns) !in Members(r, AgentName(agent))
  }

  ghost predicate NamesNoAgent(r: Redis, agent: string) {
    forall n :: n in Members(r, AgentName(agent)) ==> !n.AgentName?
  }

  ghost predicate Coherent(r: Redis) {
    && (forall k :: Hashed(k) ==> BucketCoherent(r, k))
    && (forall agent, k :: Hashed(k) ==> OwnsOnly(r, agent, k))
    && (forall agent :: NamesNoAgent(r, agent))
  }

  lemma StoreCoherent(r: Redis, k: SemanticKey, response: string, ns: nat)
    requires Coherent(r) && Hashed(k)
    ensures Coherent(Store(r, k, response, ns))
  {
    var t := Store(r, k, response, ns);
    forall l | Hashed(l) ensures BucketCoherent(t, l) {
      BucketIsInjective(k, l);
      assert BucketCoherent(r, l);
    }
    forall agent, l | Hashed(l) ensures OwnsOnly(t, agent, l) {
      BucketIsInjective(k, l);
      assert OwnsOnly(r, agent, l);
    }
    forall agent ensures NamesNoAgent(t, agent) {
      assert NamesNoAgent(r, agent);
    }
  }

  lemma InvalidateCoherent(r: Redis, agent: string)
    requires Coherent(r)
    ensures Coherent(Invalidate(r, agent))
    ensures forall k :: Hashed(k) && k.agent != agent ==> Untouched(r, Invalidate(r, agent), k)
    ensures forall k :: Hashed(k) && k.agent == agent ==> Members(Invalidate(r, agent), BucketName(Bucket(k))) == {}
  {
    var t := Invalidate(r, agent);
    forall k | Hashed(k) && k.agent != agent ensures Untouched(r, t, k) {
      assert OwnsOnly(r, agent, k) && NamesNoAgent(r, agent) && BucketCoherent(r, k);
    }
    forall k | Hashed(k) && k.agent == agent ensures Members(t, BucketName(Bucket(k))) == {} {
      assert BucketCoherent(r, k);
    }
    forall k | Hashed(k) ensures BucketCoherent(t, k) {
      assert BucketCoherent(r, k);
      assert k.agent != agent ==> Untouched(r, t, k);
    }
    forall a, k | Hashed(k) ensures OwnsOnly(t, a, k) {
      assert OwnsOnly(r, a, k);
    }
    forall a ensures NamesNoAgent(t, a) {
      assert NamesNoAgent(r, a);
    }
  }

  // The bucket, its live entries and its agent's set read as before.
  ghost predicate Untouched(r: Redis, t: Redis, k: SemanticKey) {
    && Members(t, BucketName(Bucket(k))) == Members(r, BucketName(Bucket(k)))
    && Members(t, AgentName(k.agent)) == Members(r, AgentName(k.agent))
    && forall n :: n in Members(r, BucketName(Bucket(k))) ==>
                     (n in t.values <==> n in r.values) && (n in r.values ==> t.values[n] == r.values[n])
  }

  lemma LookupCoherent(r: Redis, k: SemanticKey)
    requires Coherent(r) && Hashed(k)
    ensures Coherent(AfterLookup(r, k))
  {
    var t := AfterLookup(r, k);
    forall l | Hashed(l) ensures BucketCoherent(t, l) {
      assert BucketCoherent(r, l);
    }
    forall agent, l | Hashed(l) ensures OwnsOnly(t, agent, l) {
      assert OwnsOnly(r, agent, l);
    }
    forall agent ensures NamesNoAgent(t, agent) {
      assert NamesNoAgent(r, agent);
    }
  }

  lemma StepCoherent(r: Redis, op: Op)
    requires Coherent(r) && (op.DoStore? || op.DoLookup? ==> Hashed(op.key))
    ensures Coherent(Apply(r, op))
  {
    match op
    case DoStore(k, response, ns) => StoreCoherent(r, k, response, ns);
    case DoLookup(k) => LookupCoherent(r, k);
    case DoInvalidate(agent) => InvalidateCoherent(r, agent);
    case DoExpire(bucket, ns) =>
      var t := Expire(r, EntryName(bucket, ns));
      assert forall n :: Members(t, n) == Members(r, n);
      assert forall k :: BucketCoherent(r, k) ==> BucketCoherent(t, k);
      assert forall a, k :: OwnsOnly(r, a, k) ==> OwnsOnly(t, a, k);
      assert forall a :: NamesNoAgent(r, a) ==> NamesNoAgent(t, a);
  }

  // Over any run of whole operations, every entry a bucket lists is listed by its agent.
  lemma {:induction false} RunCoherent(ops: seq<Op>)
    requires AllHashed(ops)
    ensures Coherent(Exec(NO_DATA, ops))
  {
    if ops != [] {
      var before, op := ops[..|ops| - 1], ops[|ops| - 1];
      RunCoherent(before);
      StepCoherent(Exec(NO_DATA, before), op);
    }
  }

  // --- invalidation ---

  predicate StoresFor(op: Op, agent: string) {
    op.DoStore? && op.key.agent == agent
  }

  ghost predicate BucketsEmpty(r: Redis, agent: string) {
    forall k :: Hashed(k) && k.agent == agent ==> Members(r, BucketName(Bucket(k))) == {}
  }

  lemma StayEmpty(r: Redis, op: Op, agent: string)
    requires BucketsEmpty(r, agent) && !StoresFor(op, agent) && (op.DoStore? ==> Hashed(op.key))
    ensures BucketsEmpty(Apply(r, op), agent)
  {
    forall k | Hashed(k) && k.agent == agent ensures Members(Apply(r, op), BucketName(Bucket(k))) == {} {
      if op.DoStore? {
        BucketIsInjective(k, op.key);
      }
    }
  }

  // After an invalidation every lookup for the agent misses, whatever else happens, until
  // something is stored for that agent again.
  lemma {:induction false} InvalidatedAgentMisses(root: real -> real, ops: seq<Op>, agent: string, later: seq<Op>,
                                                  k: SemanticKey, threshold: real, hit: Option<Hit>)
    requires AllHashed(ops) && AllHashed(later) && Hashed(k) && k.agent == agent
    requires forall i :: 0 <= i < |later| ==> !StoresFor(later[i], agent)
    requires Answers(root, Exec(Invalidate(Exec(NO_DATA, ops), agent), later), k, threshold, hit)
    ensures hit.None?
  {
    EmptyUntilStored(ops, agent, later);
    assert LiveMembers(Exec(Invalidate(Exec(NO_DATA, ops), agent), later), k) == {};
  }

  lemma {:induction false} EmptyUntilStored(ops: seq<Op>, agent: string, later: seq<Op>)
    requires AllHashed(ops) && AllHashed(later) && forall i :: 0 <= i < |later| ==> !StoresFor(later[i], agent)
    ensures BucketsEmpty(Exec(Invalidate(Exec(NO_DATA, ops), agent), later), agent)
  {
    if later == [] {
      RunCoherent(ops);
      InvalidateCoherent(Exec(NO_DATA, ops), agent);
    } else {
      var before, op := later[..|later| - 1], later[|later| - 1];
      EmptyUntilStored(ops, agent, before);
      StayEmpty(Exec(Invalidate(Exec(NO_DATA, ops), agent), before), op, agent);
    }
  }

  // An invalidation changes no answer of another agent.
  lemma OtherAgentsKeepTheirAnswers(root: real -> real, ops: seq<Op>, agent: string, k: SemanticKey, threshold: real,
                                    hit: Option<Hit>)
    requires AllHashed(ops) && Hashed(k) && k.agent != agent
    ensures Answers(root, Exec(NO_DATA, ops), k, threshold, hit)
            <==> Answers(root, Invalidate(Exec(NO_DATA, ops), agent), k, threshold, hit)
  {
    RunCoherent(ops);
    var r := Exec(NO_DATA, ops);
    InvalidateCoherent(r, agent);
    assert Untouched(r, Invalidate(r, agent), k);
    SameAnswers(root, r, Invalidate(r, agent), k, threshold, hit);
  }

  lemma SameAnswers(root: real -> real, r: Redis, t: Redis, k: SemanticKey, threshold: real, hit: Option<Hit>)
    requires Untouched(r, t, k)
    ensures Answers(root, r, k, threshold, hit) <==> Answers(root, t, k, threshold, hit)
  {
    assert LiveMembers(r, k) == LiveMembers(t, k);
    forall n | n in LiveMembers(r, k)
      ensures SimilarityTo(root, r, k, n) == SimilarityTo(root, t, k, n) && r.values[n] == t.values[n]
    {
    }
  }

  // --- what a lookup and an expiry change ---

  // A lookup takes the names without an entry out of its bucket's set and changes nothing else, so
  // what any key finds stays; an expired entry is found no more, and any other as before.
  lemma LookupDropsOnlyStaleNames(r: Redis, k: SemanticKey, bucket: string, ns: nat)
    ensures var t := AfterLookup(r, k);
            && Members(t, BucketName(Bucket(k))) == LiveMembers(r, k) && t.values == r.values
            && (forall n :: n != BucketName(Bucket(k)) ==> Members(t, n) == Members(r, n))
            && forall l :: LiveMembers(t, l) == LiveMembers(r, l)
    ensures forall l :: LiveMembers(Expire(r, EntryName(bucket, ns)), l) == LiveMembers(r, l) - {EntryName(bucket, ns)}
  {
    var t := AfterLookup(r, k);
    assert Members(t, BucketName(Bucket(k))) == LiveMembers(r, k);
    forall l ensures LiveMembers(t, l) == LiveMembers(r, l) {
      if BucketName(Bucket(l)) != BucketName(Bucket(k)) {
        assert Members(t, BucketName(Bucket(l))) == Members(r, BucketName(Bucket(l)));
      }
    }
    var u := Expire(r, EntryName(bucket, ns));
    forall l ensures LiveMembers(u, l) == LiveMembers(r, l) - {EntryName(bucket, ns)} {
      assert Members(u, BucketName(Bucket(l))) == Members(r, BucketName(Bucket(l)));
    }
  }

  // --- a stored answer ---

  lemma StoredIsLive(r: Redis, k: SemanticKey, response: string, ns: nat)
    ensures var t, e := Store(r, k, response, ns), EntryName(Bucket(k), ns);
            && e in LiveMembers(t, k) && t.values[e] == Entry(k.vector, response)
            && LiveMembers(t, k) == LiveMembers(r, k) + {e}
  {
  }

  // After a store under a vector other than zero, whatever was there before, a lookup of the same
  // key hits at similarity 1, at every threshold up to 1. The stored response is an answer, and it
  // is the only one exactly when every live entry of the bucket that points the same way holds it.
  lemma StoredKeyHits(root: real -> real, r: Redis, k: SemanticKey, response: string, ns: nat, threshold: real)
    requires IsSqrt(root) && Nonzero(k.vector) && threshold <= 1.0
    ensures var t := Store(r, k, response, ns);
            && Answers(root, t, k, threshold, Some(Hit(response, 1.0)))
            && (forall hit :: Answers(root, t, k, threshold, hit) ==> hit.Some? && hit.value.similarity == 1.0)
            && ((forall hit :: Answers(root, t, k, threshold, hit) ==> hit.value.response == response)
                <==> forall n :: n in LiveMembers(t, k) && SimilarityTo(root, t, k, n) == 1.0 ==>
                                   t.values[n].response == response)
  {
    var t, e := Store(r, k, response, ns), EntryName(Bucket(k), ns);
    StoredIsLive(r, k, response, ns);
    SelfIsOne(root, k.vector);
    forall n | n in LiveMembers(t, k) ensures SimilarityTo(root, t, k, n) <= 1.0 {
      CosineInRange(root, k.vector, t.values[n].vector);
    }
    assert SimilarityTo(root, t, k, e) == 1.0;
    forall n | n in LiveMembers(t, k) && SimilarityTo(root, t, k, n) == 1.0
      ensures Answers(root, t, k, threshold, Some(Hit(t.values[n].response, 1.0)))
    {
      assert Hit(t.values[n].response, 1.0) == Hit(t.values[n].response, SimilarityTo(root, t, k, n));
    }
  }

  const EVERY_AGENT := "*"

  // No lookup finds anything.
  ghost predicate Wiped(r: Redis) {
    forall k :: Hashed(k) ==> LiveMembers(r, k) == {}
  }

  // The star is an agent's name like any other here: it wipes the cache exactly when nobody but an
  // agent of that name has a live entry, and changes no answer of anybody else.
  lemma StarIsAnAgentName(ops: seq<Op>)
    requires AllHashed(ops)
    ensures var r := Exec(NO_DATA, ops); var t := Invalidate(r, EVERY_AGENT);
            && (Wiped(t) <==> forall k :: Hashed(k) && k.agent != EVERY_AGENT ==> LiveMembers(r, k) == {})
            && forall root: real -> real, k, threshold, hit :: Hashed(k) && k.agent != EVERY_AGENT ==>
                 (Answers(root, r, k, threshold, hit) <==> Answers(root, t, k, threshold, hit))
  {
    var r := Exec(NO_DATA, ops);
    var t := Invalidate(r, EVERY_AGENT);
    RunCoherent(ops);
    InvalidateCoherent(r, EVERY_AGENT);
    forall k | Hashed(k)
      ensures LiveMembers(t, k) == if k.agent == EVERY_AGENT then {} else LiveMembers(r, k)
    {
      if k.agent == EVERY_AGENT {
        assert Members(t, BucketName(Bucket(k))) == {};
      } else {
        assert Untouched(r, t, k);
      }
    }
    forall root: real -> real, k, threshold, hit | Hashed(k) && k.agent != EVERY_AGENT
      ensures Answers(root, r, k, threshold, hit) <==> Answers(root, t, k, threshold, hit)
    {
      SameAnswers(root, r, t, k, threshold, hit);
    }
  }
}
