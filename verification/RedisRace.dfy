// The Redis backend command by command: one store and one invalidation for the same agent, each
// an await at a time, in every order their commands can fall.
module RedisRace {
  import opened CacheKeys
  import opened RedisIndex

  // The store that runs: its entry's name has never been used.
  datatype Write = Write(key: SemanticKey, response: string, ns: nat)

  // Who runs its next command.
  datatype Turn = Storing | Invalidating

  // Commands each of the two has run, and the names the invalidation has read. atRead, atDelete
  // and atEnd are history: the store's commands run before the invalidation's SMEMBERS, its DEL
  // of the names, and its DEL of the agent's set.
  datatype Race = Race(r: Redis, stored: nat, done: nat, names: set<Name>, atRead: nat, atDelete: nat, atEnd: nat)

  function Entered(w: Write): Name {
    EntryName(Bucket(w.key), w.ns)
  }

  function BucketOf(w: Write): Name {
    BucketName(Bucket(w.key))
  }

  function AgentOf(w: Write): Name {
    AgentName(w.key.agent)
  }

  function StoreCommand(r: Redis, w: Write, i: nat): Redis {
    if i == 0 then SetEntry(r, w.key, w.response, w.ns)
    else if i == 1 then AddToBucket(r, w.key, w.ns)
    else AddToAgent(r, w.key, w.ns)
  }

  // A command of one that has finished does nothing.
  function Step(x: Race, w: Write, turn: Turn): Race {
    match turn
    case Storing =>
      if x.stored >= 3 then x else x.(r := StoreCommand(x.r, w, x.stored), stored := x.stored + 1)
    case Invalidating =>
      if x.done == 0 then x.(names := Members(x.r, AgentOf(w)), done := 1, atRead := x.stored)
      else if x.done == 1 then x.(r := Delete(x.r, x.names), done := 2, atDelete := x.stored)
      else if x.done == 2 then x.(r := Delete(x.r, {AgentOf(w)}), done := 3, atEnd := x.stored)
      else x
  }

  function Run(r: Redis, w: Write, turns: seq<Turn>): Race {
    if turns == [] then Race(r, 0, 0, {}, 0, 0, 0)
    else Step(Run(r, w, turns[..|turns| - 1]), w, turns[|turns| - 1])
  }

  predicate BothRan(x: Race) {
    x.stored == 3 && x.done == 3
  }

  // time_ns gives a name no key and no set of the agent holds yet.
  ghost predicate Unused(r: Redis, w: Write) {
    Entered(w) !in r.values && Entered(w) !in Members(r, BucketOf(w)) && Entered(w) !in Members(r, AgentOf(w))
  }

  // --- what is there after any number of commands ---

  // The names the invalidation deletes, once it has read them.
  function Doomed(r: Redis, w: Write, x: Race): set<Name> {
    Members(r, AgentOf(w)) + if x.atRead == 3 then {Entered(w), BucketOf(w)} else {}
  }

  predicate Gone(r: Redis, w: Write, x: Race, n: Name) {
    x.done >= 2 && n in Doomed(r, w, x)
  }

  function InBucket(r: Redis, w: Write, x: Race): set<Name> {
    (if Gone(r, w, x, BucketOf(w)) then {} else Members(r, BucketOf(w)))
    + if x.stored >= 2 && !(Gone(r, w, x, BucketOf(w)) && x.atDelete >= 2) then {Entered(w)} else {}
  }

  function InAgent(r: Redis, w: Write, x: Race): set<Name> {
    (if x.done == 3 then {} else Members(r, AgentOf(w)))
    + if x.stored == 3 && !(x.done == 3 && x.atEnd == 3) then {Entered(w), BucketOf(w)} else {}
  }

  ghost predicate CountsOk(w: Write, r: Redis, x: Race) {
    && x.stored <= 3 && x.done <= 3 && x.atRead <= x.stored && x.atDelete <= x.stored && x.atEnd <= x.stored
    && (x.done < 1 ==> x.atRead == 0) && (x.done < 2 ==> x.atDelete == 0) && (x.done < 3 ==> x.atEnd == 0)
    && (x.done >= 2 ==> x.atRead <= x.atDelete) && (x.done >= 3 ==> x.atDelete <= x.atEnd)
    && (x.done >= 1 ==> x.names == Doomed(r, w, x))
  }

  ghost predicate SetsOk(r: Redis, w: Write, x: Race) {
    && Members(x.r, BucketOf(w)) == InBucket(r, w, x)
    && Members(x.r, AgentOf(w)) == InAgent(r, w, x)
    && forall n :: n != BucketOf(w) && n != AgentOf(w) ==>
                     Members(x.r, n) == if Gone(r, w, x, n) then {} else Members(r, n)
  }

  ghost predicate ValuesOk(r: Redis, w: Write, x: Race) {
    Entered(w) in x.r.values <==> x.stored >= 1 && !Gone(r, w, x, Entered(w))
  }

  ghost predicate RaceOk(r: Redis, w: Write, x: Race) {
    CountsOk(w, r, x) && SetsOk(r, w, x) && ValuesOk(r, w, x)
  }

  lemma StoreStep(r: Redis, w: Write, x: Race)
    requires RaceOk(r, w, x) && NamesNoAgent(r, w.key.agent) && Unused(r, w)
    ensures RaceOk(r, w, Step(x, w, Storing))
  {
    var t := Step(x, w, Storing);
    forall n | n != BucketOf(w) && n != AgentOf(w)
      ensures Members(t.r, n) == if Gone(r, w, t, n) then {} else Members(r, n)
    {
      assert Members(t.r, n) == Members(x.r, n) && (Gone(r, w, t, n) <==> Gone(r, w, x, n));
    }
  }

  lemma InvalidateStep(r: Redis, w: Write, x: Race)
    requires RaceOk(r, w, x) && NamesNoAgent(r, w.key.agent) && Unused(r, w)
    ensures RaceOk(r, w, Step(x, w, Invalidating))
  {
    var t := Step(x, w, Invalidating);
    forall n | n != BucketOf(w) && n != AgentOf(w)
      ensures Members(t.r, n) == if Gone(r, w, t, n) then {} else Members(r, n)
    {
      assert Members(x.r, n) == if Gone(r, w, x, n) then {} else Members(r, n);
    }
  }

  lemma {:induction false} RunOk(r: Redis, w: Write, turns: seq<Turn>)
    requires NamesNoAgent(r, w.key.agent) && Unused(r, w)
    ensures RaceOk(r, w, Run(r, w, turns))
  {
    if turns != [] {
      var before, turn := turns[..|turns| - 1], turns[|turns| - 1];
      RunOk(r, w, before);
      match turn
      case Storing => StoreStep(r, w, Run(r, w, before));
      case Invalidating => InvalidateStep(r, w, Run(r, w, before));
    }
  }

  // --- what the invalidation misses ---

  // In every order, the entry is found afterwards exactly when the store was not over before the
  // names were read and its bucket was either not yet the agent's or deleted before the entry
  // was added to it.
  predicate Escapes(r: Redis, w: Write, x: Race) {
    x.atRead < 3 && (BucketOf(w) !in Members(r, AgentOf(w)) || x.atDelete < 2)
  }

  lemma EntryFoundExactly(r: Redis, w: Write, turns: seq<Turn>)
    requires Coherent(r) && Hashed(w.key) && Unused(r, w)
    requires BothRan(Run(r, w, turns))
    ensures var x := Run(r, w, turns);
            && (Entered(w) in LiveMembers(x.r, w.key) <==> Escapes(r, w, x))
            && (Escapes(r, w, x) ==> Members(x.r, BucketOf(w)) == {Entered(w)})
            && (!Escapes(r, w, x) ==> LiveMembers(x.r, w.key) == {})
  {
    assert NamesNoAgent(r, w.key.agent) && BucketCoherent(r, w.key);
    RunOk(r, w, turns);
  }

  // The index is in order afterwards unless such an entry's names went with the agent's set,
  // and it is then that no later invalidation removes it.
  lemma IndexLostExactly(r: Redis, w: Write, turns: seq<Turn>)
    requires Coherent(r) && Hashed(w.key) && Unused(r, w)
    requires BothRan(Run(r, w, turns))
    ensures var x := Run(r, w, turns);
            && (Coherent(x.r) <==> !(Escapes(r, w, x) && x.atEnd == 3))
            && (Entered(w) in LiveMembers(Invalidate(x.r, w.key.agent), w.key) <==> Escapes(r, w, x) && x.atEnd == 3)
  {
    var x := Run(r, w, turns);
    EntryFoundExactly(r, w, turns);
    RunOk(r, w, turns);
    if Escapes(r, w, x) && x.atEnd == 3 {
      assert !BucketCoherent(x.r, w.key);
    } else {
      CoherentAgain(r, w, x);
      InvalidateCoherent(x.r, w.key.agent);
    }
  }

  lemma CoherentAgain(r: Redis, w: Write, x: Race)
    requires Coherent(r) && Hashed(w.key) && RaceOk(r, w, x) && BothRan(x)
    requires !(Escapes(r, w, x) && x.atEnd == 3)
    ensures Coherent(x.r)
  {
    assert BucketCoherent(r, w.key);
    forall k | Hashed(k) ensures BucketCoherent(x.r, k) {
      BucketAgain(r, w, x, k);
    }
    forall agent, k | Hashed(k) ensures OwnsOnly(x.r, agent, k) {
      BucketIsInjective(k, w.key);
      assert OwnsOnly(r, agent, k);
    }
    forall agent ensures NamesNoAgent(x.r, agent) {
      assert NamesNoAgent(r, agent);
    }
  }

  lemma BucketAgain(r: Redis, w: Write, x: Race, k: SemanticKey)
    requires Coherent(r) && Hashed(w.key) && RaceOk(r, w, x) && BothRan(x)
    requires !(Escapes(r, w, x) && x.atEnd == 3) && Hashed(k)
    ensures BucketCoherent(x.r, k)
  {
    BucketIsInjective(k, w.key);
    assert BucketCoherent(r, k) && BucketCoherent(r, w.key);
    assert OwnsOnly(r, w.key.agent, k) && NamesNoAgent(r, w.key.agent);
    assert k.agent == w.key.agent && Bucket(k) != Bucket(w.key) ==> Members(x.r, BucketName(Bucket(k))) == {};
  }

  // --- three orders ---

  lemma SixTurns(r: Redis, w: Write, turns: seq<Turn>)
    requires |turns| == 6
    ensures var three := Step(Step(Step(Run(r, w, []), w, turns[0]), w, turns[1]), w, turns[2]);
            Run(r, w, turns) == Step(Step(Step(three, w, turns[3]), w, turns[4]), w, turns[5])
  {
    forall i | 0 <= i < 6 ensures Run(r, w, turns[..i + 1]) == Step(Run(r, w, turns[..i]), w, turns[i]) {
      assert turns[..i + 1][..i] == turns[..i];
    }
    assert turns[..6] == turns && turns[..0] == [];
    assert Run(r, w, turns[..3]) == Step(Step(Step(Run(r, w, turns[..0]), w, turns[0]), w, turns[1]), w, turns[2]);
  }

  const ONE_AFTER_THE_OTHER: seq<Turn> := [Storing, Storing, Storing, Invalidating, Invalidating, Invalidating]
  const BETWEEN_SADDS: seq<Turn> := [Storing, Storing, Invalidating, Invalidating, Invalidating, Storing]
  const INSIDE_INVALIDATION: seq<Turn> := [Invalidating, Storing, Storing, Storing, Invalidating, Invalidating]

  // Run one after the other they are the two whole operations.
  lemma InSequence(r: Redis, w: Write)
    ensures Run(r, w, ONE_AFTER_THE_OTHER).r == Invalidate(Store(r, w.key, w.response, w.ns), w.key.agent)
  {
    SixTurns(r, w, ONE_AFTER_THE_OTHER);
    var t := Store(r, w.key, w.response, w.ns);
    var names := Members(t, AgentOf(w));
    assert Delete(Delete(t, names), {AgentOf(w)}) == Delete(t, names + {AgentOf(w)});
  }

  // An invalidation that runs whole between the two SADDs of a store misses the entry exactly
  // when the bucket is new to the agent.
  lemma InvalidationCanMissAStore(r: Redis, w: Write)
    requires Coherent(r) && Hashed(w.key) && Unused(r, w)
    ensures Entered(w) in LiveMembers(Run(r, w, BETWEEN_SADDS).r, w.key)
            <==> BucketOf(w) !in Members(r, AgentOf(w))
  {
    SixTurns(r, w, BETWEEN_SADDS);
    EntryFoundExactly(r, w, BETWEEN_SADDS);
  }

  // A store that runs whole between an invalidation's SMEMBERS and its DELs puts the entry
  // beyond any later invalidation, again exactly when the bucket is new to the agent.
  lemma StoreInsideAnInvalidation(r: Redis, w: Write)
    requires Coherent(r) && Hashed(w.key) && Unused(r, w)
    ensures Entered(w) in LiveMembers(Invalidate(Run(r, w, INSIDE_INVALIDATION).r, w.key.agent), w.key)
            <==> BucketOf(w) !in Members(r, AgentOf(w))
  {
    SixTurns(r, w, INSIDE_INVALIDATION);
    IndexLostExactly(r, w, INSIDE_INVALIDATION);
  }
}
