// core/tool.py and cache/tool_result.py: a tool call goes through the exact-match result cache,
// then through the retry loop, and leaves its events behind.
module ToolCache {
  import opened Events
  import opened CacheKeys
  import opened ToolRetry

  datatype Tool = Tool(ref: string, version: string, authRetry: bool, cacheable: bool, ttl: Option<nat>,
                       scope: CacheScope)

  datatype Call = Call(tool: Tool, project: string, agent: string, input: string)

  datatype Key = Key(ref: string, version: string, inputHash: string)

  datatype Row = Row(output: string, expiresAt: real)

  // One dispatch: whether the agent's allowlist has the name, the registry knows it and the input
  // fits its schema; the call then made, and everything its environment decides.
  datatype Step = Step(
    allowed: bool, known: bool, fits: bool, call: Call, policy: Policy, env: nat -> Attempt, valid: string -> bool,
    hasCache: bool, now: real, lookupFails: bool, storedAt: real, storeFails: bool)

  datatype ToolEvent =
    | ToolStarted | ToolCompleted(success: bool, retryCount: nat, error: string)
    | CacheHit | CacheMiss | CacheStored | CacheWarning

  const NOT_ALLOWED := "ToolNotAllowedError"
  const NOT_FOUND := "ToolNotFoundError"
  const INPUT_INVALID := "ToolInputValidationError"
  const OUTPUT_INVALID := "ToolOutputValidationError"

  // --- the result cache: one row per key ---

  function Unexpired(rows: map<Key, Row>, now: real): map<Key, Row> {
    map k | k in rows && rows[k].expiresAt > now :: rows[k]
  }

  class InProcessResultCache {
    var rows: map<Key, Row>

    constructor ()
      ensures rows == map[]
    {
      rows := map[];
    }

    method Lookup(ref: string, version: string, inputHash: string, now: real) returns (output: Option<string>)
      modifies this
      ensures rows == Unexpired(old(rows), now)
      ensures var k := Key(ref, version, inputHash);
              output == if k in old(rows) && old(rows)[k].expiresAt > now then Some(old(rows)[k].output) else None
    {
      rows := Unexpired(rows, now);
      var k := Key(ref, version, inputHash);
      return if k in rows then Some(rows[k].output) else None;
    }

    method Store(ref: string, version: string, inputHash: string, output: string, ttl: nat, now: real)
      modifies this
      ensures rows == old(rows)[Key(ref, version, inputHash) := Row(output, now + ttl as real)]
    {
      rows := rows[Key(ref, version, inputHash) := Row(output, now + ttl as real)];
    }
  }

  // --- dispatch ---

  function KeyOf(hash: string -> string, c: Call): Key {
    Key(c.tool.ref, c.tool.version, ScopedInputHash(c.tool.scope, c.project, c.agent, hash(c.input)))
  }

  // What the dispatch raises before anything else, if it does.
  function Refusal(s: Step): Option<string> {
    if !s.allowed then Some(NOT_ALLOWED)
    else if !s.known then Some(NOT_FOUND)
    else if !s.fits then Some(INPUT_INVALID)
    else None
  }

  predicate UsesCache(s: Step) {
    Refusal(s).None? && s.call.tool.cacheable && s.call.tool.ttl.Some? && s.hasCache
  }

  predicate Hits(hash: string -> string, rows: map<Key, Row>, s: Step) {
    && UsesCache(s) && !s.lookupFails
    && KeyOf(hash, s.call) in rows && rows[KeyOf(hash, s.call)].expiresAt > s.now
    && s.valid(rows[KeyOf(hash, s.call)].output)
  }

  function Handled(s: Step): Ended {
    RunWithRetries(s.policy, s.call.tool.authRetry, s.env)
  }

  // The result of running the handler: its output is validated last.
  function Ran(s: Step): Final {
    var f := Handled(s).final;
    if f.Value? && !s.valid(f.output) then Error(OUTPUT_INVALID) else f
  }

  function AfterLookup(rows: map<Key, Row>, s: Step): map<Key, Row> {
    if UsesCache(s) && !s.lookupFails then Unexpired(rows, s.now) else rows
  }

  function AfterStore(hash: string -> string, rows: map<Key, Row>, s: Step): map<Key, Row> {
    if Ran(s).Value? && UsesCache(s) && !s.storeFails then
      rows[KeyOf(hash, s.call) := Row(Ran(s).output, s.storedAt + s.call.tool.ttl.value as real)]
    else rows
  }

  function AfterDispatch(hash: string -> string, rows: map<Key, Row>, s: Step): map<Key, Row> {
    if Hits(hash, rows, s) then AfterLookup(rows, s) else AfterStore(hash, AfterLookup(rows, s), s)
  }

  function Result(hash: string -> string, rows: map<Key, Row>, s: Step): Final {
    if Refusal(s).Some? then Error(Refusal(s).value)
    else if Hits(hash, rows, s) then Value(rows[KeyOf(hash, s.call)].output)
    else Ran(s)
  }

  // tool.started and tool.completed of a handler that ran.
  function HandlerEvents(s: Step): seq<ToolEvent> {
    match Ran(s)
    case Value(_) => [ToolStarted, ToolCompleted(true, Handled(s).count, "")]
    case Error(name) => [ToolStarted, ToolCompleted(false, Handled(s).count, name)]
    case _ => [ToolStarted]
  }

  function LookupEvents(hash: string -> string, rows: map<Key, Row>, s: Step): seq<ToolEvent> {
    if !UsesCache(s) then []
    else if s.lookupFails then [CacheWarning]
    else if KeyOf(hash, s.call) !in Unexpired(rows, s.now) then [CacheMiss]
    else if Hits(hash, rows, s) then [CacheHit]
    else [CacheWarning]
  }

  function EventsOf(hash: string -> string, rows: map<Key, Row>, s: Step): seq<ToolEvent> {
    if Refusal(s).Some? then []
    else if Hits(hash, rows, s) then LookupEvents(hash, rows, s)
    else
      LookupEvents(hash, rows, s) + HandlerEvents(s)
      + if !UsesCache(s) || !Ran(s).Value? then [] else if s.storeFails then [CacheWarning] else [CacheStored]
  }

  class ToolRegistry {
    const hash: string -> string
    const cache: InProcessResultCache
    var events: seq<ToolEvent>

    constructor (hash: string -> string, cache: InProcessResultCache)
      ensures this.hash == hash && this.cache == cache && events == []
    {
      this.hash, this.cache, events := hash, cache, [];
    }

    method Dispatch(s: Step) returns (result: Final)
      modifies this, cache
      ensures result == Result(hash, old(cache.rows), s)
      ensures cache.rows == AfterDispatch(hash, old(cache.rows), s)
      ensures events == old(events) + EventsOf(hash, old(cache.rows), s)
    {
      if !s.allowed {
        return Error(NOT_ALLOWED);
      }
      if !s.known {
        return Error(NOT_FOUND);
      }
      if !s.fits {
        return Error(INPUT_INVALID);
      }
      var tool := s.call.tool;
      var useCache := tool.cacheable && tool.ttl.Some? && s.hasCache;
      if useCache {
        var cached := CacheLookup(s);
        if cached.Some? {
          return Value(cached.value);
        }
      }
      events := events + [ToolStarted];
      ghost var waited, authAt;
      var count: nat;
      result, count, waited, authAt := RunHandler(s.policy, tool.authRetry, s.env);
      if result.Value? && !s.valid(result.output) {
        result := Error(OUTPUT_INVALID);
      }
      if result.Error? {
        events := events + [ToolCompleted(false, count, result.name)];
        return;
      }
      if !result.Value? {
        return;
      }
      events := events + [ToolCompleted(true, count, "")];
      if useCache {
        CacheStore(s, result.output);
      }
    }

    // _cache_lookup: errors and outputs that no longer fit the schema fall through.
    method CacheLookup(s: Step) returns (output: Option<string>)
      requires UsesCache(s)
      modifies this, cache
      ensures cache.rows == AfterLookup(old(cache.rows), s)
      ensures events == old(events) + LookupEvents(hash, old(cache.rows), s)
      ensures output == if Hits(hash, old(cache.rows), s)
                        then Some(old(cache.rows)[KeyOf(hash, s.call)].output) else None
    {
      if s.lookupFails {
        events := events + [CacheWarning];
        return None;
      }
      var key := KeyOf(hash, s.call);
      output := cache.Lookup(key.ref, key.version, key.inputHash, s.now);
      if output.None? {
        events := events + [CacheMiss];
      } else if !s.valid(output.value) {
        events := events + [CacheWarning];
        output := None;
      } else {
        events := events + [CacheHit];
      }
    }

    method CacheStore(s: Step, output: string)
      requires UsesCache(s)
      modifies this, cache
      ensures var k, row := KeyOf(hash, s.call), Row(output, s.storedAt + s.call.tool.ttl.value as real);
              cache.rows == if s.storeFails then old(cache.rows) else old(cache.rows)[k := row]
      ensures events == old(events) + [if s.storeFails then CacheWarning else CacheStored]
    {
      if s.storeFails {
        events := events + [CacheWarning];
        return;
      }
      var key := KeyOf(hash, s.call);
      cache.Store(key.ref, key.version, key.inputHash, output, s.call.tool.ttl.value, s.storedAt);
      events := events + [CacheStored];
    }
  }

  // --- pairing ---

  function Count(events: seq<ToolEvent>, started: bool): nat {
    if events == [] then 0
    else
      (if (if started then events[0].ToolStarted? else events[0].ToolCompleted?) then 1 else 0)
      + Count(events[1..], started)
  }

  lemma {:induction false} CountAppend(a: seq<ToolEvent>, b: seq<ToolEvent>, started: bool)
    ensures Count(a + b, started) == Count(a, started) + Count(b, started)
  {
    if a == [] {
      assert a + b == b;
    } else {
      assert (a + b)[1..] == a[1..] + b;
      CountAppend(a[1..], b, started);
    }
  }

  // The name is allowed and known, the input fits, and no cached row answers.
  predicate RunsHandler(hash: string -> string, rows: map<Key, Row>, s: Step) {
    s.allowed && s.known && s.fits && !Hits(hash, rows, s)
  }

  // A dispatch starts once if it runs the handler, and otherwise neither starts nor completes: it
  // is refused, or the cache answers. It completes once if it started, unless a run of the handler
  // is interrupted: by a pause for approval, by the cancellation of its task, or by a refresh that
  // raises something that is no FoundryError. The count it reports is the number of runs but one.
  lemma EveryStartCompletes(hash: string -> string, rows: map<Key, Row>, s: Step)
    ensures var events, runs := EventsOf(hash, rows, s), RunsHandler(hash, rows, s);
            && Count(events, true) == (if runs then 1 else 0)
            && Count(events, false)
               == (if runs && !Interrupted(s.policy, s.call.tool.authRetry, s.env) then 1 else 0)
    ensures forall e :: e in EventsOf(hash, rows, s) && e.ToolCompleted? ==>
                          e.retryCount == Handled(s).runs - 1 && (e.success <==> Result(hash, rows, s).Value?)
  {
    var l, h := LookupEvents(hash, rows, s), HandlerEvents(s);
    var rest := if !UsesCache(s) || !Ran(s).Value? then [] else if s.storeFails then [CacheWarning] else [CacheStored];
    CountAppend(l + h, rest, true);
    CountAppend(l, h, true);
    CountAppend(l + h, rest, false);
    CountAppend(l, h, false);
    HandlerCounts(s);
    CompletionsReport(hash, rows, s);
    InterruptedExactly(s.policy, s.call.tool.authRetry, s.env);
  }

  lemma CompletionsReport(hash: string -> string, rows: map<Key, Row>, s: Step)
    ensures forall e :: e in EventsOf(hash, rows, s) && e.ToolCompleted? ==>
                          e.retryCount == Handled(s).runs - 1 && (e.success <==> Result(hash, rows, s).Value?)
  {
    LoopHistory(s.policy, s.call.tool.authRetry, s.env, 0, 0.0, 0);
  }

  // What is no FoundryError gets out of a dispatch, after tool.started and with nothing behind
  // it, exactly when the handler runs, the tool asks for auth retries and the first auth failure,
  // after failures that were tried again, finds its refresh raising, as evicting several pool
  // entries may.
  lemma RaisingRefreshNeverCompletes(hash: string -> string, rows: map<Key, Row>, s: Step)
    ensures var escaped := Result(hash, rows, s).Escaped?;
            && (escaped <==> RunsHandler(hash, rows, s) && s.call.tool.authRetry
                             && exists k: nat :: RefreshRaisesFirst(s.policy, s.env, k))
            && (escaped ==> EventsOf(hash, rows, s) == LookupEvents(hash, rows, s) + [ToolStarted])
  {
    EscapesExactly(s.policy, s.call.tool.authRetry, s.env);
  }

  // --- what a dispatch returns and reports ---

  // A value comes out only if it fits the output schema. What the handler returned otherwise is an
  // error, reported as a failure, and leaves no row; what fits is returned and reported as it is,
  // and so is the handler's own error.
  lemma OutputsAreValid(hash: string -> string, rows: map<Key, Row>, s: Step)
    ensures var r, events := Result(hash, rows, s), EventsOf(hash, rows, s);
            var e := RunWithRetries(s.policy, s.call.tool.authRetry, s.env);
            && (r.Value? ==> s.valid(r.output))
            && (RunsHandler(hash, rows, s) && e.final.Value? && s.valid(e.final.output) ==>
                  r == e.final && ToolCompleted(true, e.count, "") in events)
            && (RunsHandler(hash, rows, s) && e.final.Value? && !s.valid(e.final.output) ==>
                  && r == Error("ToolOutputValidationError")
                  && ToolCompleted(false, e.count, "ToolOutputValidationError") in events && CacheStored !in events
                  && forall k, row :: (k, row) in AfterDispatch(hash, rows, s).Items ==> (k, row) in rows.Items)
            && (RunsHandler(hash, rows, s) && e.final.Error? ==>
                  r == e.final && ToolCompleted(false, e.count, e.final.name) in events)
  {
    if RunsHandler(hash, rows, s) {
      CompletionIn(hash, rows, s);
    }
  }

  lemma CompletionIn(hash: string -> string, rows: map<Key, Row>, s: Step)
    requires RunsHandler(hash, rows, s)
    ensures Ran(s).Value? ==> ToolCompleted(true, Handled(s).count, "") in EventsOf(hash, rows, s)
    ensures Ran(s).Error? ==> ToolCompleted(false, Handled(s).count, Ran(s).name) in EventsOf(hash, rows, s)
  {
    assert Ran(s).Value? || Ran(s).Error? ==> HandlerEvents(s)[1] in EventsOf(hash, rows, s);
  }

  // A refusal is raised for its reason, the allowlist first, and without an event.
  lemma RefusedForTheReason(hash: string -> string, rows: map<Key, Row>, s: Step)
    requires !(s.allowed && s.known && s.fits)
    ensures EventsOf(hash, rows, s) == [] && AfterDispatch(hash, rows, s) == rows
    ensures Result(hash, rows, s)
            == Error(if !s.allowed then "ToolNotAllowedError"
                     else if !s.known then "ToolNotFoundError"
                     else "ToolInputValidationError")
  {
  }

  // The tool's results are cached, a cache is there, and the call gets as far.
  predicate Cached(s: Step) {
    s.allowed && s.known && s.fits && s.call.tool.cacheable && s.call.tool.ttl != None && s.hasCache
  }

  // What the lookup of a dispatch that uses the cache is reported as, and that nothing but a hit
  // answers: a failing lookup and a row that no longer fits warn, no row in time is a miss, and
  // only after those does the handler run. A row is stored exactly when it then returns a value
  // and the store does not fail.
  lemma LookupTells(hash: string -> string, rows: map<Key, Row>, s: Step)
    ensures var events, r, k := EventsOf(hash, rows, s), Result(hash, rows, s), KeyOf(hash, s.call);
            if !Cached(s) then forall e :: e in events ==> e.ToolStarted? || e.ToolCompleted?
            else if !s.lookupFails && k in rows && rows[k].expiresAt > s.now && s.valid(rows[k].output) then
              events == [CacheHit] && r == Value(rows[k].output)
            else
              && |events| >= 2 && events[1] == ToolStarted
              && events[0] == (if !s.lookupFails && !(k in rows && rows[k].expiresAt > s.now) then CacheMiss
                               else CacheWarning)
              && (CacheStored in events <==> r.Value? && !s.storeFails)
  {
    if Cached(s) && !Hits(hash, rows, s) {
      assert LookupEvents(hash, rows, s) == [LookupEvents(hash, rows, s)[0]];
      StoredIsLast(hash, rows, s);
    }
  }

  lemma StoredIsLast(hash: string -> string, rows: map<Key, Row>, s: Step)
    requires Cached(s) && !Hits(hash, rows, s)
    ensures CacheStored in EventsOf(hash, rows, s) <==> Ran(s).Value? && !s.storeFails
  {
    var events := EventsOf(hash, rows, s);
    assert CacheStored !in LookupEvents(hash, rows, s) + HandlerEvents(s);
    if Ran(s).Value? && !s.storeFails {
      assert events[|events| - 1] == CacheStored;
    }
  }

  lemma HandlerCounts(s: Step)
    ensures Count(HandlerEvents(s), true) == 1
    ensures Count(HandlerEvents(s), false) == if Ran(s).Value? || Ran(s).Error? then 1 else 0
  {
    var h := HandlerEvents(s);
    assert h[0] == ToolStarted;
    assert Count([], true) == 0 && Count([], false) == 0;
    if |h| == 2 {
      assert h[1..] == [h[1]] && [h[1]][1..] == [];
      assert Count([h[1]], true) == 0 && Count([h[1]], false) == 1;
    } else {
      assert h[1..] == [];
    }
  }

  // --- any history of lookups and stores ---

  // Digests do not collide and hold no ':'.
  ghost predicate GoodHash(hash: string -> string) {
    (forall x, y :: hash(x) == hash(y) ==> x == y) && forall x :: Free(':', hash(x))
  }

  // What dispatches do to the cache: each looks up, and after its handler has returned it may
  // store. Between the two of one dispatch any others may come.
  datatype Op = Look(step: Step) | Put(step: Step)

  function AfterOp(hash: string -> string, rows: map<Key, Row>, op: Op): map<Key, Row> {
    match op
    case Look(s) => AfterLookup(rows, s)
    case Put(s) => AfterStore(hash, rows, s)
  }

  function Rows(hash: string -> string, ops: seq<Op>): map<Key, Row> {
    if ops == [] then map[] else AfterOp(hash, Rows(hash, ops[..|ops| - 1]), ops[|ops| - 1])
  }

  predicate Named(s: Step) {
    Free('/', s.call.agent)
  }

  predicate AllNamed(ops: seq<Op>) {
    forall i :: 0 <= i < |ops| ==> Named(ops[i].step)
  }

  // The store at position j, of a dispatch that ran its handler, left this row.
  ghost predicate Wrote(hash: string -> string, ops: seq<Op>, j: nat, k: Key, row: Row) {
    j < |ops| && ops[j].Put? &&
    var s := ops[j].step;
    && KeyOf(hash, s.call) == k && UsesCache(s)
    && Ran(s) == Value(row.output) && row.expiresAt == s.storedAt + s.call.tool.ttl.value as real
  }

  ghost predicate AllWritten(hash: string -> string, ops: seq<Op>, rows: map<Key, Row>) {
    forall k :: k in rows ==> exists j :: Wrote(hash, ops, j, k, rows[k])
  }

  lemma {:induction false} RowsAreWritten(hash: string -> string, ops: seq<Op>)
    ensures AllWritten(hash, ops, Rows(hash, ops))
  {
    if ops != [] {
      var before := ops[..|ops| - 1];
      RowsAreWritten(hash, before);
      var rows, t := Rows(hash, before), Rows(hash, ops);
      forall k | k in t ensures exists j :: Wrote(hash, ops, j, k, t[k]) {
        if k in rows && t[k] == rows[k] {
          var j :| Wrote(hash, before, j, k, rows[k]);
          assert Wrote(hash, ops, j, k, t[k]);
        } else {
          assert Wrote(hash, ops, |ops| - 1, k, t[k]);
        }
      }
    }
  }

  // The store at position j is of a handler's own value, which fitted its schema.
  ghost predicate StoredValid(hash: string -> string, ops: seq<Op>, j: nat, k: Key, output: string) {
    j < |ops| && ops[j].Put? &&
    var s := ops[j].step;
    && s.allowed && s.known && s.fits && KeyOf(hash, s.call) == k && s.valid(output)
    && RunWithRetries(s.policy, s.call.tool.authRetry, s.env).final == Value(output)
  }

  // Whatever the history, every row holds a value that a handler returned and that fitted the
  // tool's schema when it was stored.
  lemma StoredOutputsAreValid(hash: string -> string, ops: seq<Op>, k: Key)
    requires k in Rows(hash, ops)
    ensures exists j: nat :: StoredValid(hash, ops, j, k, Rows(hash, ops)[k].output)
  {
    RowsAreWritten(hash, ops);
    var j: nat :| Wrote(hash, ops, j, k, Rows(hash, ops)[k]);
    assert StoredValid(hash, ops, j, k, Rows(hash, ops)[k].output);
  }

  lemma RowsSnoc(hash: string -> string, ops: seq<Op>, op: Op)
    ensures Rows(hash, ops + [op]) == AfterOp(hash, Rows(hash, ops), op)
  {
    assert (ops + [op])[..|ops + [op]| - 1] == ops;
  }

  // A dispatch that nobody comes between is its lookup and, unless that answers, its store.
  lemma DispatchLooksAndPuts(hash: string -> string, ops: seq<Op>, s: Step)
    ensures AfterDispatch(hash, Rows(hash, ops), s)
            == Rows(hash, ops + [Look(s)] + if Hits(hash, Rows(hash, ops), s) then [] else [Put(s)])
  {
    RowsSnoc(hash, ops, Look(s));
    RowsSnoc(hash, ops + [Look(s)], Put(s));
    assert ops + [Look(s)] + [] == ops + [Look(s)];
  }

  // A lookup that reaches the cache takes what has expired out of it; no other lookup changes it.
  lemma ExpiredRowsGo(hash: string -> string, ops: seq<Op>, s: Step, k: Key)
    ensures var rows, rows' := Rows(hash, ops), Rows(hash, ops + [Look(s)]);
            && (k in rows' <==> k in rows && (Cached(s) && !s.lookupFails ==> rows[k].expiresAt > s.now))
            && (k in rows' ==> rows'[k] == rows[k])
  {
    RowsSnoc(hash, ops, Look(s));
  }

  // The dispatch stores this output under its key.
  predicate Stores(s: Step, output: string) {
    && Cached(s) && !s.storeFails && s.valid(output)
    && RunWithRetries(s.policy, s.call.tool.authRetry, s.env).final == Value(output)
  }

  function Expiry(s: Step): real {
    s.storedAt + if s.call.tool.ttl.Some? then s.call.tool.ttl.value as real else 0.0
  }

  // Nobody stores under the key again, and no lookup comes after its row's time.
  ghost predicate Undisturbed(hash: string -> string, later: seq<Op>, k: Key, expiry: real) {
    forall i :: 0 <= i < |later| ==>
      if later[i].Put? then KeyOf(hash, later[i].step.call) != k else later[i].step.now < expiry
  }

  lemma {:induction false} RowStays(hash: string -> string, ops: seq<Op>, s: Step, output: string, later: seq<Op>)
    requires Stores(s, output) && Undisturbed(hash, later, KeyOf(hash, s.call), Expiry(s))
    ensures var rows, k := Rows(hash, ops + [Put(s)] + later), KeyOf(hash, s.call);
            k in rows && rows[k] == Row(output, Expiry(s))
  {
    if later == [] {
      RowsSnoc(hash, ops, Put(s));
      assert ops + [Put(s)] + [] == ops + [Put(s)];
    } else {
      var n := |later| - 1;
      RowStays(hash, ops, s, output, later[..n]);
      RowsSnoc(hash, ops + [Put(s)] + later[..n], later[n]);
      assert ops + [Put(s)] + later[..n] + [later[n]] == ops + [Put(s)] + later;
    }
  }

  // What a dispatch stores answers every later call with the same key until it expires or is stored
  // over, whatever other dispatches do meanwhile.
  lemma StoredOutputAnswers(hash: string -> string, ops: seq<Op>, s: Step, output: string, later: seq<Op>, call: Step)
    requires Stores(s, output) && Undisturbed(hash, later, KeyOf(hash, s.call), Expiry(s))
    requires KeyOf(hash, call.call) == KeyOf(hash, s.call) && call.now < Expiry(s)
    requires Cached(call) && !call.lookupFails && call.valid(output)
    ensures var rows := Rows(hash, ops + [Put(s)] + later);
            Result(hash, rows, call) == Value(output) && EventsOf(hash, rows, call) == [CacheHit]
  {
    RowStays(hash, ops, s, output, later);
  }

  // The two calls mean the same tool, input and, as far as the tool's scope goes, caller.
  predicate SameCall(c: Call, d: Call) {
    && c.tool.ref == d.tool.ref && c.tool.version == d.tool.version && c.input == d.input
    && SharesScope(c.tool.scope, c.project, c.agent, d.tool.scope, d.project, d.agent)
  }

  // Whatever the history, a cached answer is what the handler itself returned to an earlier
  // call of the same tool and version on the same input within the tool's scope, not longer
  // ago than its time to live.
  lemma CachedAnswersAreEarlierRuns(hash: string -> string, ops: seq<Op>, s: Step)
    requires GoodHash(hash) && Named(s) && AllNamed(ops)
    requires Hits(hash, Rows(hash, ops), s)
    ensures exists j: nat :: EarlierRun(ops, s, j, Result(hash, Rows(hash, ops), s))
  {
    RowsAreWritten(hash, ops);
    HitIsEarlierRun(hash, ops, Rows(hash, ops), s);
  }

  lemma HitIsEarlierRun(hash: string -> string, ops: seq<Op>, rows: map<Key, Row>, s: Step)
    requires GoodHash(hash) && Named(s) && AllNamed(ops) && AllWritten(hash, ops, rows) && Hits(hash, rows, s)
    ensures exists j: nat :: EarlierRun(ops, s, j, Result(hash, rows, s))
  {
    var row := rows[KeyOf(hash, s.call)];
    var j: nat :| Wrote(hash, ops, j, KeyOf(hash, s.call), row);
    WriterIsEarlierRun(hash, ops, s, j, row);
    assert Result(hash, rows, s) == Value(row.output);
  }

  lemma WriterIsEarlierRun(hash: string -> string, ops: seq<Op>, s: Step, j: nat, row: Row)
    requires Wrote(hash, ops, j, KeyOf(hash, s.call), row) && row.expiresAt > s.now
    requires GoodHash(hash) && Named(s) && Named(ops[j].step)
    ensures EarlierRun(ops, s, j, Value(row.output))
  {
    SameKeySameCall(hash, s.call, ops[j].step.call);
  }

  ghost predicate EarlierRun(ops: seq<Op>, s: Step, j: nat, f: Final) {
    j < |ops| && ops[j].Put? &&
    var e := ops[j].step;
    && UsesCache(e) && SameCall(s.call, e.call) && Ran(e) == f
    && e.storedAt + e.call.tool.ttl.value as real > s.now
  }

  lemma SameKeySameCall(hash: string -> string, c: Call, d: Call)
    requires GoodHash(hash) && Free('/', c.agent) && Free('/', d.agent)
    ensures KeyOf(hash, c) == KeyOf(hash, d) <==> SameCall(c, d)
  {
    ScopedKeysAreInjective(c.tool.scope, c.project, c.agent, hash(c.input), d.tool.scope, d.project, d.agent,
                           hash(d.input));
  }

  // A deterministic handler, which depends on its caller no further than the tool's scope.
  ghost predicate Deterministic(answer: Call -> string, ops: seq<Op>) {
    && (forall c, d :: SameCall(c, d) ==> answer(c) == answer(d))
    && forall i :: 0 <= i < |ops| && Ran(ops[i].step).Value? ==> Ran(ops[i].step).output == answer(ops[i].step.call)
  }

  // Caching is transparent: after any history of lookups and stores of concurrent dispatches,
  // expiries and cache failures, the output returned by a dispatch that looks up then is the one
  // the handler stands for, and it is the output the same dispatch would return with no cache
  // whenever that returns one.
  lemma CachingIsTransparent(hash: string -> string, answer: Call -> string, ops: seq<Op>, s: Step)
    requires GoodHash(hash) && Named(s) && AllNamed(ops)
    requires Deterministic(answer, ops + [Look(s)])
    ensures var cached, uncached := Result(hash, Rows(hash, ops), s), Result(hash, map[], s.(hasCache := false));
            && (cached.Value? ==> cached.output == answer(s.call))
            && (uncached.Value? ==> cached == uncached)
            && (!Hits(hash, Rows(hash, ops), s) ==> cached == uncached)
  {
    var all := ops + [Look(s)];
    assert all[|ops|].step == s && forall i :: 0 <= i < |ops| ==> all[i] == ops[i];
    assert Ran(s.(hasCache := false)) == Ran(s);
    if Hits(hash, Rows(hash, ops), s) {
      CachedAnswersAreEarlierRuns(hash, ops, s);
      var j: nat :| EarlierRun(ops, s, j, Result(hash, Rows(hash, ops), s));
      assert Ran(all[j].step).output == answer(all[j].step.call);
    }
  }
}
