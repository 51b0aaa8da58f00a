// core/cache.py: the strings that keep cached answers apart.
module CacheKeys {

  // The exact-match part of a SemanticCacheKey, and the embedding similarity is measured on.
  datatype SemanticKey = SemanticKey(agent: string, version: string, model: string, tools: string,
                                     structure: string, vector: seq<real>)

  function Bucket(k: SemanticKey): string {
    k.agent + "|" + k.version + "|" + k.model + "|" + k.tools + "|" + k.structure
  }

  predicate Free(c: char, s: string) {
    c !in s
  }

  // The four hashes are hexadecimal digests; an agent's name may be anything.
  predicate Hashed(k: SemanticKey) {
    Free('|', k.version) && Free('|', k.model) && Free('|', k.tools) && Free('|', k.structure)
  }

  // The last separator splits a string in only one way.
  lemma SplitAtLast(c: char, a: string, x: string, b: string, y: string)
    requires Free(c, x) && Free(c, y) && a + [c] + x == b + [c] + y
    ensures a == b && x == y
  {
    if |x| < |y| {
      LongerTailHolds(c, a, x, b, y);
    } else if |y| < |x| {
      LongerTailHolds(c, b, y, a, x);
    } else {
      var s, t := a + [c] + x, b + [c] + y;
      assert s[..|a|] == a && t[..|b|] == b;
      assert s[|a| + 1..] == x && t[|b| + 1..] == y;
    }
  }

  lemma LongerTailHolds(c: char, a: string, x: string, b: string, y: string)
    requires |x| < |y| && a + [c] + x == b + [c] + y
    ensures c in y
  {
    assert (a + [c] + x)[|a|] == c && (b + [c] + y)[|a|] == y[|a| - |b| - 1];
  }

  // Two keys share a bucket exactly when all five parts agree.
  lemma BucketIsInjective(k: SemanticKey, l: SemanticKey)
    requires Hashed(k) && Hashed(l)
    ensures Bucket(k) == Bucket(l) <==>
            k.agent == l.agent && k.version == l.version && k.model == l.model && k.tools == l.tools
            && k.structure == l.structure
  {
    if Bucket(k) == Bucket(l) {
      var k3, l3 := k.agent + "|" + k.version + "|" + k.model, l.agent + "|" + l.version + "|" + l.model;
      SplitAtLast('|', k3 + "|" + k.tools, k.structure, l3 + "|" + l.tools, l.structure);
      SplitAtLast('|', k3, k.tools, l3, l.tools);
      SplitAtLast('|', k.agent + "|" + k.version, k.model, l.agent + "|" + l.version, l.model);
      SplitAtLast('|', k.agent, k.version, l.agent, l.version);
    }
  }

  // --- scoped_input_hash ---

  datatype CacheScope = AgentScope | ProjectScope | GlobalScope

  function Qualifier(scope: CacheScope, project: string, agent: string): string {
    match scope
    case AgentScope => "agent:" + project + "/" + agent
    case ProjectScope => "project:" + project
    case GlobalScope => "global"
  }

  function ScopedInputHash(scope: CacheScope, project: string, agent: string, inputHash: string): string {
    Qualifier(scope, project, agent) + ":" + inputHash
  }

  // What a tool result is shared across: nothing but the agent, the project, or nothing at all.
  predicate SharesScope(scope: CacheScope, project: string, agent: string,
                        scope': CacheScope, project': string, agent': string) {
    scope == scope' && (scope.GlobalScope? || project == project') && (scope.AgentScope? ==> agent == agent')
  }

  // Two calls use the same key exactly when their inputs hash alike and they share the scope;
  // it is enough that agent names hold no '/' and hashes no ':'.
  lemma ScopedKeysAreInjective(scope: CacheScope, project: string, agent: string, hash: string,
                               scope': CacheScope, project': string, agent': string, hash': string)
    requires Free('/', agent) && Free('/', agent') && Free(':', hash) && Free(':', hash')
    ensures ScopedInputHash(scope, project, agent, hash) == ScopedInputHash(scope', project', agent', hash')
            <==> hash == hash' && SharesScope(scope, project, agent, scope', project', agent')
  {
    var q, q' := Qualifier(scope, project, agent), Qualifier(scope', project', agent');
    if ScopedInputHash(scope, project, agent, hash) == ScopedInputHash(scope', project', agent', hash') {
      SplitAtLast(':', q, hash, q', hash');
      assert q[0] == (match scope case AgentScope => 'a' case ProjectScope => 'p' case GlobalScope => 'g');
      assert q'[0] == (match scope' case AgentScope => 'a' case ProjectScope => 'p' case GlobalScope => 'g');
      if scope.AgentScope? {
        assert q == "agent:" + (project + "/" + agent) && q' == "agent:" + (project' + "/" + agent');
        assert q[6..] == project + "/" + agent && q'[6..] == project' + "/" + agent';
        SplitAtLast('/', project, agent, project', agent');
      } else if scope.ProjectScope? {
        assert q[8..] == project && q'[8..] == project';
      }
    }
  }

  // With a '/' in an agent's name two agents of two projects share their entries.
  lemma SlashInNameCollides()
    ensures ScopedInputHash(AgentScope, "a", "b/c", "0") == ScopedInputHash(AgentScope, "a/b", "c", "0")
    ensures !SharesScope(AgentScope, "a", "b/c", AgentScope, "a/b", "c")
  {
    assert "agent:" + "a" + "/" + "b/c" == "agent:" + "a/b" + "/" + "c";
    assert |"a"| != |"a/b"|;
  }
}
