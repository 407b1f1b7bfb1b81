/** The diagnostic contract's dependency check: a depth-first search for cycles. */
module Diagnostics {

  import opened Wrappers

  /** Every check with the checks it depends on. */
  type Graph = map<string, seq<string>>

  predicate Closed(g: Graph) {
    forall id, d :: id in g && d in g[id] ==> d in g
  }

  /** Each name on the walk depends on the next. */
  ghost predicate Walk(g: Graph, p: seq<string>) {
    && p != []
    && (forall i :: 0 <= i < |p| ==> p[i] in g)
    && (forall i :: 0 <= i < |p| - 1 ==> p[i + 1] in g[p[i]])
  }

  ghost predicate Cyclic(g: Graph) {
    exists p :: Walk(g, p) && |p| >= 2 && p[0] == p[|p| - 1]
  }

  function Members(s: seq<string>): set<string> { set x | x in s }

  predicate Distinct(s: seq<string>) {
    forall i, j :: 0 <= i < j < |s| ==> s[i] != s[j]
  }

  /** Every check comes after the checks it depends on. */
  predicate Topological(g: Graph, order: seq<string>) {
    && Distinct(order)
    && (forall i :: 0 <= i < |order| ==> order[i] in g && forall d :: d in g[order[i]] ==> d in order[..i])
  }

  // ------------------------------------------------------------------- lemmas

  lemma {:induction false} WalkDescends(g: Graph, order: seq<string>, p: seq<string>, i: nat, j: nat)
    requires Topological(g, order) && Walk(g, p)
    requires i < |order| && order[i] == p[0] && j < |p|
    ensures exists k :: 0 <= k <= i && order[k] == p[j] && (j > 0 ==> k < i)
    decreases j
  {
    if j > 0 {
      WalkDescends(g, order, p, i, j - 1);
      var k :| 0 <= k <= i && order[k] == p[j - 1];
      assert p[j - 1 + 1] in g[p[j - 1]];
      assert p[j] in order[..k];
      var l :| 0 <= l < k && order[l] == p[j];
    }
  }

  /** A topological order of every check leaves no room for a cycle. */
  lemma OrderedIsAcyclic(g: Graph, order: seq<string>)
    requires Topological(g, order) && g.Keys <= Members(order)
    ensures !Cyclic(g)
  {
    if p :| Walk(g, p) && |p| >= 2 && p[0] == p[|p| - 1] {
      assert p[0] in Members(order);
      var i :| 0 <= i < |order| && order[i] == p[0];
      WalkDescends(g, order, p, i, |p| - 1);
      assert false;
    }
  }

  /** Coming back to a check that is being visited closes a cycle. */
  lemma BackIsCycle(g: Graph, stack: seq<string>, id: string)
    requires stack != [] ==> Walk(g, stack) && id in g[stack[|stack| - 1]]
    requires id in g && id in Members(stack)
    ensures Cyclic(g)
  {
    var i :| 0 <= i < |stack| && stack[i] == id;
    var p := stack[i..] + [id];
    forall k | 0 <= k < |p| - 1
      ensures p[k + 1] in g[p[k]]
    {
      if k + 1 < |stack| - i {
        assert p[k] == stack[i + k] && p[k + 1] == stack[i + k + 1];
      } else {
        assert p[k] == stack[|stack| - 1];
      }
    }
    assert Walk(g, p);
  }

  lemma PushedWalk(g: Graph, stack: seq<string>, id: string)
    requires stack != [] ==> Walk(g, stack) && id in g[stack[|stack| - 1]]
    requires id in g
    ensures Walk(g, stack + [id])
  {
  }

  lemma OrderGrows(g: Graph, order: seq<string>, id: string)
    requires Topological(g, order) && id in g && id !in order
    requires forall d :: d in g[id] ==> d in order
    ensures Topological(g, order + [id])
  {
    var more := order + [id];
    forall i | 0 <= i < |more|
      ensures more[i] in g && forall d :: d in g[more[i]] ==> d in more[..i]
    {
      if i < |order| {
        assert more[..i] == order[..i];
      } else {
        assert more[..i] == order;
      }
    }
  }

  // ----------------------------------------------------------------- the search

  class Search {
    const dependencies: Graph
    var visiting: set<string>
    var visited: set<string>
    ghost var order: seq<string>

    ghost predicate Valid()
      reads this
    {
      && Closed(dependencies)
      && visiting <= dependencies.Keys
      && visited == Members(order)
      && visiting !! visited
      && Topological(dependencies, order)
    }

    constructor (g: Graph)
      requires Closed(g)
      ensures Valid() && dependencies == g && visiting == {} && order == []
    {
      dependencies, visiting, visited, order := g, {}, {}, [];
    }

    /** Visit one check; `stack` is the walk of the calls under way. */
    method Visit(id: string, ghost stack: seq<string>) returns (ok: bool)
      requires Valid() && id in dependencies && visiting == Members(stack)
      requires stack != [] ==> Walk(dependencies, stack) && id in dependencies[stack[|stack| - 1]]
      modifies this
      ensures ok ==> Valid() && visiting == old(visiting) && id in visited && old(visited) <= visited
      ensures !ok ==> Cyclic(dependencies)
      decreases |dependencies.Keys - visiting|, 0
    {
      hide Walk, Cyclic, Topological, Members, Closed;
      if id in visiting {
        BackIsCycle(dependencies, stack, id);
        return false;
      }
      if id in visited {
        return true;
      }
      PushedWalk(dependencies, stack, id);
      Smaller(dependencies.Keys, visiting, id);
      MembersGrow(stack, id);
      visiting := visiting + {id};
      ok := VisitAll(id, stack + [id]);
      if !ok {
        return;
      }
      VisitedBefore(dependencies[id], visited, order, id);
      OrderGrows(dependencies, order, id);
      MembersGrow(order, id);
      visiting := visiting - {id};
      visited := visited + {id};
      order := order + [id];
    }

    /** The loop over the dependencies of the check being visited. */
    method VisitAll(id: string, ghost stack: seq<string>) returns (ok: bool)
      requires Valid() && id in dependencies && visiting == Members(stack)
      requires stack != [] && Walk(dependencies, stack) && stack[|stack| - 1] == id
      modifies this
      ensures ok ==> Valid() && visiting == old(visiting) && old(visited) <= visited
      ensures ok ==> forall d :: d in dependencies[id] ==> d in visited
      ensures !ok ==> Cyclic(dependencies)
      decreases |dependencies.Keys - visiting|, 1
    {
      hide Walk, Cyclic, Topological, Members;
      var needs := dependencies[id];
      for i := 0 to |needs|
        invariant Valid() && visiting == old(visiting) && old(visited) <= visited
        invariant forall k :: 0 <= k < i ==> needs[k] in visited
      {
        ok := Visit(needs[i], stack);
        if !ok {
          return;
        }
      }
      ok := true;
    }
  }

  lemma Smaller(all: set<string>, visiting: set<string>, id: string)
    requires id in all && id !in visiting
    ensures |all - (visiting + {id})| < |all - visiting|
  {
    assert all - (visiting + {id}) == (all - visiting) - {id};
  }

  lemma VisitedBefore(needs: seq<string>, visited: set<string>, order: seq<string>, id: string)
    requires visited == Members(order) && id !in visited
    requires forall d :: d in needs ==> d in visited
    ensures id !in order && forall d :: d in needs ==> d in order
  {
  }

  lemma MembersGrow(s: seq<string>, x: string)
    ensures Members(s + [x]) == Members(s) + {x}
  {
  }

  /** The check of all dependencies: refused exactly when there is a cycle, ordered otherwise. */
  method CheckDependencies(g: Graph, ids: seq<string>) returns (ok: bool, ghost order: seq<string>)
    requires Closed(g) && Members(ids) == g.Keys
    ensures ok <==> !Cyclic(g)
    ensures ok ==> Topological(g, order) && Members(order) == g.Keys
  {
    var search := new Search(g);
    for i := 0 to |ids|
      invariant search.Valid() && search.dependencies == g && search.visiting == {}
      invariant forall k :: 0 <= k < i ==> ids[k] in search.visited
    {
      assert ids[i] in Members(ids);
      ok := search.Visit(ids[i], []);
      if !ok {
        order := [];
        return;
      }
    }
    order := search.order;
    forall id | id in g
      ensures id in search.visited
    {
      assert id in Members(ids);
    }
    OrderedIsAcyclic(g, order);
    ok := true;
  }

  // --------------------------------------------------------------- the contract

  datatype Check = Check(id: string, dependencies: seq<string>)

  datatype ContractError = DuplicateCheck | MissingDependency | CyclicDependencies

  function Ids(checks: seq<Check>): seq<string> {
    if checks == [] then [] else Ids(checks[..|checks| - 1]) + [checks[|checks| - 1].id]
  }

  function GraphOf(checks: seq<Check>): Graph {
    if checks == [] then map[]
    else GraphOf(checks[..|checks| - 1])[checks[|checks| - 1].id := checks[|checks| - 1].dependencies]
  }

  /** Every dependency of every check is itself a check. */
  predicate Known(checks: seq<Check>, ids: seq<string>) {
    forall c, d :: c in checks && d in c.dependencies ==> d in ids
  }

  lemma {:induction false} GraphIsOfChecks(checks: seq<Check>)
    ensures GraphOf(checks).Keys == Members(Ids(checks))
    ensures forall id :: id in GraphOf(checks) ==> exists c :: c in checks && c.dependencies == GraphOf(checks)[id]
  {
    if checks != [] {
      var rest, last := checks[..|checks| - 1], checks[|checks| - 1];
      GraphIsOfChecks(rest);
      MembersGrow(Ids(rest), last.id);
      forall id | id in GraphOf(checks)
        ensures exists c :: c in checks && c.dependencies == GraphOf(checks)[id]
      {
        if id == last.id {
          assert last in checks;
        } else {
          var c :| c in rest && c.dependencies == GraphOf(rest)[id];
          assert c in checks;
        }
      }
    }
  }

  lemma KnownIsClosed(checks: seq<Check>)
    requires Known(checks, Ids(checks))
    ensures Closed(GraphOf(checks))
  {
    var g := GraphOf(checks);
    GraphIsOfChecks(checks);
    forall id, d | id in g && d in g[id]
      ensures d in g
    {
      var c :| c in checks && c.dependencies == g[id];
      assert d in Members(Ids(checks));
    }
  }

  /** The checks on names and dependencies of the contract, in their order. */
  method Validate(checks: seq<Check>) returns (r: Result<(), ContractError>)
    ensures r == Err(DuplicateCheck) <==> !Distinct(Ids(checks))
    ensures r == Err(MissingDependency) <==> Distinct(Ids(checks)) && !Known(checks, Ids(checks))
    ensures r == Err(CyclicDependencies) <==>
      Distinct(Ids(checks)) && Known(checks, Ids(checks)) && Cyclic(GraphOf(checks))
  {
    hide Cyclic;
    var ids := Ids(checks);
    if !Distinct(ids) {
      return Err(DuplicateCheck);
    }
    if !Known(checks, ids) {
      return Err(MissingDependency);
    }
    KnownIsClosed(checks);
    GraphIsOfChecks(checks);
    var ok, order := CheckDependencies(GraphOf(checks), ids);
    return if ok then Ok(()) else Err(CyclicDependencies);
  }
}
