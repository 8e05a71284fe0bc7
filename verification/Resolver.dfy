/** `resolve_packages`: depth-first topological sort with cycle detection. */
module Resolver {
  import opened Wrappers
  import opened PackageGraph

  /** The error is justified by a path from `root`; a reported cycle path ends in a repetition. */
  ghost predicate Justified(g: Graph, root: Name, e: Error) {
    match e
    case Cycle(path) =>
      && IsPath(g, path) && First(path) == root && Last(path) in path[..|path| - 1]
    case CannotLoad(name) => Reaches(g, root, name) && name !in g
    case Unsupported(name) => Reaches(g, root, name) && name in g && !g[name].supported
    case NothingLeft => false
  }

  class Traversal {
    const graph: Graph
    var result: seq<Name>
    var visiting: seq<Name>
    var complete: set<Name>

    constructor (graph: Graph)
      ensures this.graph == graph && result == [] && visiting == [] && Valid()
    {
      this.graph := graph;
      result, visiting, complete := [], [], {};
    }

    ghost predicate Valid()
      reads this
    {
      && NoDuplicates(result) && NoDuplicates(visiting)
      && (forall n :: n in complete <==> n in result)
      && (forall n :: n in visiting ==> n !in complete && n in graph && graph[n].supported)
      && (forall n :: n in result ==> n in graph && graph[n].supported)
      && (|visiting| > 0 ==> IsPath(graph, visiting))
      && DependenciesFirst(graph, result)
    }

    /** The package at which the current descent started. */
    ghost function Root(name: Name): Name
      reads this
    {
      if visiting == [] then name else visiting[0]
    }

    method Visit(name: Name) returns (error: Option<Error>)
      requires Valid()
      requires visiting != [] ==> Edge(graph, Last(visiting), name)
      modifies this
      decreases |graph.Keys| - |visiting|
      ensures error.Some? ==> Justified(graph, old(Root(name)), error.value)
      ensures error.None? ==>
                && Valid() && visiting == old(visiting) && old(result) <= result
                && name in result
                && forall n :: n in result && n !in old(result) ==> Reaches(graph, name, n)
    {
      ghost var path := visiting + [name];
      ghost var root := Root(name);
      PathToName(name);
      if name in complete {
        return None;
      }
      if name in visiting {
        return Some(Cycle(visiting + [name]));
      }
      visiting := visiting + [name];
      if name !in graph {
        return Some(CannotLoad(name));
      }
      if !graph[name].supported {
        return Some(Unsupported(name));
      }
      VisitingFits();
      var dependencies := graph[name].dependencies;
      for i := 0 to |dependencies|
        invariant Valid() && visiting == path && old(result) <= result
        invariant forall d :: d in dependencies[..i] ==> d in result
        invariant forall n :: n in result && n !in old(result) ==> Reaches(graph, name, n)
      {
        ghost var before := result;
        assert Edge(graph, name, dependencies[i]);
        error := Visit(dependencies[i]);
        if error.Some? {
          return;
        }
        assert dependencies[..i + 1] == dependencies[..i] + [dependencies[i]];
        assert forall n :: n in before ==> n in result;
        forall n | n in result && n !in old(result) ensures Reaches(graph, name, n) {
          if n !in before {
            EdgeReaches(graph, name, dependencies[i], n);
          }
        }
      }
      Finish(name);
      ReachesSelf(graph, name);
      return None;
    }

    lemma PathToName(name: Name)
      requires Valid()
      requires visiting != [] ==> Edge(graph, Last(visiting), name)
      ensures IsPath(graph, visiting + [name]) && First(visiting + [name]) == Root(name)
      ensures Reaches(graph, Root(name), name)
    {
      var path := visiting + [name];
      forall i | 0 <= i < |path| - 1 ensures Edge(graph, path[i], path[i + 1]) {
        if i < |visiting| - 1 {
          assert Edge(graph, visiting[i], visiting[i + 1]);
        }
      }
      assert PathBetween(graph, path, Root(name), name);
    }

    /** `visiting` stays within the loadable packages, so the recursion is bounded. */
    lemma VisitingFits()
      requires NoDuplicates(visiting) && forall n :: n in visiting ==> n in graph
      ensures |visiting| <= |graph.Keys|
    {
      NoDuplicatesFits(visiting, graph.Keys);
    }

    method Finish(name: Name)
      requires Valid() && visiting != [] && Last(visiting) == name && name in graph
      requires forall d :: d in graph[name].dependencies ==> d in result
      modifies this
      ensures Valid() && visiting == old(visiting)[..|old(visiting)| - 1] && result == old(result) + [name]
    {
      assert name in visiting;
      ghost var before := visiting;
      visiting := visiting[..|visiting| - 1];
      complete := complete + {name};
      result := result + [name];
      assert |visiting| > 0 ==> IsPath(graph, visiting) by {
        if |visiting| > 0 {
          SubPath(graph, before, 0, |visiting| - 1);
        }
      }
      forall i, d | 0 <= i < |result| && Edge(graph, result[i], d) ensures d in result[..i] {
        if i < |result| - 1 {
          assert result[..i] == old(result)[..i];
        } else {
          assert result[..i] == old(result);
        }
      }
    }
  }

  lemma NoDuplicatesFits(s: seq<Name>, bound: set<Name>)
    requires NoDuplicates(s) && forall n :: n in s ==> n in bound
    ensures |s| <= |bound|
    decreases |s|
  {
    if s != [] {
      NoDuplicatesFits(s[..|s| - 1], bound - {Last(s)});
    }
  }

  /** Resolution succeeds exactly when everything needed is loadable, supported and acyclic. The
      result then holds every reachable package once, with dependencies first. Otherwise the
      error names a package or a cycle that is really reachable. */
  method ResolvePackages(graph: Graph, names: seq<Name>) returns (r: PackageResult<seq<Name>>)
    ensures r.Ok? <==> Resolvable(graph, names)
    ensures r.Ok? ==>
              && NoDuplicates(r.value) && DependenciesFirst(graph, r.value)
              && forall n :: n in r.value <==> ReachableFrom(graph, names, n)
    ensures r.Err? ==> exists root :: root in names && Justified(graph, root, r.error)
  {
    var t := new Traversal(graph);
    for i := 0 to |names|
      invariant t.graph == graph && t.Valid() && t.visiting == []
      invariant forall n :: n in names[..i] ==> n in t.result
      invariant forall n :: n in t.result ==> ReachableFrom(graph, names, n)
    {
      ghost var before := t.result;
      var error := t.Visit(names[i]);
      if error.Some? {
        JustifiedRefutes(graph, names, names[i], error.value);
        return Err(error.value);
      }
      assert names[..i + 1] == names[..i] + [names[i]];
      assert forall n :: n in before ==> n in t.result;
      forall n | n in t.result ensures ReachableFrom(graph, names, n) {
        if n !in before {
          assert names[i] in names && Reaches(graph, names[i], n);
        }
      }
    }
    forall n | ReachableFrom(graph, names, n) ensures n in t.result && !OnCycle(graph, n) {
      var a :| a in names && Reaches(graph, a, n);
      OrderedMeansAcyclic(graph, t.result, a, n);
    }
    return Ok(t.result);
  }

  lemma JustifiedRefutes(g: Graph, names: seq<Name>, root: Name, e: Error)
    requires root in names && Justified(g, root, e)
    ensures !Resolvable(g, names)
  {
    match e
    case Cycle(path) =>
      var n := Last(path);
      var k :| 0 <= k < |path| - 1 && path[k] == n;
      SubPath(g, path, k, |path| - 1);
      assert OnCycle(g, n);
      assert PathBetween(g, path, root, n);
      assert ReachableFrom(g, names, n);
    case CannotLoad(n) => assert ReachableFrom(g, names, n);
    case Unsupported(n) => assert ReachableFrom(g, names, n);
  }
}
