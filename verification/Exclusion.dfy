/** `exclude_packages`: the memoised exclusion cascade, and how it composes with the resolver. */
module Exclusion {
  import opened Wrappers
  import opened PackageGraph
  import Resolver

  /** A path whose inner packages, and its start unless it ends there, are not excluded. */
  ghost predicate ClearPath(g: Graph, excluded: set<Name>, p: seq<Name>) {
    IsPath(g, p) && forall i :: 0 <= i < |p| - 1 ==> p[i] !in excluded
  }

  ghost predicate ClearBetween(g: Graph, excluded: set<Name>, p: seq<Name>, a: Name, b: Name) {
    ClearPath(g, excluded, p) && First(p) == a && Last(p) == b
  }

  /** Excluded package `e` is needed by `n` through packages that are not excluded. */
  ghost predicate Blocks(g: Graph, excluded: set<Name>, n: Name, e: Name) {
    e in excluded && exists p :: ClearBetween(g, excluded, p, n, e)
  }

  /** `b` is not excluded and needed by `a` through packages that are not excluded either. */
  ghost predicate ClearlyReaches(g: Graph, excluded: set<Name>, a: Name, b: Name) {
    b !in excluded && exists p :: ClearBetween(g, excluded, p, a, b)
  }

  ghost predicate OnClearCycle(g: Graph, excluded: set<Name>, n: Name) {
    exists p :: |p| > 1 && ClearBetween(g, excluded, p, n, n)
  }

  /** Whatever is needed through packages that are not excluded can be loaded, supports the
      architecture and is free of cycles. */
  ghost predicate Explorable(g: Graph, excluded: set<Name>, names: seq<Name>) {
    forall a, n :: a in names && ClearlyReaches(g, excluded, a, n) ==>
      n in g && g[n].supported && !OnClearCycle(g, excluded, n)
  }

  /** The error is justified by a path from `root` without excluded packages. */
  ghost predicate Justified(g: Graph, excluded: set<Name>, root: Name, e: Error) {
    match e
    case Cycle(path) =>
      && ClearPath(g, excluded, path) && First(path) == root && Last(path) !in excluded && Last(path) in path[..|path| - 1]
    case CannotLoad(name) => ClearlyReaches(g, excluded, root, name) && name !in g
    case Unsupported(name) => ClearlyReaches(g, excluded, root, name) && name in g && !g[name].supported
    case NothingLeft => false
  }

  lemma JustifiedRefutes(g: Graph, excluded: set<Name>, names: seq<Name>, root: Name, e: Error)
    requires root in names && Justified(g, excluded, root, e)
    ensures !Explorable(g, excluded, names)
  {
    match e
    case Cycle(path) =>
      var n := Last(path);
      var k :| 0 <= k < |path| - 1 && path[k] == n;
      SubPath(g, path, k, |path| - 1);
      var loop := path[k..|path|];
      forall i | 0 <= i < |loop| - 1 ensures loop[i] !in excluded {
        assert loop[i] == path[k + i];
      }
      assert ClearBetween(g, excluded, loop, n, n);
      assert ClearBetween(g, excluded, path, root, n);
      assert ClearlyReaches(g, excluded, root, n);
    case CannotLoad(n) => assert ClearlyReaches(g, excluded, root, n);
    case Unsupported(n) => assert ClearlyReaches(g, excluded, root, n);
  }

  lemma BlocksExcluded(g: Graph, excluded: set<Name>, n: Name, e: Name)
    requires n in excluded
    ensures Blocks(g, excluded, n, e) <==> e == n
  {
    assert ClearBetween(g, excluded, [n], n, n);
    if Blocks(g, excluded, n, e) {
      var p :| ClearBetween(g, excluded, p, n, e);
      assert p[0] == n;
      assert |p| == 1;
    }
  }

  lemma BlocksThrough(g: Graph, excluded: set<Name>, n: Name, d: Name, e: Name)
    requires n !in excluded && Edge(g, n, d) && Blocks(g, excluded, d, e)
    ensures Blocks(g, excluded, n, e)
  {
    var p :| ClearBetween(g, excluded, p, d, e);
    var q := [n] + p;
    forall i | 0 <= i < |q| - 1 ensures Edge(g, q[i], q[i + 1]) && q[i] !in excluded {
      if i > 0 { assert Edge(g, p[i - 1], p[i]); }
    }
    assert ClearBetween(g, excluded, q, n, e);
  }

  lemma BlocksVia(g: Graph, excluded: set<Name>, n: Name, e: Name) returns (d: Name)
    requires n !in excluded && Blocks(g, excluded, n, e)
    ensures Edge(g, n, d) && Blocks(g, excluded, d, e)
  {
    var p :| ClearBetween(g, excluded, p, n, e);
    assert |p| > 1;
    d := p[1];
    assert Edge(g, p[0], p[1]);
    var q := p[1..];
    forall i | 0 <= i < |q| - 1 ensures Edge(g, q[i], q[i + 1]) && q[i] !in excluded {
      assert Edge(g, p[i + 1], p[i + 2]);
    }
    assert ClearBetween(g, excluded, q, d, e);
  }

  /** Nothing excluded is reachable from a package that nothing blocks. */
  lemma UnblockedIsClean(g: Graph, excluded: set<Name>, n: Name, m: Name)
    requires forall e :: !Blocks(g, excluded, n, e)
    requires Reaches(g, n, m)
    ensures m !in excluded
  {
    var p :| PathBetween(g, p, n, m);
    PathStaysClear(g, excluded, p, |p| - 1);
  }

  lemma {:induction false} PathStaysClear(g: Graph, excluded: set<Name>, p: seq<Name>, k: nat)
    requires IsPath(g, p) && k < |p| && forall e :: !Blocks(g, excluded, p[0], e)
    ensures forall i :: 0 <= i <= k ==> p[i] !in excluded
    decreases k
  {
    if k > 0 {
      PathStaysClear(g, excluded, p, k - 1);
    }
    SubPath(g, p, 0, k);
    if p[k] in excluded {
      assert ClearBetween(g, excluded, p[0..k + 1], p[0], p[k]);
      assert Blocks(g, excluded, p[0], p[k]);
    }
  }

  class Cascade {
    const graph: Graph
    const excluded: set<Name>
    var memo: map<Name, set<Name>>
    var visiting: seq<Name>
    /** The explored packages that are not excluded, in the order they were finished. */
    ghost var order: seq<Name>

    constructor (graph: Graph, excluded: set<Name>)
      ensures this.graph == graph && this.excluded == excluded
      ensures memo == map[] && visiting == [] && Valid()
    {
      this.graph, this.excluded := graph, excluded;
      memo, visiting, order := map[], [], [];
    }

    ghost predicate MemoIsExact()
      reads this
    {
      forall n, e :: n in memo ==> (e in memo[n] <==> Blocks(graph, excluded, n, e))
    }

    ghost predicate OrderInv()
      reads this
    {
      && NoDuplicates(order)
      && (forall n :: n in order <==> n in memo && n !in excluded)
      && (forall n :: n in order ==> n in graph && graph[n].supported)
      && (forall i, d :: 0 <= i < |order| && Edge(graph, order[i], d) ==> d in excluded || d in order[..i])
      && (forall i, d :: 0 <= i < |order| && Edge(graph, order[i], d) ==> d in memo)
    }

    ghost predicate VisitingInv()
      reads this
    {
      && NoDuplicates(visiting)
      && (forall n :: n in visiting ==> n in graph && graph[n].supported && n !in excluded && n !in memo)
      && (|visiting| > 0 ==> IsPath(graph, visiting))
    }

    ghost predicate Valid()
      reads this
    {
      MemoIsExact() && OrderInv() && VisitingInv()
    }

    ghost function Root(name: Name): Name
      reads this
    {
      if visiting == [] then name else visiting[0]
    }

    method Blockers(name: Name) returns (r: PackageResult<set<Name>>)
      requires Valid()
      requires visiting != [] ==> Edge(graph, Last(visiting), name)
      modifies this
      decreases |graph.Keys| - |visiting|, 0
      ensures r.Err? ==> Justified(graph, excluded, old(Root(name)), r.error)
      ensures r.Ok? ==>
                && Valid() && visiting == old(visiting)
                && name in memo && r.value == memo[name]
                && forall n :: n in old(memo) ==> n in memo
      ensures r.Ok? ==> forall e :: e in r.value <==> Blocks(graph, excluded, name, e)
    {
      PathToName(name);
      if name in memo {
        return Ok(memo[name]);
      }
      if name in excluded {
        forall e ensures e in {name} <==> Blocks(graph, excluded, name, e) {
          BlocksExcluded(graph, excluded, name, e);
        }
        memo := memo[name := {name}];
        return Ok({name});
      }
      if name in visiting {
        return Err(Cycle(visiting + [name]));
      }
      visiting := visiting + [name];
      if name !in graph {
        return Err(CannotLoad(name));
      }
      if !graph[name].supported {
        return Err(Unsupported(name));
      }
      Resolver.NoDuplicatesFits(visiting, graph.Keys);
      r := DependencyBlockers(name);
      if r.Err? {
        return;
      }
      ReasonsAreBlocks(graph, excluded, name, r.value);
      Finish(name, r.value);
    }

    /** The union over the dependencies of the package that was visited last. */
    method DependencyBlockers(name: Name) returns (r: PackageResult<set<Name>>)
      requires Valid() && visiting != [] && Last(visiting) == name
      modifies this
      decreases |graph.Keys| - |visiting|, 1
      ensures r.Err? ==> Justified(graph, excluded, old(visiting[0]), r.error)
      ensures r.Ok? ==>
                && Valid() && visiting == old(visiting)
                && (forall n :: n in old(memo) ==> n in memo)
                && (forall d :: d in graph[name].dependencies ==> d in memo)
                && forall e :: e in r.value <==> exists d :: d in graph[name].dependencies && Blocks(graph, excluded, d, e)
    {
      assert name in visiting;
      var dependencies := graph[name].dependencies;
      var reasons: set<Name> := {};
      for i := 0 to |dependencies|
        invariant Valid() && visiting == old(visiting)
        invariant forall n :: n in old(memo) ==> n in memo
        invariant forall d :: d in dependencies[..i] ==> d in memo
        invariant UnionOf(reasons, dependencies[..i])
      {
        ghost var earlier := memo;
        assert Edge(graph, name, dependencies[i]);
        r := Blockers(dependencies[i]);
        if r.Err? {
          return;
        }
        assert forall d :: d in earlier ==> d in memo;
        assert dependencies[..i + 1] == dependencies[..i] + [dependencies[i]];
        UnionGrows(reasons, dependencies[..i], dependencies[i], r.value);
        reasons := reasons + r.value;
      }
      assert dependencies[..|dependencies|] == dependencies;
      return Ok(reasons);
    }

    ghost predicate UnionOf(reasons: set<Name>, names: seq<Name>) {
      forall e :: e in reasons <==> exists d :: d in names && Blocks(graph, excluded, d, e)
    }

    lemma UnionGrows(reasons: set<Name>, names: seq<Name>, name: Name, more: set<Name>)
      requires UnionOf(reasons, names) && forall e :: e in more <==> Blocks(graph, excluded, name, e)
      ensures UnionOf(reasons + more, names + [name])
    {
      forall e ensures e in reasons + more <==> exists d :: d in names + [name] && Blocks(graph, excluded, d, e) {
        if e in more {
          assert name in names + [name] && Blocks(graph, excluded, name, e);
        }
        if e in reasons {
          var d :| d in names && Blocks(graph, excluded, d, e);
          assert d in names + [name];
        }
      }
    }

    lemma PathToName(name: Name)
      requires Valid()
      requires visiting != [] ==> Edge(graph, Last(visiting), name)
      ensures ClearPath(graph, excluded, visiting + [name]) && First(visiting + [name]) == Root(name)
      ensures name !in excluded ==> ClearlyReaches(graph, excluded, Root(name), name)
    {
      var path := visiting + [name];
      forall i | 0 <= i < |path| - 1 ensures Edge(graph, path[i], path[i + 1]) && path[i] !in excluded {
        assert path[i] in visiting;
        if i < |visiting| - 1 {
          assert Edge(graph, visiting[i], visiting[i + 1]);
        }
      }
      assert ClearBetween(graph, excluded, path, Root(name), name);
    }

    method Finish(name: Name, reasons: set<Name>)
      requires Valid() && visiting != [] && Last(visiting) == name
      requires forall d :: d in graph[name].dependencies ==> d in memo
      requires forall e :: e in reasons <==> Blocks(graph, excluded, name, e)
      modifies this
      ensures Valid() && visiting == old(visiting)[..|old(visiting)| - 1] && memo == old(memo)[name := reasons]
    {
      assert name in visiting;
      ghost var before := visiting;
      ghost var earlier := order;
      visiting := visiting[..|visiting| - 1];
      memo := memo[name := reasons];
      order := order + [name];
      assert VisitingInv() by {
        if |visiting| > 0 {
          SubPath(graph, before, 0, |visiting| - 1);
        }
      }
      forall i, d | 0 <= i < |order| && Edge(graph, order[i], d) ensures d in excluded || d in order[..i] {
        if i < |order| - 1 {
          assert order[..i] == earlier[..i];
        } else {
          assert order[..i] == earlier;
        }
      }
    }

    /** From an explored package every path without excluded packages leads towards the front of the
        order. */
    lemma {:induction false} ClearPathsDescend(p: seq<Name>, i: nat)
      requires Valid() && ClearPath(graph, excluded, p) && Last(p) !in excluded && i < |order| && First(p) == order[i]
      ensures Last(p) in order[..i + 1] && (|p| > 1 ==> Last(p) in order[..i])
      decreases |p|
    {
      if |p| > 1 {
        var q := p[1..];
        assert Edge(graph, p[0], p[1]);
        assert p[1] !in excluded;
        var j :| 0 <= j < i && order[j] == p[1];
        forall k | 0 <= k < |q| - 1 ensures Edge(graph, q[k], q[k + 1]) && q[k] !in excluded {
          assert Edge(graph, p[k + 1], p[k + 2]);
        }
        ClearPathsDescend(q, j);
      }
    }

    /** When all selected packages are explored, the cascade has met no obstacle. */
    lemma ExploredIsExplorable(names: seq<Name>)
      requires Valid() && forall n :: n in names ==> n in memo
      ensures Explorable(graph, excluded, names)
    {
      forall a, n | a in names && ClearlyReaches(graph, excluded, a, n)
        ensures n in graph && graph[n].supported && !OnClearCycle(graph, excluded, n)
      {
        var p :| ClearBetween(graph, excluded, p, a, n);
        var i :| 0 <= i < |order| && order[i] == a;
        ClearPathsDescend(p, i);
        var j :| 0 <= j < |order| && order[j] == n;
        forall q ensures !(|q| > 1 && ClearBetween(graph, excluded, q, n, n)) {
          if |q| > 1 && ClearBetween(graph, excluded, q, n, n) {
            ClearPathsDescend(q, j);
          }
        }
      }
    }

    /** From an explored package that nothing blocks, every path stays within the explored packages and
        leads towards the front of their order. */
    lemma {:induction false} CleanPathsDescend(p: seq<Name>, i: nat)
      requires Valid() && IsPath(graph, p) && i < |order| && First(p) == order[i]
      requires forall e :: !Blocks(graph, excluded, order[i], e)
      ensures Last(p) in order[..i + 1] && (|p| > 1 ==> Last(p) in order[..i])
      ensures forall e :: !Blocks(graph, excluded, Last(p), e)
      decreases |p|
    {
      if |p| > 1 {
        var d := p[1];
        assert Edge(graph, p[0], d);
        forall e ensures !Blocks(graph, excluded, d, e) {
          if Blocks(graph, excluded, d, e) {
            BlocksThrough(graph, excluded, order[i], d, e);
          }
        }
        assert d !in excluded by {
          if d in excluded { BlocksExcluded(graph, excluded, d, d); }
        }
        var j :| 0 <= j < i && order[j] == d;
        SubPath(graph, p, 1, |p| - 1);
        CleanPathsDescend(p[1..], j);
      }
    }

    /** Everything that an explored, unblocked package needs can be resolved. */
    lemma UnblockedResolves(n: Name, m: Name)
      requires Valid() && n in memo && memo[n] == {} && Reaches(graph, n, m)
      ensures m in graph && graph[m].supported && !OnCycle(graph, m) && m !in excluded
    {
      assert forall e :: !Blocks(graph, excluded, n, e);
      assert n !in excluded by {
        if n in excluded { BlocksExcluded(graph, excluded, n, n); }
      }
      var i :| 0 <= i < |order| && order[i] == n;
      var p :| PathBetween(graph, p, n, m);
      CleanPathsDescend(p, i);
      var j :| 0 <= j < |order| && order[j] == m;
      forall q ensures !(|q| > 1 && PathBetween(graph, q, m, m)) {
        if |q| > 1 && PathBetween(graph, q, m, m) {
          CleanPathsDescend(q, j);
        }
      }
    }

    /** `skipped` holds the blocked packages among `names`, with all that blocks them. */
    ghost predicate Skips(skipped: map<Name, set<Name>>, names: seq<Name>) {
      && (forall n :: n in skipped <==> n in names && exists e :: Blocks(graph, excluded, n, e))
      && (forall n, e :: n in skipped ==> (e in skipped[n] <==> Blocks(graph, excluded, n, e)))
    }

    /** The loop over the selected packages. */
    method Select(names: seq<Name>) returns (r: PackageResult<Selection>)
      requires Valid() && visiting == []
      modifies this
      ensures r.Err? ==> exists root :: root in names && Justified(graph, excluded, root, r.error)
      ensures r.Ok? ==>
                && Valid() && (forall n :: n in names ==> n in memo)
                && r.value.kept == Unblocked(graph, excluded, names) && Skips(r.value.skipped, names)
                && forall n :: n in r.value.kept ==> n in memo && memo[n] == {}
    {
      var kept: seq<Name>, skipped: map<Name, set<Name>> := [], map[];
      for i := 0 to |names|
        invariant Valid() && visiting == []
        invariant kept == Unblocked(graph, excluded, names[..i]) && Skips(skipped, names[..i])
        invariant forall n :: n in names[..i] ==> n in memo
        invariant forall n :: n in kept ==> n in memo && memo[n] == {}
      {
        ghost var earlier := memo;
        var reasons := Blockers(names[i]);
        if reasons.Err? {
          return Err(reasons.error);
        }
        KeptStaysClean(graph, excluded, kept, earlier, memo);
        assert names[..i + 1] == names[..i] + [names[i]];
        assert names[..i + 1][..i] == names[..i];
        SkipsMore(skipped, names[..i], names[i], reasons.value);
        if reasons.value != {} {
          var e :| e in reasons.value;
          assert Blocks(graph, excluded, names[i], e);
          skipped := skipped[names[i] := reasons.value];
        } else {
          kept := kept + [names[i]];
        }
      }
      assert names[..|names|] == names;
      return Ok(Selection(kept, skipped));
    }

    lemma SkipsMore(skipped: map<Name, set<Name>>, names: seq<Name>, name: Name, reasons: set<Name>)
      requires Skips(skipped, names) && forall e :: e in reasons <==> Blocks(graph, excluded, name, e)
      ensures Skips(if reasons == {} then skipped else skipped[name := reasons], names + [name])
    {
      if reasons != {} {
        var e :| e in reasons;
        assert Blocks(graph, excluded, name, e);
      }
    }

    lemma KeptIsResolvable(kept: seq<Name>)
      requires Valid() && forall n :: n in kept ==> n in memo && memo[n] == {}
      ensures Resolvable(graph, kept)
      ensures forall n :: ReachableFrom(graph, kept, n) ==> n !in excluded
    {
      forall n | ReachableFrom(graph, kept, n)
        ensures n in graph && graph[n].supported && !OnCycle(graph, n) && n !in excluded
      {
        var a :| a in kept && Reaches(graph, a, n);
        UnblockedResolves(a, n);
      }
    }
  }

  lemma ReasonsAreBlocks(g: Graph, excluded: set<Name>, n: Name, reasons: set<Name>)
    requires n in g && n !in excluded
    requires forall e :: e in reasons <==> exists d :: d in g[n].dependencies && Blocks(g, excluded, d, e)
    ensures forall e :: e in reasons <==> Blocks(g, excluded, n, e)
  {
    forall e ensures e in reasons <==> Blocks(g, excluded, n, e) {
      if e in reasons {
        var d :| d in g[n].dependencies && Blocks(g, excluded, d, e);
        assert Edge(g, n, d);
        BlocksThrough(g, excluded, n, d, e);
      }
      if Blocks(g, excluded, n, e) {
        var d := BlocksVia(g, excluded, n, e);
      }
    }
  }

  /** The selected packages that no excluded package blocks, in their order. */
  ghost function Unblocked(g: Graph, excluded: set<Name>, names: seq<Name>): seq<Name> {
    if names == [] then []
    else
      var before := Unblocked(g, excluded, names[..|names| - 1]);
      if exists e :: Blocks(g, excluded, Last(names), e) then before else before + [Last(names)]
  }

  datatype Selection = Selection(kept: seq<Name>, skipped: map<Name, set<Name>>)

  /** Exclusion succeeds exactly when it can explore all it needs to and something is left. A package
      is kept exactly when no excluded package is needed by it; a skipped one comes with
      exactly the excluded packages that block it. What is kept can be resolved completely,
      and without any excluded package. */
  method ExcludePackages(graph: Graph, names: seq<Name>, excludedNames: seq<Name>) returns (r: PackageResult<Selection>)
    ensures excludedNames == [] ==> r == Ok(Selection(names, map[]))
    ensures var excluded := set n | n in excludedNames;
            excludedNames != [] ==>
              && (r.Ok? <==> Explorable(graph, excluded, names) && Unblocked(graph, excluded, names) != [])
              && (r == Err(NothingLeft) <==> Explorable(graph, excluded, names) && Unblocked(graph, excluded, names) == [])
              && (r.Err? && r.error != NothingLeft ==> exists root :: root in names && Justified(graph, excluded, root, r.error))
    ensures var excluded := set n | n in excludedNames;
            excludedNames != [] && r.Ok? ==>
              && r.value.kept == Unblocked(graph, excluded, names)
              && Resolvable(graph, r.value.kept)
              && (forall n :: ReachableFrom(graph, r.value.kept, n) ==> n !in excluded)
              && (forall n :: n in r.value.skipped <==> n in names && exists e :: Blocks(graph, excluded, n, e))
              && (forall n, e :: n in r.value.skipped ==> (e in r.value.skipped[n] <==> Blocks(graph, excluded, n, e)))
  {
    if excludedNames == [] {
      return Ok(Selection(names, map[]));
    }
    var excluded := set n | n in excludedNames;
    var c := new Cascade(graph, excluded);
    r := c.Select(names);
    if r.Err? {
      ghost var root :| root in names && Justified(graph, excluded, root, r.error);
      JustifiedRefutes(graph, excluded, names, root, r.error);
      return;
    }
    c.ExploredIsExplorable(names);
    if r.value.kept == [] {
      return Err(NothingLeft);
    }
    c.KeptIsResolvable(r.value.kept);
  }

  lemma KeptStaysClean(g: Graph, excluded: set<Name>, kept: seq<Name>, before: map<Name, set<Name>>, after: map<Name, set<Name>>)
    requires forall n :: n in before ==> n in after
    requires forall n, e :: n in before ==> (e in before[n] <==> Blocks(g, excluded, n, e))
    requires forall n, e :: n in after ==> (e in after[n] <==> Blocks(g, excluded, n, e))
    requires forall n :: n in kept ==> n in before && before[n] == {}
    ensures forall n :: n in kept ==> n in after && after[n] == {}
  {
    forall n | n in kept ensures n in after && after[n] == {} {
      assert forall e :: e in after[n] <==> e in before[n];
    }
  }

  /** What goes into the resolution. */
  ghost function Kept(g: Graph, names: seq<Name>, excludedNames: seq<Name>): seq<Name> {
    if excludedNames == [] then names else Unblocked(g, (set n | n in excludedNames), names)
  }

  /** Exclusion followed by resolution, as the image build runs them. The result is exactly what the
      kept packages need. Once an exclusion succeeds, resolution cannot fail: it all succeeds
      exactly when the exclusion does, and every error is one of the exclusion; no excluded
      package ever comes back. */
  method SelectAndResolve(graph: Graph, names: seq<Name>, excludedNames: seq<Name>) returns (r: PackageResult<seq<Name>>)
    ensures r.Ok? ==>
              && NoDuplicates(r.value) && DependenciesFirst(graph, r.value)
              && (forall n :: n in r.value <==> ReachableFrom(graph, Kept(graph, names, excludedNames), n))
              && (forall n :: n in r.value ==> n !in excludedNames)
    ensures excludedNames == [] ==>
              && (r.Ok? <==> Resolvable(graph, names))
              && (r.Err? ==> exists root :: root in names && Resolver.Justified(graph, root, r.error))
    ensures var excluded := set n | n in excludedNames;
            excludedNames != [] ==>
              && (r.Ok? <==> Explorable(graph, excluded, names) && Unblocked(graph, excluded, names) != [])
              && (r == Err(NothingLeft) <==> Explorable(graph, excluded, names) && Unblocked(graph, excluded, names) == [])
              && (r.Err? && r.error != NothingLeft ==> exists root :: root in names && Justified(graph, excluded, root, r.error))
  {
    var selection := ExcludePackages(graph, names, excludedNames);
    if selection.Err? {
      return Err(selection.error);
    }
    r := Resolver.ResolvePackages(graph, selection.value.kept);
  }
}
