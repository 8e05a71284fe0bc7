/** Dependency graphs of userland packages, for one architecture. */
module PackageGraph {
  import opened Wrappers

  type Name = string

  /** A loadable package: its dependencies in order, and whether it supports the architecture. */
  datatype Package = Package(dependencies: seq<Name>, supported: bool)

  /** The packages that `load_package` can load. */
  type Graph = map<Name, Package>

  datatype Error =
    | Cycle(path: seq<Name>)
    | CannotLoad(name: Name)
    | Unsupported(name: Name)
    | NothingLeft

  type PackageResult<T> = Result<T, Error>

  predicate Edge(g: Graph, a: Name, b: Name) {
    a in g && b in g[a].dependencies
  }

  predicate IsPath(g: Graph, p: seq<Name>) {
    |p| > 0 && forall i :: 0 <= i < |p| - 1 ==> Edge(g, p[i], p[i + 1])
  }

  function First(p: seq<Name>): Name requires |p| > 0 { p[0] }
  function Last(p: seq<Name>): Name requires |p| > 0 { p[|p| - 1] }

  ghost predicate PathBetween(g: Graph, p: seq<Name>, a: Name, b: Name) {
    IsPath(g, p) && First(p) == a && Last(p) == b
  }

  ghost predicate Reaches(g: Graph, a: Name, b: Name) {
    exists p :: PathBetween(g, p, a, b)
  }

  ghost predicate ReachableFrom(g: Graph, names: seq<Name>, b: Name) {
    exists a :: a in names && Reaches(g, a, b)
  }

  ghost predicate OnCycle(g: Graph, n: Name) {
    exists p :: |p| > 1 && PathBetween(g, p, n, n)
  }

  /** Everything that is needed can be loaded, supports the architecture and is free of cycles. */
  ghost predicate Resolvable(g: Graph, names: seq<Name>) {
    forall n :: ReachableFrom(g, names, n) ==> n in g && g[n].supported && !OnCycle(g, n)
  }

  /** Every dependency of an entry stands before it. */
  ghost predicate DependenciesFirst(g: Graph, order: seq<Name>) {
    forall i, d :: 0 <= i < |order| && Edge(g, order[i], d) ==> d in order[..i]
  }

  lemma ReachesSelf(g: Graph, a: Name)
    ensures Reaches(g, a, a)
  {
    assert PathBetween(g, [a], a, a);
  }

  lemma ReachesTransitive(g: Graph, a: Name, b: Name, c: Name)
    requires Reaches(g, a, b) && Reaches(g, b, c)
    ensures Reaches(g, a, c)
  {
    var p :| PathBetween(g, p, a, b);
    var q :| PathBetween(g, q, b, c);
    JoinPaths(g, p, q);
    assert PathBetween(g, p + q[1..], a, c);
  }

  lemma JoinPaths(g: Graph, p: seq<Name>, q: seq<Name>)
    requires IsPath(g, p) && IsPath(g, q) && Last(p) == First(q)
    ensures IsPath(g, p + q[1..]) && First(p + q[1..]) == First(p) && Last(p + q[1..]) == Last(q)
  {
    var r := p + q[1..];
    forall i | 0 <= i < |r| - 1 ensures Edge(g, r[i], r[i + 1]) {
      if i < |p| - 1 {
        assert Edge(g, p[i], p[i + 1]);
      } else {
        assert Edge(g, q[i - |p| + 1], q[i - |p| + 2]);
      }
    }
  }

  lemma EdgeReaches(g: Graph, a: Name, b: Name, c: Name)
    requires Edge(g, a, b) && Reaches(g, b, c)
    ensures Reaches(g, a, c)
  {
    assert PathBetween(g, [a, b], a, b);
    ReachesTransitive(g, a, b, c);
  }

  lemma SubPath(g: Graph, p: seq<Name>, i: nat, j: nat)
    requires IsPath(g, p) && i <= j < |p|
    ensures PathBetween(g, p[i..j + 1], p[i], p[j])
  {
    var q := p[i..j + 1];
    forall k | 0 <= k < |q| - 1 ensures Edge(g, q[k], q[k + 1]) {
      assert Edge(g, p[i + k], p[i + k + 1]);
    }
  }

  /** In a list with dependencies first, paths lead strictly towards the front. */
  lemma {:induction false} PathsDescend(g: Graph, order: seq<Name>, p: seq<Name>, i: nat)
    requires DependenciesFirst(g, order) && IsPath(g, p)
    requires i < |order| && First(p) == order[i]
    ensures Last(p) in order[..i + 1] && (|p| > 1 ==> Last(p) in order[..i])
    decreases |p|
  {
    if |p| > 1 {
      assert Edge(g, p[0], p[1]);
      var j :| 0 <= j < i && order[j] == p[1];
      SubPath(g, p, 1, |p| - 1);
      PathsDescend(g, order, p[1..], j);
    }
  }

  /** A duplicate-free list with dependencies first is closed and free of cycles. */
  lemma OrderedMeansAcyclic(g: Graph, order: seq<Name>, a: Name, b: Name)
    requires NoDuplicates(order) && DependenciesFirst(g, order) && a in order && Reaches(g, a, b)
    ensures b in order && !OnCycle(g, b)
  {
    var p :| PathBetween(g, p, a, b);
    var i :| 0 <= i < |order| && order[i] == a;
    PathsDescend(g, order, p, i);
    var j :| 0 <= j < |order| && order[j] == b;
    forall q ensures !(|q| > 1 && PathBetween(g, q, b, b)) {
      if |q| > 1 && PathBetween(g, q, b, b) {
        PathsDescend(g, order, q, j);
      }
    }
  }
}
