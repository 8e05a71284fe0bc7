/** The shared objects that an executable needs, each inspected once. */
module DependencyClosure {
  import opened Wrappers

  type Path = string
  type Name = string

  /** Where a needed name is found: the path, and the file it resolves to. */
  datatype Dependency = Dependency(path: Path, identity: Path)

  /** An inspected object: its interpreter and needed names in order, and those that are found. */
  datatype Object = Object(path: Path, identity: Path, architecture: string, names: seq<Name>, found: map<Name, Dependency>)

  /** The objects that can be inspected, by path. */
  type World = map<Path, Object>

  datatype Failure = Mismatch(path: Path) | CannotInspect(path: Path)

  datatype Closure = Closure(objects: seq<Object>, unresolved: seq<(Path, Name)>)

  /** Resolving a path does not depend on who asks. */
  ghost predicate Consistent(w: World) {
    && (forall p :: p in w ==> w[p].path == p)
    && (forall p, n :: p in w && n in w[p].found && w[p].found[n].path in w ==>
          w[w[p].found[n].path].identity == w[p].found[n].identity)
  }

  predicate Needs(o: Object, path: Path) {
    exists n :: n in o.names && n in o.found && o.found[n].path == path
  }

  /** A chain of dependencies from the target. */
  ghost predicate Chain(w: World, target: Path, chain: seq<Path>) {
    && |chain| > 0 && chain[0] == target
    && forall i :: 0 <= i < |chain| - 1 ==> Follows(w, chain[i], chain[i + 1])
  }

  ghost predicate Follows(w: World, p: Path, q: Path) { p in w && Needs(w[p], q) }

  ghost predicate ChainTo(w: World, target: Path, chain: seq<Path>, path: Path) {
    Chain(w, target, chain) && chain[|chain| - 1] == path
  }

  ghost predicate Reachable(w: World, target: Path, path: Path) {
    exists chain :: ChainTo(w, target, chain, path)
  }

  lemma ReachesNeeded(w: World, target: Path, p: Path, q: Path)
    requires Reachable(w, target, p) && Follows(w, p, q)
    ensures Reachable(w, target, q)
  {
    var chain :| ChainTo(w, target, chain, p);
    var more := chain + [q];
    forall i | 0 <= i < |more| - 1 ensures Follows(w, more[i], more[i + 1]) {
      if i < |chain| - 1 {
        assert Follows(w, chain[i], chain[i + 1]);
      }
    }
    assert ChainTo(w, target, more, q);
  }

  lemma TargetIsReachable(w: World, target: Path)
    ensures Reachable(w, target, target)
  {
    assert ChainTo(w, target, [target], target);
  }

  // --- The worklist ---------------------------------------------------------------------------------------

  function Identities(objects: seq<Object>): set<Path> { set o | o in objects :: o.identity }

  /** Names that are not found, object by object. */
  function Unresolved(objects: seq<Object>): seq<(Path, Name)> {
    if objects == [] then []
    else Unresolved(objects[..|objects| - 1]) + Missing(objects[|objects| - 1], |objects[|objects| - 1].names|)
  }

  function Missing(o: Object, n: nat): seq<(Path, Name)>
    requires n <= |o.names|
  {
    if n == 0 then []
    else if o.names[n - 1] in o.found then Missing(o, n - 1)
    else Missing(o, n - 1) + [(o.path, o.names[n - 1])]
  }

  ghost predicate Known(w: World, target: Path, o: Object) {
    o.path in w && w[o.path] == o && Reachable(w, target, o.path)
  }

  /** Every dependency of `o` among its first `n` names is in `identities`. */
  ghost predicate Covered(o: Object, n: nat, identities: set<Path>)
    requires n <= |o.names|
  {
    forall k :: 0 <= k < n && o.names[k] in o.found ==> o.found[o.names[k]].identity in identities
  }

  ghost predicate AllCovered(objects: seq<Object>, identities: set<Path>) {
    forall o :: o in objects ==> Covered(o, |o.names|, identities)
  }

  /** Objects are visited once each, all of them are reachable and of one architecture; with recursion
      everything they need is visited too. */
  ghost predicate Complete(w: World, target: Path, recursive: bool, c: Closure) {
    && target in w && |c.objects| > 0 && c.objects[0] == w[target]
    && (forall i, j :: 0 <= i < j < |c.objects| ==> c.objects[i].identity != c.objects[j].identity)
    && (forall o :: o in c.objects ==> Known(w, target, o) && o.architecture == w[target].architecture)
    && (recursive ==> AllCovered(c.objects, Identities(c.objects)))
    && (!recursive ==> |c.objects| == 1)
    && c.unresolved == Unresolved(c.objects)
  }

  ghost predicate Justified(w: World, target: Path, e: Failure) {
    match e
    case Mismatch(p) => Reachable(w, target, p) && p in w && target in w && w[p].architecture != w[target].architecture
    case CannotInspect(p) => Reachable(w, target, p) && p !in w
  }

  /** What the worklist keeps. */
  ghost predicate Progress(w: World, target: Path, recursive: bool, objects: seq<Object>, queue: seq<Object>)
    requires target in w
  {
    && (if objects == [] then queue == [w[target]] else objects[0] == w[target])
    && (forall i, j :: 0 <= i < j < |objects| ==> objects[i].identity != objects[j].identity)
    && (forall o :: o in objects ==> Known(w, target, o) && o.architecture == w[target].architecture)
    && (forall o :: o in queue ==> Known(w, target, o))
    && (recursive ==> AllCovered(objects, Identities(objects) + Identities(queue)))
    && (!recursive ==> |objects| + |queue| == 1)
  }

  lemma CoveredMore(objects: seq<Object>, few: set<Path>, many: set<Path>)
    requires AllCovered(objects, few) && few <= many
    ensures AllCovered(objects, many)
  {
    forall o | o in objects ensures Covered(o, |o.names|, many) {
      assert Covered(o, |o.names|, few);
    }
  }

  lemma Skip(w: World, target: Path, recursive: bool, objects: seq<Object>, queue: seq<Object>)
    requires target in w && Progress(w, target, recursive, objects, queue)
    requires queue != [] && queue[0].identity in Identities(objects)
    ensures Progress(w, target, recursive, objects, queue[1..])
  {
    assert queue == [queue[0]] + queue[1..];
    assert objects != [];
    assert Identities(queue) <= Identities(queue[1..]) + {queue[0].identity};
    if recursive {
      CoveredMore(objects, Identities(objects) + Identities(queue), Identities(objects) + Identities(queue[1..]));
    }
  }

  lemma Visit(w: World, target: Path, recursive: bool, objects: seq<Object>, queue: seq<Object>, more: seq<Object>)
    requires target in w && Progress(w, target, recursive, objects, queue)
    requires queue != [] && queue[0].identity !in Identities(objects) && queue[0].architecture == w[target].architecture
    requires forall d :: d in more ==> Known(w, target, d)
    requires var o := queue[0];
             && (recursive ==> Covered(o, |o.names|, Identities(objects) + {o.identity} + Identities(more)))
             && (!recursive ==> more == [])
    ensures Progress(w, target, recursive, objects + [queue[0]], queue[1..] + more)
  {
    var o, rest := queue[0], queue[1..];
    var next := objects + [o];
    assert queue == [o] + rest;
    assert forall i :: 0 <= i < |objects| ==> objects[i] in objects && objects[i].identity in Identities(objects);
    var few := Identities(objects) + Identities(queue);
    var many := Identities(next) + Identities(rest + more);
    assert o in next;
    assert Identities(objects) <= many && Identities(queue) <= many && Identities(more) <= many by {
      assert forall x :: x in objects ==> x in next;
      assert forall x :: x in queue ==> x == o || x in rest + more;
      assert forall x :: x in more ==> x in rest + more;
    }
    if recursive {
      CoveredMore(objects, few, many);
      assert Covered(o, |o.names|, many);
      assert AllCovered(next, many);
    }
  }

  lemma Started(w: World, target: Path, recursive: bool)
    requires Consistent(w) && target in w
    ensures Progress(w, target, recursive, [], [w[target]])
  {
    TargetIsReachable(w, target);
  }

  lemma Finished(w: World, target: Path, recursive: bool, objects: seq<Object>)
    requires target in w && Progress(w, target, recursive, objects, [])
    ensures Complete(w, target, recursive, Closure(objects, Unresolved(objects)))
  {
    if recursive {
      CoveredMore(objects, Identities(objects) + Identities([]), Identities(objects));
    }
  }

  method DependencyClosure(w: World, target: Path, recursive: bool) returns (r: Result<Closure, Failure>)
    requires Consistent(w)
    ensures r.Ok? ==> Complete(w, target, recursive, r.value)
    ensures r.Err? ==> Justified(w, target, r.error)
  {
    if target !in w {
      TargetIsReachable(w, target);
      return Err(CannotInspect(target));
    }
    Started(w, target, recursive);
    var queue := [w[target]];
    var objects: seq<Object>, unresolved: seq<(Path, Name)>, seen: set<Path> := [], [], {};
    ghost var universe := set p | p in w :: w[p].identity;
    while queue != []
      invariant Progress(w, target, recursive, objects, queue)
      invariant seen == Identities(objects) && unresolved == Unresolved(objects)
      decreases |universe - seen|, |queue|
    {
      var o := queue[0];
      assert o in queue && Known(w, target, o);
      if o.identity in seen {
        Skip(w, target, recursive, objects, queue);
        queue := queue[1..];
        continue;
      }
      if o.architecture != w[target].architecture {
        return Err(Mismatch(o.path));
      }
      var missing, more := Expand(w, target, o, recursive, seen + {o.identity});
      if more.Err? {
        return Err(more.error);
      }
      Visit(w, target, recursive, objects, queue, more.value);
      Shrinks(universe, seen, o.identity);
      Appended(objects, o);
      objects, seen := objects + [o], seen + {o.identity};
      queue := queue[1..] + more.value;
      unresolved := unresolved + missing;
    }
    Finished(w, target, recursive, objects);
    return Ok(Closure(objects, unresolved));
  }

  lemma Shrinks(universe: set<Path>, seen: set<Path>, identity: Path)
    requires identity in universe && identity !in seen
    ensures |universe - (seen + {identity})| < |universe - seen|
  {
    assert universe - (seen + {identity}) == (universe - seen) - {identity};
  }

  lemma Appended(objects: seq<Object>, o: Object)
    ensures Unresolved(objects + [o]) == Unresolved(objects) + Missing(o, |o.names|)
    ensures Identities(objects + [o]) == Identities(objects) + {o.identity}
  {
    assert (objects + [o])[..|objects|] == objects;
    assert o in objects + [o];
    assert forall x :: x in objects ==> x in objects + [o];
  }

  /** The loop over the names of one object. */
  method Expand(w: World, ghost target: Path, o: Object, recursive: bool, seen: set<Path>)
    returns (missing: seq<(Path, Name)>, r: Result<seq<Object>, Failure>)
    requires Consistent(w) && Known(w, target, o)
    ensures r.Err? ==> Justified(w, target, r.error)
    ensures r.Ok? ==>
              && missing == Missing(o, |o.names|)
              && (forall d :: d in r.value ==> Known(w, target, d))
              && (recursive ==> Covered(o, |o.names|, seen + Identities(r.value)))
              && (!recursive ==> r.value == [])
  {
    missing := [];
    var more: seq<Object> := [];
    for n := 0 to |o.names|
      invariant missing == Missing(o, n)
      invariant forall d :: d in more ==> Known(w, target, d)
      invariant recursive ==> Covered(o, n, seen + Identities(more))
      invariant !recursive ==> more == []
    {
      var name := o.names[n];
      if name !in o.found {
        missing := missing + [(o.path, name)];
        continue;
      }
      var d := o.found[name];
      if recursive && d.identity !in seen {
        assert Follows(w, o.path, d.path);
        ReachesNeeded(w, target, o.path, d.path);
        if d.path !in w {
          return missing, Err(CannotInspect(d.path));
        }
        ghost var before := more;
        more := more + [w[d.path]];
        assert w[d.path] in more && w[d.path].identity == d.identity;
        assert forall x :: x in before ==> x in more;
      }
    }
    return missing, Ok(more);
  }

  // --- Exactly the reachable objects --------------------------------------------------------------------------

  /** Two paths to the same file need the same files and have the same architecture. */
  ghost predicate Determined(w: World) {
    && (forall p, q :: p in w && q in w && w[p].identity == w[q].identity ==>
          w[p].architecture == w[q].architecture && NeededIdentities(w[p]) == NeededIdentities(w[q]))
    && (forall p, q, n :: p in w && q in w && n in w[p].found && w[p].found[n].identity == w[q].identity ==>
          w[p].found[n].path in w)
  }

  ghost function NeededIdentities(o: Object): set<Path> {
    set n | n in o.names && n in o.found :: o.found[n].identity
  }

  /** Everything reachable that can be inspected has been visited, under this or another path. */
  lemma {:induction false} ChainIsVisited(w: World, target: Path, c: Closure, chain: seq<Path>)
    requires Consistent(w) && Determined(w) && Complete(w, target, true, c)
    requires Chain(w, target, chain)
    ensures chain[|chain| - 1] in w && w[chain[|chain| - 1]].identity in Identities(c.objects)
    decreases |chain|
  {
    var last := chain[|chain| - 1];
    if |chain| == 1 {
      assert c.objects[0] in c.objects;
    } else {
      var front := chain[..|chain| - 1];
      forall i | 0 <= i < |front| - 1 ensures Follows(w, front[i], front[i + 1]) {
        assert Follows(w, chain[i], chain[i + 1]);
      }
      ChainIsVisited(w, target, c, front);
      var p := chain[|chain| - 2];
      assert Follows(w, p, last);
      var o :| o in c.objects && o.identity == w[p].identity;
      NeedIsVisited(w, target, c, o, p, last);
    }
  }

  lemma NeedIsVisited(w: World, target: Path, c: Closure, o: Object, p: Path, q: Path)
    requires Consistent(w) && Determined(w) && Complete(w, target, true, c)
    requires o in c.objects && p in w && o.identity == w[p].identity && Follows(w, p, q)
    ensures q in w && w[q].identity in Identities(c.objects)
  {
    var n :| n in w[p].names && n in w[p].found && w[p].found[n].path == q;
    var identity := w[p].found[n].identity;
    assert identity in NeededIdentities(w[p]);
    assert Known(w, target, o);
    var m :| m in o.names && m in o.found && o.found[m].identity == identity;
    var k :| 0 <= k < |o.names| && o.names[k] == m;
    assert Covered(o, |o.names|, Identities(c.objects));
    var visited :| visited in c.objects && visited.identity == identity;
    assert Known(w, target, visited);
    assert w[visited.path].identity == identity;
  }

  /** With recursion and when paths to one file agree, the closure succeeds exactly when everything
      reachable can be inspected and has the target's architecture, and it then visits exactly the
      reachable files, once each. */
  lemma ClosureIsExact(w: World, target: Path, r: Result<Closure, Failure>)
    requires Consistent(w) && Determined(w)
    requires r.Ok? ==> Complete(w, target, true, r.value)
    requires r.Err? ==> Justified(w, target, r.error)
    ensures r.Ok? <==> forall p :: Reachable(w, target, p) ==> p in w && target in w && w[p].architecture == w[target].architecture
    ensures r.Ok? ==> forall i :: i in Identities(r.value.objects) <==> exists p :: Reachable(w, target, p) && p in w && w[p].identity == i
  {
    if r.Ok? {
      forall p | Reachable(w, target, p)
        ensures p in w && w[p].identity in Identities(r.value.objects) && w[p].architecture == w[target].architecture
      {
        var chain :| ChainTo(w, target, chain, p);
        ChainIsVisited(w, target, r.value, chain);
        var o :| o in r.value.objects && o.identity == w[p].identity;
        assert Known(w, target, o);
      }
      forall i | i in Identities(r.value.objects) ensures exists p :: Reachable(w, target, p) && p in w && w[p].identity == i {
        var o :| o in r.value.objects && o.identity == i;
        assert Known(w, target, o);
        assert Reachable(w, target, o.path) && w[o.path].identity == i;
      }
    }
  }
}
