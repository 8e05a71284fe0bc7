/** Tracing selected crate features up to flags of the root crate. */
module Features {
  import opened Wrappers

  type Name = string

  datatype Dependency = Dependency(name: Name, package: Name)
  datatype Feature = Feature(name: Name, values: seq<string>)
  datatype Crate = Crate(deps: seq<Dependency>, features: seq<Feature>)

  /** The crates by package, and the order in which they were found. */
  datatype Workspace = Workspace(crates: map<Name, Crate>, order: seq<Name>)

  /** A feature of a package. */
  datatype Item = Item(package: Name, feature: Name)

  datatype Warning = NoRoot | NoParents(item: Item) | NoFeature(item: Item)

  ghost predicate Valid(w: Workspace) { forall n :: n in w.order <==> n in w.crates }

  // --- Lookups --------------------------------------------------------------------------------------

  /** The first name under which a crate depends on a package. */
  method DepNameForPackage(parent: Crate, package: Name) returns (name: Option<Name>)
    ensures name == DepName(parent.deps, package)
  {
    for i := 0 to |parent.deps|
      invariant DepName(parent.deps, package) == DepName(parent.deps[i..], package)
    {
      if parent.deps[i].package == package {
        return Some(parent.deps[i].name);
      }
    }
    return None;
  }

  function DepName(deps: seq<Dependency>, package: Name): (name: Option<Name>)
    ensures name.Some? <==> exists d :: d in deps && d.package == package
    ensures name.Some? ==> Dependency(name.value, package) in deps
  {
    if deps == [] then None
    else if deps[0].package == package then Some(deps[0].name)
    else
      var rest := DepName(deps[1..], package);
      assert forall d :: d in deps <==> d == deps[0] || d in deps[1..];
      rest
  }

  /** Assignment to a dictionary that remembers the order in which its keys were first set. */
  function Put(d: seq<Dependency>, name: Name, package: Name): seq<Dependency> {
    if d == [] then [Dependency(name, package)]
    else if d[0].name == name then [Dependency(name, package)] + d[1..]
    else [d[0]] + Put(d[1..], name, package)
  }

  function Direct(deps: seq<Dependency>): seq<Dependency> {
    if deps == [] then []
    else
      var last := deps[|deps| - 1];
      Put(Direct(deps[..|deps| - 1]), last.name, last.package)
  }

  /** The name for a package when later entries replace earlier ones. */
  function LastName(d: seq<Dependency>, package: Name): Option<Name> {
    if d == [] then None
    else if d[|d| - 1].package == package then Some(d[|d| - 1].name)
    else LastName(d[..|d| - 1], package)
  }

  /** The name under which root enables features of a package. */
  function FlagName(root: Crate, package: Name): Option<Name> { LastName(Direct(root.deps), package) }

  predicate IsApi(feature: Name) { "api-" <= feature }

  predicate Mentions(deps: seq<Dependency>, package: Name) { exists d :: d in deps && d.package == package }

  predicate DependsOn(c: Crate, package: Name) { Mentions(c.deps, package) }

  /** Where the trace of an item goes on: not at root, its direct dependencies and shared API
      features. */
  predicate Propagates(w: Workspace, root: Name, item: Item)
    requires root in w.crates
  {
    item.package != root && FlagName(w.crates[root], item.package).None? && !IsApi(item.feature)
  }

  /** A feature of `parent` that lists the child's feature, under the parent's first name for it. */
  predicate Enables(w: Workspace, parent: Item, child: Item) {
    && parent.package in w.crates && child.package in w.crates
    && var p := w.crates[parent.package];
    var name := DepName(p.deps, child.package);
    && name.Some? && name.value != "" && parent.feature != "default"
    && Lists(p.features, parent.feature, name.value + "/" + child.feature)
  }

  predicate Lists(features: seq<Feature>, name: Name, value: string) {
    exists f :: f in features && f.name == name && value in f.values
  }

  /** A set of items that holds the selected ones and every item that the trace leads to. */
  ghost predicate Closed(w: Workspace, root: Name, selected: seq<Item>, items: iset<Item>)
    requires root in w.crates
  {
    && (forall x :: x in selected ==> x in items)
    && (forall child, parent :: child in items && Propagates(w, root, child) && Enables(w, parent, child) ==> parent in items)
  }

  ghost predicate Least(w: Workspace, root: Name, selected: seq<Item>, items: set<Item>)
    requires root in w.crates
  {
    && Closed(w, root, selected, iset x | x in items)
    && forall other :: Closed(w, root, selected, other) ==> forall x :: x in items ==> x in other
  }

  /** The flag that an item puts on the command line. */
  function Flag(w: Workspace, root: Name, item: Item): Option<string>
    requires root in w.crates
  {
    if item.package == root then Some(item.feature)
    else match FlagName(w.crates[root], item.package)
      case Some(name) => Some(name + "/" + item.feature)
      case None => None
  }

  ghost predicate Dangling(w: Workspace, root: Name, item: Item)
    requires root in w.crates
  {
    Propagates(w, root, item) && forall parent :: !Enables(w, parent, item)
  }

  ghost function WarningFor(w: Workspace, item: Item): Warning {
    if exists p :: p in w.crates && DependsOn(w.crates[p], item.package) then NoFeature(item) else NoParents(item)
  }

  // --- The worklist ----------------------------------------------------------------------------------

  ghost function Universe(w: Workspace, selected: seq<Item>): set<Item> {
    (set x | x in selected) + (set p, f | p in w.crates && f in w.crates[p].features :: Item(p, f.name))
  }

  /** `seen` is finished except for what is still in `work`. */
  ghost predicate Progress(w: Workspace, root: Name, selected: seq<Item>, seen: set<Item>, work: seq<Item>)
    requires root in w.crates
  {
    && (forall x :: x in selected ==> x in seen || x in work)
    && (forall child, parent :: child in seen && Propagates(w, root, child) && Enables(w, parent, child) ==>
          parent in seen || parent in work)
    && (forall other, x :: Closed(w, root, selected, other) && (x in seen || x in work) ==> x in other)
    && (forall x :: x in seen || x in work ==> x in Universe(w, selected))
  }

  lemma Visit(w: Workspace, root: Name, selected: seq<Item>, seen: set<Item>, work: seq<Item>, next: seq<Item>)
    requires root in w.crates && work != [] && Progress(w, root, selected, seen, work)
    requires var item := work[|work| - 1];
             forall x :: x in next <==> Propagates(w, root, item) && Enables(w, x, item)
    ensures Progress(w, root, selected, seen + {work[|work| - 1]}, work[..|work| - 1] + next)
  {
    var item, rest := work[|work| - 1], work[..|work| - 1];
    assert work == rest + [item];
    forall other, x | Closed(w, root, selected, other) && (x in seen + {item} || x in rest + next) ensures x in other {
      assert item in other;
    }
    forall x | x in next ensures x in Universe(w, selected) {
      var name := DepName(w.crates[x.package].deps, item.package).value;
      var f :| f in w.crates[x.package].features && f.name == x.feature && name + "/" + item.feature in f.values;
      assert x == Item(x.package, f.name);
    }
  }

  lemma Skip(w: Workspace, root: Name, selected: seq<Item>, seen: set<Item>, work: seq<Item>)
    requires root in w.crates && work != [] && Progress(w, root, selected, seen, work) && work[|work| - 1] in seen
    ensures Progress(w, root, selected, seen, work[..|work| - 1])
  {
    assert work == work[..|work| - 1] + [work[|work| - 1]];
  }

  lemma Finished(w: Workspace, root: Name, selected: seq<Item>, seen: set<Item>)
    requires root in w.crates && Progress(w, root, selected, seen, [])
    ensures Least(w, root, selected, seen)
  {
  }

  method DirectDependencies(deps: seq<Dependency>) returns (direct: seq<Dependency>)
    ensures direct == Direct(deps)
  {
    direct := [];
    for i := 0 to |deps|
      invariant direct == Direct(deps[..i])
    {
      assert deps[..i + 1][..i] == deps[..i];
      direct := Put(direct, deps[i].name, deps[i].package);
    }
    assert deps[..|deps|] == deps;
  }

  predicate Listed(parents: map<Name, seq<Name>>, child: Name, parent: Name) {
    child in parents && parent in parents[child]
  }

  /** The packages that depend on each package. */
  method ParentsOf(w: Workspace) returns (parents: map<Name, seq<Name>>)
    requires Valid(w)
    ensures forall c :: c in parents ==> parents[c] != []
    ensures forall c, p :: Listed(parents, c, p) <==> p in w.crates && DependsOn(w.crates[p], c)
  {
    parents := map[];
    for i := 0 to |w.order|
      invariant forall c :: c in parents ==> parents[c] != []
      invariant forall c, p :: Listed(parents, c, p) <==> p in w.order[..i] && p in w.crates && DependsOn(w.crates[p], c)
    {
      var package := w.order[i];
      assert package in w.order;
      parents := AddParent(parents, package, w.crates[package].deps);
      assert w.order[..i + 1] == w.order[..i] + [package];
    }
    assert w.order[..|w.order|] == w.order;
  }

  method AddParent(before: map<Name, seq<Name>>, package: Name, deps: seq<Dependency>) returns (parents: map<Name, seq<Name>>)
    requires forall c :: c in before ==> before[c] != []
    ensures forall c :: c in parents ==> parents[c] != []
    ensures forall c, p :: Listed(parents, c, p) <==> Listed(before, c, p) || (p == package && Mentions(deps, c))
  {
    parents := before;
    for j := 0 to |deps|
      invariant forall c :: c in parents ==> parents[c] != []
      invariant forall c, p :: Listed(parents, c, p) <==> Listed(before, c, p) || (p == package && Mentions(deps[..j], c))
    {
      var child := deps[j].package;
      var known := if child in parents then parents[child] else [];
      ghost var last := parents;
      parents := parents[child := known + [package]];
      assert forall c, p :: Listed(parents, c, p) <==> Listed(last, c, p) || (c == child && p == package);
      assert deps[..j + 1] == deps[..j] + [deps[j]];
      assert Mentions(deps[..j + 1], child) by {
        assert deps[j] in deps[..j + 1];
      }
      assert forall c :: Mentions(deps[..j + 1], c) <==> Mentions(deps[..j], c) || c == child;
    }
    assert deps[..|deps|] == deps;
  }

  /** The features of the candidates that list the item's feature. */
  method Bubble(w: Workspace, item: Item, candidates: seq<Name>) returns (next: seq<Item>)
    requires forall p :: p in candidates <==> p in w.crates && DependsOn(w.crates[p], item.package)
    ensures forall x :: x in next <==> Enables(w, x, item)
  {
    next := [];
    if item.package !in w.crates {
      return;
    }
    for i := 0 to |candidates|
      invariant forall x :: x in next <==> x.package in candidates[..i] && Enables(w, x, item)
    {
      var package := candidates[i];
      assert package in candidates;
      var parent := w.crates[package];
      var name := DepNameForPackage(parent, item.package);
      assert candidates[..i + 1] == candidates[..i] + [package];
      if name.None? || name.value == "" {
        continue;
      }
      var more := BubbleInto(package, parent.features, name.value + "/" + item.feature);
      next := next + more;
    }
    assert candidates[..|candidates|] == candidates;
  }

  /** The scan of one parent's features. */
  method BubbleInto(package: Name, features: seq<Feature>, needle: string) returns (next: seq<Item>)
    ensures forall x :: x in next <==> x.package == package && x.feature != "default" && Lists(features, x.feature, needle)
  {
    next := [];
    for i := 0 to |features|
      invariant forall x :: x in next <==> x.package == package && x.feature != "default" && Lists(features[..i], x.feature, needle)
    {
      var f := features[i];
      assert features[..i + 1] == features[..i] + [f];
      ListsMore(features[..i], f, needle);
      if f.name != "default" && needle in f.values {
        next := next + [Item(package, f.name)];
      }
    }
    assert features[..|features|] == features;
  }

  lemma ListsMore(features: seq<Feature>, f: Feature, needle: string)
    ensures forall name :: Lists(features + [f], name, needle) <==> Lists(features, name, needle) || (f.name == name && needle in f.values)
  {
    forall name ensures Lists(features + [f], name, needle) <==> Lists(features, name, needle) || (f.name == name && needle in f.values) {
      if Lists(features, name, needle) {
        var g :| g in features && g.name == name && needle in g.values;
        assert g in features + [f];
      }
      if f.name == name && needle in f.values {
        assert f in features + [f];
      }
    }
  }

  ghost predicate FlagsOf(w: Workspace, root: Name, seen: set<Item>, flags: set<string>)
    requires root in w.crates
  {
    forall f :: f in flags <==> exists x :: x in seen && Flag(w, root, x) == Some(f)
  }

  ghost predicate WarningsOf(w: Workspace, root: Name, seen: set<Item>, warnings: seq<Warning>)
    requires root in w.crates
  {
    forall v :: v in warnings <==> exists x :: x in seen && Dangling(w, root, x) && v == WarningFor(w, x)
  }

  lemma EnablesDepends(w: Workspace, parent: Item, child: Item)
    ensures Enables(w, parent, child) ==> parent.package in w.crates && DependsOn(w.crates[parent.package], child.package)
  {
  }

  /** What one item contributes: a flag, a warning, or further items. */
  method Trace(w: Workspace, root: Name, item: Item, direct: seq<Dependency>, parents: map<Name, seq<Name>>)
    returns (flag: Option<string>, warning: Option<Warning>, next: seq<Item>)
    requires root in w.crates && direct == Direct(w.crates[root].deps)
    requires forall c :: c in parents ==> parents[c] != []
    requires forall c, p :: Listed(parents, c, p) <==> p in w.crates && DependsOn(w.crates[p], c)
    ensures flag == Flag(w, root, item)
    ensures warning == if Dangling(w, root, item) then Some(WarningFor(w, item)) else None
    ensures forall x :: x in next <==> Propagates(w, root, item) && Enables(w, x, item)
  {
    flag, warning, next := None, None, [];
    var name := LastName(direct, item.package);
    if item.package == root {
      flag := Some(item.feature);
    } else if name.Some? {
      flag := Some(name.value + "/" + item.feature);
    } else if IsApi(item.feature) {
    } else if item.package !in parents {
      warning := Some(NoParents(item));
      assert forall p :: !Listed(parents, item.package, p);
      forall p ensures Enables(w, p, item) ==> Listed(parents, item.package, p.package) {
        EnablesDepends(w, p, item);
      }
      assert Dangling(w, root, item);
    } else {
      var candidates := parents[item.package];
      assert forall p :: Listed(parents, item.package, p) <==> p in candidates;
      assert Listed(parents, item.package, candidates[0]);
      next := Bubble(w, item, candidates);
      if next == [] {
        assert DependsOn(w.crates[candidates[0]], item.package);
        warning := Some(NoFeature(item));
      } else {
        assert next[0] in next && Enables(w, next[0], item);
      }
    }
  }

  lemma FlagsMore(w: Workspace, root: Name, seen: set<Item>, flags: set<string>, item: Item, more: set<string>)
    requires root in w.crates && FlagsOf(w, root, seen, flags)
    requires more == match Flag(w, root, item) case Some(f) => flags + {f} case None => flags
    ensures FlagsOf(w, root, seen + {item}, more)
  {
    forall f ensures f in more <==> exists x :: x in seen + {item} && Flag(w, root, x) == Some(f) {
      if f in flags {
        var x :| x in seen && Flag(w, root, x) == Some(f);
        assert x in seen + {item};
      } else if f in more {
        assert item in seen + {item};
      }
    }
  }

  lemma WarningsMore(w: Workspace, root: Name, seen: set<Item>, warnings: seq<Warning>, item: Item, more: seq<Warning>)
    requires root in w.crates && WarningsOf(w, root, seen, warnings)
    requires more == if Dangling(w, root, item) then warnings + [WarningFor(w, item)] else warnings
    ensures WarningsOf(w, root, seen + {item}, more)
  {
    forall v ensures v in more <==> exists x :: x in seen + {item} && Dangling(w, root, x) && v == WarningFor(w, x) {
      if v in warnings {
        var x :| x in seen && Dangling(w, root, x) && v == WarningFor(w, x);
        assert x in seen + {item};
      } else if v in more {
        assert item in seen + {item};
      }
    }
  }

  /** The flags and warnings of exactly the items that the selection leads to. */
  method BubbleFeaturesToRoot(root: Name, selected: seq<Item>, w: Workspace)
    returns (flags: set<string>, warnings: seq<Warning>, ghost seen: set<Item>)
    requires Valid(w)
    ensures root !in w.crates ==> flags == {} && warnings == [NoRoot]
    ensures root in w.crates ==>
              Least(w, root, selected, seen) && FlagsOf(w, root, seen, flags) && WarningsOf(w, root, seen, warnings)
  {
    flags, warnings, seen := {}, [], {};
    if root !in w.crates {
      return {}, [NoRoot], {};
    }
    var direct := DirectDependencies(w.crates[root].deps);
    var parents := ParentsOf(w);
    var work := selected;
    var done: set<Item> := {};
    ghost var universe := Universe(w, selected);
    while work != []
      invariant Progress(w, root, selected, done, work)
      invariant FlagsOf(w, root, done, flags) && WarningsOf(w, root, done, warnings)
      decreases |universe - done|, |work|
    {
      var item := work[|work| - 1];
      if item in done {
        Skip(w, root, selected, done, work);
        work := work[..|work| - 1];
        continue;
      }
      var flag, warning, next := Trace(w, root, item, direct, parents);
      Visit(w, root, selected, done, work, next);
      ghost var oldFlags, oldWarnings := flags, warnings;
      flags := if flag.Some? then flags + {flag.value} else flags;
      warnings := if warning.Some? then warnings + [warning.value] else warnings;
      FlagsMore(w, root, done, oldFlags, item, flags);
      WarningsMore(w, root, done, oldWarnings, item, warnings);
      Shrinks(universe, done, item);
      work := work[..|work| - 1] + next;
      done := done + {item};
    }
    seen := done;
    Finished(w, root, selected, done);
  }

  lemma Shrinks(universe: set<Item>, done: set<Item>, item: Item)
    requires item in universe && item !in done
    ensures |universe - (done + {item})| < |universe - done|
  {
    assert universe - (done + {item}) == (universe - done) - {item};
  }

  // --- What the result means ------------------------------------------------------------------------

  /** The items reached do not depend on the order of the selection or of the worklist, and a larger
      selection never loses a flag. */
  lemma LargerSelection(w: Workspace, root: Name, selected: seq<Item>, more: seq<Item>, seen: set<Item>, seenMore: set<Item>)
    requires root in w.crates && Least(w, root, selected, seen) && Least(w, root, more, seenMore)
    requires forall x :: x in selected ==> x in more
    ensures seen <= seenMore
  {
    assert Closed(w, root, selected, iset x | x in seenMore);
    forall x | x in seen ensures x in seenMore {
      assert x in (iset y | y in seenMore);
    }
  }

  lemma FlagsAreDetermined(w: Workspace, root: Name, a: seq<Item>, b: seq<Item>, seenA: set<Item>, seenB: set<Item>,
                           flagsA: set<string>, flagsB: set<string>)
    requires root in w.crates && (forall x :: x in a <==> x in b)
    requires Least(w, root, a, seenA) && Least(w, root, b, seenB)
    requires FlagsOf(w, root, seenA, flagsA) && FlagsOf(w, root, seenB, flagsB)
    ensures flagsA == flagsB
  {
    LargerSelection(w, root, a, b, seenA, seenB);
    LargerSelection(w, root, b, a, seenB, seenA);
  }

  /** Enabling `from` enables `to` through at most `n` feature lists. */
  ghost predicate Activates(w: Workspace, from: Item, to: Item, n: nat)
    decreases n
  {
    from == to || (n > 0 && exists next :: Enables(w, from, next) && Activates(w, next, to, n - 1))
  }

  ghost predicate Useful(w: Workspace, selected: seq<Item>, x: Item) {
    exists wanted, n: nat :: wanted in selected && Activates(w, x, wanted, n)
  }

  lemma UsefulIsClosed(w: Workspace, root: Name, selected: seq<Item>)
    requires root in w.crates
    ensures Closed(w, root, selected, iset x | Useful(w, selected, x))
  {
    forall x | x in selected ensures Useful(w, selected, x) {
      assert Activates(w, x, x, 0);
    }
    forall child, parent | Useful(w, selected, child) && Enables(w, parent, child) ensures Useful(w, selected, parent) {
      var wanted, n: nat :| wanted in selected && Activates(w, child, wanted, n);
      assert Activates(w, parent, wanted, n + 1);
    }
  }

  /** Every flag serves the selection: it belongs to a feature that activates a selected one. */
  lemma EveryFlagIsWanted(w: Workspace, root: Name, selected: seq<Item>, seen: set<Item>, flags: set<string>, flag: string)
    requires root in w.crates && Least(w, root, selected, seen) && FlagsOf(w, root, seen, flags) && flag in flags
    ensures exists x :: Flag(w, root, x) == Some(flag) && Useful(w, selected, x)
  {
    UsefulIsClosed(w, root, selected);
    var x :| x in seen && Flag(w, root, x) == Some(flag);
    assert x in (iset y | Useful(w, selected, y));
  }

  /** A flag always names a direct dependency of root. */
  lemma FlagNamesDependency(root: Crate, package: Name)
    ensures FlagName(root, package).Some? ==> Dependency(FlagName(root, package).value, package) in root.deps
  {
    LastNameIsEntry(Direct(root.deps), package);
    DirectIsFromDeps(root.deps);
  }

  lemma {:induction false} LastNameIsEntry(d: seq<Dependency>, package: Name)
    ensures LastName(d, package).Some? ==> Dependency(LastName(d, package).value, package) in d
    ensures LastName(d, package).None? ==> !Mentions(d, package)
  {
    if d != [] && d[|d| - 1].package != package {
      LastNameIsEntry(d[..|d| - 1], package);
      assert d == d[..|d| - 1] + [d[|d| - 1]];
    }
  }

  lemma {:induction false} PutEntries(d: seq<Dependency>, name: Name, package: Name)
    ensures forall e :: e in Put(d, name, package) ==> e in d || e == Dependency(name, package)
    ensures (forall e :: e in d ==> e.name != name) ==> Put(d, name, package) == d + [Dependency(name, package)]
  {
    if d != [] && d[0].name != name {
      PutEntries(d[1..], name, package);
      assert d == [d[0]] + d[1..];
    }
  }

  lemma {:induction false} DirectIsFromDeps(deps: seq<Dependency>)
    ensures forall e :: e in Direct(deps) ==> e in deps
    ensures (forall i, j :: 0 <= i < j < |deps| ==> deps[i].name != deps[j].name) ==> Direct(deps) == deps
  {
    if deps != [] {
      var front, last := deps[..|deps| - 1], deps[|deps| - 1];
      DirectIsFromDeps(front);
      PutEntries(Direct(front), last.name, last.package);
      assert deps == front + [last];
    }
  }

  /** With distinct dependency names, root can enable features of all its direct dependencies. */
  lemma DirectDependenciesHaveFlags(root: Crate, package: Name)
    requires forall i, j :: 0 <= i < j < |root.deps| ==> root.deps[i].name != root.deps[j].name
    ensures FlagName(root, package).Some? <==> DependsOn(root, package)
  {
    DirectIsFromDeps(root.deps);
    LastNameIsEntry(root.deps, package);
  }
}
