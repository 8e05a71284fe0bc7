/** Resolving a guest path inside a root directory, link by link. */
module GuestPath {
  import opened Wrappers

  const UP := ".."
  /** The root component that POSIX path parsing keeps for a path with exactly two leading slashes. */
  const TWO := "//"

  /** A place on the host: below the guest root, or not. */
  datatype Location = Inside(parts: seq<string>) | Outside(parts: seq<string>)

  datatype Node = File | Directory | Link(target: string)

  type Files = map<Location, Node>

  // --- Path parsing -----------------------------------------------------------------------------------

  /** The components of a path; empty ones and "." are dropped. */
  function Components(path: string): (parts: seq<string>)
    ensures forall p :: p in parts ==> IsName(p)
    decreases |path|
  {
    if path == "" then []
    else
      var n := FirstLength(path);
      var first := path[..n];
      var rest := if n < |path| then Components(path[n + 1..]) else [];
      if first == "" || first == "." then rest else [first] + rest
  }

  /** The length of the part before the first slash. */
  function FirstLength(path: string): (n: nat)
    ensures n <= |path| && '/' !in path[..n] && (n < |path| ==> path[n] == '/')
  {
    if path == "" || path[0] == '/' then 0 else 1 + FirstLength(path[1..])
  }

  predicate IsName(part: string) { part != "" && part != "." && '/' !in part }

  predicate IsAbsolute(path: string) { "/" <= path }

  predicate HasTwoSlashes(path: string) { "//" <= path && !("///" <= path) }

  /** The parts of a path without its root, unless that is the two-slash one. */
  function PathParts(path: string): seq<string> {
    (if HasTwoSlashes(path) then [TWO] else []) + Components(path)
  }

  // --- Where a list of parts leads --------------------------------------------------------------------

  /** Joining an absolute part to a path forgets what came before. */
  function Locate(parts: seq<string>): (place: Location)
    ensures place.Outside? <==> TWO in parts
    ensures place.Inside? ==> place.parts == parts
  {
    if parts == [] then Inside([])
    else
      var n := |parts| - 1;
      assert parts == parts[..n] + [parts[n]];
      if parts[n] == TWO then Outside([])
      else match Locate(parts[..n])
        case Inside(p) => Inside(p + [parts[n]])
        case Outside(p) => Outside(p + [parts[n]])
  }

  predicate IsLink(fs: Files, parts: seq<string>) { Locate(parts) in fs && fs[Locate(parts)].Link? }
  predicate IsFile(fs: Files, parts: seq<string>) { Locate(parts) in fs && fs[Locate(parts)].File? }

  // --- Reference: entering one component after the other ------------------------------------------------

  /** Where the walk is, how many links it followed, whether it still goes on, and whether it ever
      looked outside the root. */
  datatype Walker = Walker(dir: seq<string>, links: nat, going: bool, strayed: bool)

  function Parent(dir: seq<string>): seq<string> { if dir == [] then [] else dir[..|dir| - 1] }

  /** One component: the parent, the place that a link leads to, or the child. */
  function Enter(fs: Files, max: nat, w: Walker, part: string): (r: Walker)
    requires w.going && w.links <= max
    ensures w.links <= r.links <= max
    decreases max - w.links, 0
  {
    var here := w.dir + [part];
    if part == UP then w.(dir := Parent(w.dir))
    else if !IsLink(fs, here) then Look(w, part).(dir := here)
    else if w.links == max then Look(w, part).(going := false)
    else
      var target := fs[Locate(here)].target;
      Walk(fs, max, Follow(Look(w, part), target), PathParts(target))
  }

  /** Looking at a child. */
  function Look(w: Walker, part: string): Walker {
    w.(strayed := w.strayed || Locate(w.dir + [part]).Outside?)
  }

  /** Where the parts of a link's target are entered. */
  function Follow(w: Walker, target: string): Walker {
    w.(dir := if IsAbsolute(target) then [] else w.dir, links := w.links + 1)
  }

  function Walk(fs: Files, max: nat, w: Walker, parts: seq<string>): (r: Walker)
    requires w.links <= max
    ensures w.links <= r.links <= max
    decreases max - w.links, |parts|
  {
    if parts == [] || !w.going then w
    else Walk(fs, max, Enter(fs, max, w, parts[0]), parts[1..])
  }

  const START := Walker([], 0, true, false)

  function Resolve(fs: Files, max: nat, guest: string): Option<Location> {
    var end := Walk(fs, max, START, Components(guest));
    if end.going && IsFile(fs, end.dir) then Some(Locate(end.dir)) else None
  }

  lemma {:induction false} WalkAppend(fs: Files, max: nat, w: Walker, a: seq<string>, b: seq<string>)
    requires w.links <= max
    ensures Walk(fs, max, w, a + b) == Walk(fs, max, Walk(fs, max, w, a), b)
    decreases max - w.links, |a|
  {
    if a == [] {
      assert a + b == b;
    } else if w.going {
      assert (a + b)[0] == a[0] && (a + b)[1..] == a[1..] + b;
      WalkAppend(fs, max, Enter(fs, max, w, a[0]), a[1..], b);
    }
  }

  /** The worklist form: the target of a link is put in front of what is left. It terminates
      because every turn follows a link or shortens the list. */
  method ResolveGuestPath(fs: Files, guest: string, maxLinks: nat) returns (r: Option<Location>)
    ensures r == Resolve(fs, maxLinks, guest)
  {
    var pending := Components(guest);
    var resolved: seq<string> := [];
    var links: nat := 0;
    ghost var w := START;
    ghost var end := Walk(fs, maxLinks, START, pending);
    while pending != []
      invariant w.dir == resolved && w.links == links <= maxLinks && w.going
      invariant Walk(fs, maxLinks, w, pending) == end
      decreases maxLinks - links, |pending|
    {
      var part := pending[0];
      pending := pending[1..];
      assert end == Walk(fs, maxLinks, Enter(fs, maxLinks, w, part), pending);
      if part == UP {
        if resolved != [] {
          resolved := resolved[..|resolved| - 1];
        }
        w := w.(dir := resolved);
        continue;
      }
      var candidate := resolved + [part];
      if IsLink(fs, candidate) {
        if links == maxLinks {
          return None;
        }
        links := links + 1;
        var target := fs[Locate(candidate)].target;
        if IsAbsolute(target) {
          resolved := [];
        }
        w := Follow(Look(w, part), target);
        WalkAppend(fs, maxLinks, w, PathParts(target), pending);
        pending := PathParts(target) + pending;
      } else {
        resolved := candidate;
        w := Look(w, part).(dir := candidate);
      }
    }
    return if IsFile(fs, resolved) then Some(Locate(resolved)) else None;
  }

  // --- A resolved path needs no more resolving -----------------------------------------------------------

  /** No parent steps, and no prefix is a link. */
  ghost predicate Clean(fs: Files, dir: seq<string>) {
    forall k :: 0 <= k < |dir| ==> PlainPart(fs, dir, k)
  }

  ghost predicate PlainPart(fs: Files, dir: seq<string>, k: nat)
    requires k < |dir|
  {
    dir[k] != UP && (dir[k] == TWO || IsName(dir[k])) && !IsLink(fs, dir[..k + 1])
  }

  ghost predicate PartsOk(parts: seq<string>) { forall p :: p in parts ==> p == TWO || IsName(p) }

  lemma CleanChild(fs: Files, dir: seq<string>, part: string)
    requires Clean(fs, dir) && part != UP && (part == TWO || IsName(part)) && !IsLink(fs, dir + [part])
    ensures Clean(fs, dir + [part])
  {
    var here := dir + [part];
    assert here[..|here|] == here;
    forall k | 0 <= k < |here| ensures PlainPart(fs, here, k) {
      if k < |dir| {
        assert PlainPart(fs, dir, k) && here[..k + 1] == dir[..k + 1];
      }
    }
  }

  lemma CleanParent(fs: Files, dir: seq<string>)
    requires Clean(fs, dir)
    ensures Clean(fs, Parent(dir))
  {
    forall k | 0 <= k < |Parent(dir)| ensures PlainPart(fs, Parent(dir), k) {
      assert PlainPart(fs, dir, k) && Parent(dir)[..k + 1] == dir[..k + 1];
    }
  }

  /** Being outside the root is noticed when it happens. */
  ghost predicate Sound(fs: Files, w: Walker) { Clean(fs, w.dir) && (TWO in w.dir ==> w.strayed) }

  lemma {:induction false} EnterKeeps(fs: Files, max: nat, w: Walker, part: string)
    requires w.going && w.links <= max && Sound(fs, w) && (part == TWO || IsName(part))
    ensures Sound(fs, Enter(fs, max, w, part))
    decreases max - w.links, 0
  {
    var here := w.dir + [part];
    if part == UP {
      CleanParent(fs, w.dir);
    } else if !IsLink(fs, here) {
      CleanChild(fs, w.dir, part);
    } else if w.links < max {
      var target := fs[Locate(here)].target;
      WalkKeeps(fs, max, Follow(Look(w, part), target), PathParts(target));
    }
  }

  lemma {:induction false} WalkKeeps(fs: Files, max: nat, w: Walker, parts: seq<string>)
    requires w.links <= max && Sound(fs, w) && PartsOk(parts)
    ensures Sound(fs, Walk(fs, max, w, parts))
    decreases max - w.links, |parts|
  {
    if parts != [] && w.going {
      EnterKeeps(fs, max, w, parts[0]);
      WalkKeeps(fs, max, Enter(fs, max, w, parts[0]), parts[1..]);
    }
  }

  /** The path found names a file, has no parent step and no link on the way; and when it is inside
      the root, resolving it again finds it again. */
  lemma ResolvedPathIsFinal(fs: Files, max: nat, guest: string)
    requires Resolve(fs, max, guest).Some?
    ensures var place := Resolve(fs, max, guest).value;
            && place in fs && fs[place].File?
            && Clean(fs, Walk(fs, max, START, Components(guest)).dir)
            && (place.Inside? ==> Resolve(fs, 0, Join(place.parts)) == Some(place))
  {
    WalkKeeps(fs, max, START, Components(guest));
    var dir := Walk(fs, max, START, Components(guest)).dir;
    if TWO !in dir {
      forall p | p in dir ensures IsName(p) {
        var k :| 0 <= k < |dir| && dir[k] == p;
        assert PlainPart(fs, dir, k);
      }
      ComponentsOfJoin(dir);
      assert [] + dir == dir;
      WalkPlain(fs, 0, [], dir);
    }
  }

  lemma {:induction false} WalkPlain(fs: Files, max: nat, dir: seq<string>, parts: seq<string>)
    requires Clean(fs, dir + parts) && TWO !in dir + parts
    ensures Walk(fs, max, START.(dir := dir), parts) == START.(dir := dir + parts)
    decreases |parts|
  {
    if parts == [] {
      assert dir + parts == dir;
    } else {
      var here := dir + [parts[0]];
      assert here + parts[1..] == dir + parts;
      assert PlainPart(fs, dir + parts, |dir|) && (dir + parts)[..|dir| + 1] == here;
      assert TWO !in here by {
        assert forall p :: p in here ==> p in dir + parts;
      }
      WalkPlain(fs, max, here, parts[1..]);
    }
  }

  function Join(parts: seq<string>): string {
    if parts == [] then "" else parts[0] + "/" + Join(parts[1..])
  }

  lemma {:induction false} ComponentsOfJoin(parts: seq<string>)
    requires forall p :: p in parts ==> IsName(p)
    ensures Components(Join(parts)) == parts
  {
    if parts != [] {
      var n := |parts[0]|;
      ComponentsOfJoin(parts[1..]);
      assert parts[0] in parts;
      JoinParts(parts[0], Join(parts[1..]));
      FirstLengthIs(Join(parts), n);
    }
  }

  lemma JoinParts(first: string, rest: string)
    requires IsName(first)
    ensures var path := first + "/" + rest;
            path[..|first|] == first && path[|first|] == '/' && path[|first| + 1..] == rest
  {
  }

  lemma {:induction false} FirstLengthIs(path: string, n: nat)
    requires n < |path| && path[n] == '/' && '/' !in path[..n]
    ensures FirstLength(path) == n
  {
    if n > 0 {
      assert path[..n][0] == path[0];
      assert path[1..][..n - 1] == path[..n][1..];
      FirstLengthIs(path[1..], n - 1);
    }
  }

  // --- Staying inside the root --------------------------------------------------------------------------

  /** A directory tree: nothing lies below a link. */
  ghost predicate Tree(fs: Files) {
    && !LinkAt(fs, [])
    && forall place :: place in fs && place.Inside? ==>
      (forall p :: p in place.parts ==> IsName(p) && p != UP)
      && forall k :: 0 <= k < |place.parts| ==> !LinkAt(fs, place.parts[..k])
  }

  ghost predicate LinkAt(fs: Files, parts: seq<string>) { Inside(parts) in fs && fs[Inside(parts)].Link? }

  /** A link in the guest tree whose target starts with exactly two slashes. */
  ghost predicate TwoSlashLink(fs: Files, parts: seq<string>) {
    LinkAt(fs, parts) && HasTwoSlashes(fs[Inside(parts)].target)
  }

  lemma {:induction false} EnterStays(fs: Files, max: nat, w: Walker, part: string)
    requires w.going && w.links <= max && TWO !in w.dir && !w.strayed && IsName(part)
    requires forall parts :: !TwoSlashLink(fs, parts)
    ensures var r := Enter(fs, max, w, part); TWO !in r.dir && !r.strayed
    decreases max - w.links, 0
  {
    var here := w.dir + [part];
    TwoIsNoName();
    if part != UP && IsLink(fs, here) && w.links < max {
      assert LinkAt(fs, here) && !TwoSlashLink(fs, here);
      var target := fs[Locate(here)].target;
      WalkStays(fs, max, Follow(Look(w, part), target), PathParts(target));
    }
  }

  lemma {:induction false} WalkStays(fs: Files, max: nat, w: Walker, parts: seq<string>)
    requires w.links <= max && TWO !in w.dir && !w.strayed
    requires forall p :: p in parts ==> IsName(p)
    requires forall parts :: !TwoSlashLink(fs, parts)
    ensures var r := Walk(fs, max, w, parts); TWO !in r.dir && !r.strayed
    decreases max - w.links, |parts|
  {
    if parts != [] && w.going {
      EnterStays(fs, max, w, parts[0]);
      WalkStays(fs, max, Enter(fs, max, w, parts[0]), parts[1..]);
    }
  }

  ghost predicate Stays(fs: Files, max: nat, guest: string) { !Walk(fs, max, START, Components(guest)).strayed }

  /** No guest path makes the resolver look outside the root exactly when no link of the guest tree
      has a target that starts with two slashes and no third. */
  lemma StaysInsideExactly(fs: Files, max: nat)
    requires Tree(fs) && max > 0
    ensures (forall guest :: Stays(fs, max, guest)) <==> (forall parts :: !TwoSlashLink(fs, parts))
  {
    if forall parts :: !TwoSlashLink(fs, parts) {
      forall guest ensures Stays(fs, max, guest) {
        WalkStays(fs, max, START, Components(guest));
      }
    } else {
      var parts :| TwoSlashLink(fs, parts);
      ComponentsOfJoin(parts);
      TwoSlashLinkStrays(fs, max, parts);
      assert !Stays(fs, max, Join(parts));
    }
  }

  lemma TwoSlashLinkStrays(fs: Files, max: nat, parts: seq<string>)
    requires Tree(fs) && max > 0 && TwoSlashLink(fs, parts)
    ensures Walk(fs, max, START, parts).strayed
  {
    assert Inside(parts) in fs && parts != [];
    var n := |parts| - 1;
    var dir, part := parts[..n], parts[n];
    assert parts == dir + [part] && part in parts;
    PlainDirectory(fs, parts, n);
    assert [] + dir == dir;
    WalkPlain(fs, max, [], dir);
    WalkAppend(fs, max, START, dir, [part]);
    TreePlaces(fs, parts);
    FollowTwoSlashes(fs, max, START.(dir := dir), part);
  }

  lemma TreePlaces(fs: Files, parts: seq<string>)
    requires Tree(fs) && Inside(parts) in fs
    ensures TWO !in parts && Locate(parts) == Inside(parts)
  {
    TwoIsNoName();
  }

  lemma TwoIsNoName()
    ensures !IsName(TWO)
  {
    assert TWO[0] == '/';
  }

  lemma PlainDirectory(fs: Files, parts: seq<string>, n: nat)
    requires Tree(fs) && Inside(parts) in fs && n < |parts|
    ensures Clean(fs, parts[..n]) && TWO !in parts[..n]
  {
    TreePlaces(fs, parts);
    var dir := parts[..n];
    forall k | 0 <= k < n ensures PlainPart(fs, dir, k) {
      assert dir[k] == parts[k] && dir[k] in parts;
      assert dir[..k + 1] == parts[..k + 1];
      assert TWO !in parts[..k + 1];
      assert !LinkAt(fs, parts[..k + 1]);
    }
  }

  lemma FollowTwoSlashes(fs: Files, max: nat, w: Walker, part: string)
    requires w.going && w.links < max && part != UP && IsLink(fs, w.dir + [part])
    requires HasTwoSlashes(fs[Locate(w.dir + [part])].target)
    ensures Walk(fs, max, w, [part]).strayed
  {
    var here := w.dir + [part];
    var target := fs[Locate(here)].target;
    var top := Follow(Look(w, part), target);
    assert PathParts(target)[0] == TWO;
    assert [] + [TWO] == [TWO];
    EnterTwo(fs, max, top);
    StrayedStays(fs, max, Enter(fs, max, top, TWO), PathParts(target)[1..]);
    assert Walk(fs, max, top, PathParts(target)).strayed;
    assert Enter(fs, max, w, part) == Walk(fs, max, top, PathParts(target));
    assert [part][1..] == [];
  }

  lemma EnterTwo(fs: Files, max: nat, w: Walker)
    requires w.going && w.links <= max && w.dir == []
    ensures Enter(fs, max, w, TWO).strayed
  {
    assert [] + [TWO] == [TWO];
    if IsLink(fs, [TWO]) && w.links < max {
      var target := fs[Locate([TWO])].target;
      assert Look(w, TWO).strayed;
      StrayedStays(fs, max, Follow(Look(w, TWO), target), PathParts(target));
    }
  }

  lemma {:induction false} StrayedStays(fs: Files, max: nat, w: Walker, parts: seq<string>)
    requires w.links <= max && w.strayed
    ensures Walk(fs, max, w, parts).strayed
    decreases max - w.links, |parts|
  {
    if parts != [] && w.going {
      StrayedEnters(fs, max, w, parts[0]);
      StrayedStays(fs, max, Enter(fs, max, w, parts[0]), parts[1..]);
    }
  }

  lemma {:induction false} StrayedEnters(fs: Files, max: nat, w: Walker, part: string)
    requires w.going && w.links <= max && w.strayed
    ensures Enter(fs, max, w, part).strayed
    decreases max - w.links, 0
  {
    var here := w.dir + [part];
    if part != UP && IsLink(fs, here) && w.links < max {
      var target := fs[Locate(here)].target;
      StrayedStays(fs, max, Follow(Look(w, part), target), PathParts(target));
    }
  }

  lemma OneName(name: string)
    requires IsName(name)
    ensures Components(name) == [name]
  {
    NoSlash(name);
    assert name[..|name|] == name;
  }

  lemma {:induction false} NoSlash(name: string)
    requires '/' !in name
    ensures FirstLength(name) == |name|
  {
    if name != "" {
      NoSlash(name[1..]);
    }
  }

  lemma PlainEnter(fs: Files, max: nat, w: Walker, part: string)
    requires w.going && w.links <= max && part != UP && !IsLink(fs, w.dir + [part])
    ensures Walk(fs, max, w, [part]) == w.(dir := w.dir + [part], strayed := w.strayed || TWO in w.dir + [part])
  {
    assert [part][1..] == [];
  }

  lemma EscapeSteps(fs: Files, max: nat, link: string, name: string)
    requires max > 0 && link != UP && name != UP && IsLink(fs, [link]) && Locate([link]).Inside?
    requires var target := fs[Locate([link])].target; IsAbsolute(target) && PathParts(target) == [TWO, name]
    requires !IsLink(fs, [TWO]) && !IsLink(fs, [TWO] + [name])
    ensures Walk(fs, max, START, [link]) == Walker([TWO] + [name], 1, true, true)
  {
    var top := Walker([], 1, true, false);
    assert [] + [link] == [link] && [] + [TWO] == [TWO] && [TWO] + [name] == [TWO, name];
    PlainEnter(fs, max, top, TWO);
    PlainEnter(fs, max, Walker([TWO], 1, true, true), name);
    WalkAppend(fs, max, top, [TWO], [name]);
    assert Enter(fs, max, START, link) == Walk(fs, max, top, [TWO, name]);
    assert [link][1..] == [];
  }

  lemma TwoSlashParts(name: string)
    requires IsName(name)
    ensures PathParts("//" + name) == [TWO, name]
  {
    OneName(name);
    var path := "//" + name;
    assert path[1..] == "/" + name && path[2..] == name && path[1..][1..] == name;
    assert path[2] != '/' by {
      assert name[0] in name;
    }
    assert Components(path[1..]) == [name];
    assert Components(path) == [name];
  }

  lemma LocatedNames(a: string, b: string)
    requires IsName(a) && IsName(b)
    ensures Locate([a]) == Inside([a]) && Locate([TWO]) == Outside([]) && Locate([TWO] + [b]) == Outside([b])
  {
    TwoIsNoName();
    assert [a][..0] == [] && ([TWO] + [b])[..1] == [TWO];
    assert [] + [a] == [a] && [] + [b] == [b];
  }

  /** Such a link leads to a file of the host. */
  lemma TwoSlashLinkEscapes(link: string, name: string, fs: Files)
    requires IsName(link) && IsName(name) && link != UP && name != UP
    requires fs == map[Inside([link]) := Link("//" + name), Outside([name]) := File]
    ensures Tree(fs) && Resolve(fs, 40, link) == Some(Outside([name]))
  {
    OneName(link);
    TwoSlashParts(name);
    LocatedNames(link, name);
    EscapeSteps(fs, 40, link, name);
  }
}
