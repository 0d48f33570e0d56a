/** Root control of an installed path through every symbolic link, and of a whole runtime tree
    (geniusnew/worker_service.py:394-447), against pathname resolution as section 4.13 of
    POSIX.1-2017 Base Definitions has it. */
module RuntimePath {
  import opened Prelude

  type Name = string
  /** A physical path: a chain of directories, no links among them. */
  type Place = seq<Name>

  datatype Part = Here | Up | Down(name: Name)

  /** A pathname, as an argument or in a link; an absolute one lists what follows the root. */
  datatype Pathname = Pathname(absolute: bool, parts: seq<Part>)

  /** `writable` means by group or others. */
  datatype Node =
    | Link(rootOwned: bool, target: Pathname)
    | Directory(rootOwned: bool, writable: bool, entries: seq<Name>)
    | File(rootOwned: bool, writable: bool)
    | Special(rootOwned: bool, writable: bool)

  type FileSystem = map<Place, Node>

  const ROOT: Place := []
  const MAX_LINKS := 40

  predicate Mounted(fs: FileSystem) { ROOT in fs && fs[ROOT].Directory? }

  predicate IsDirectory(fs: FileSystem, p: Place) { p in fs && fs[p].Directory? }

  function Move(at: Place, part: Part): Place {
    match part
    case Here => at
    case Up => if at == [] then [] else at[..|at| - 1]
    case Down(name) => at + [name]
  }

  /** What a link puts in front of the rest of a path. */
  function PartsOf(target: Pathname): seq<Part> {
    if target.absolute then [Here] + target.parts else if target.parts == [] then [Here] else target.parts
  }

  // ---------------------------------------------------------------- resolution

  /** Where a path leads, every place looked at on the way, and the links still allowed. */
  datatype Resolved = Resolved(at: Place, seen: seq<Place>, left: nat)

  function After(r: Resolved, seen: seq<Place>): Resolved { Resolved(r.at, seen + r.seen, r.left) }

  /** A link is resolved as a path of its own, from where it stands or from the root, and the rest
      continues from where it led. `None` is a missing component, a non-directory in the middle,
      or too many links. */
  function Resolve(fs: FileSystem, at: Place, parts: seq<Part>, budget: nat): (r: Option<Resolved>)
    ensures r.Some? ==> r.value.left <= budget
    decreases budget, |parts|
  {
    if parts == [] then Some(Resolved(at, [], budget))
    else
      var next := Move(at, parts[0]);
      if !IsDirectory(fs, at) || next !in fs then None
      else if !fs[next].Link? then
        match Resolve(fs, next, parts[1..], budget)
        case None => None
        case Some(r) => Some(After(r, [next]))
      else if budget == 0 then None
      else
        var target := fs[next].target;
        match Resolve(fs, if target.absolute then ROOT else at, PartsOf(target), budget - 1)
        case None => None
        case Some(r) =>
          match Resolve(fs, r.at, parts[1..], r.left)
          case None => None
          case Some(q) => Some(After(q, [next] + r.seen))
  }

  function Then(fs: FileSystem, r: Option<Resolved>, parts: seq<Part>): Option<Resolved> {
    match r
    case None => None
    case Some(first) =>
      match Resolve(fs, first.at, parts, first.left)
      case None => None
      case Some(second) => Some(After(second, first.seen))
  }

  /** Resolving a path is resolving its front and then its rest, links and all. */
  lemma {:induction false} ResolveConcat(fs: FileSystem, at: Place, a: seq<Part>, b: seq<Part>, budget: nat)
    ensures Resolve(fs, at, a + b, budget) == Then(fs, Resolve(fs, at, a, budget), b)
    decreases budget, |a|
  {
    if a == [] {
      assert a + b == b;
      NothingBefore(fs, Resolve(fs, at, b, budget));
    } else {
      assert (a + b)[0] == a[0] && (a + b)[1..] == a[1..] + b;
      var next := Move(at, a[0]);
      if IsDirectory(fs, at) && next in fs {
        if !fs[next].Link? {
          ResolveConcat(fs, next, a[1..], b, budget);
          Associates(fs, Resolve(fs, next, a[1..], budget), b, [next]);
        } else if budget > 0 {
          var target := fs[next].target;
          var r := Resolve(fs, if target.absolute then ROOT else at, PartsOf(target), budget - 1);
          if r.Some? {
            ResolveConcat(fs, r.value.at, a[1..], b, r.value.left);
            Associates(fs, Resolve(fs, r.value.at, a[1..], r.value.left), b, [next] + r.value.seen);
          }
        }
      }
    }
  }

  lemma NothingBefore(fs: FileSystem, r: Option<Resolved>)
    ensures r.Some? ==> After(r.value, []) == r.value
  {
    if r.Some? {
      assert [] + r.value.seen == r.value.seen;
    }
  }

  function Shown(r: Option<Resolved>, seen: seq<Place>): Option<Resolved> {
    if r.None? then None else Some(After(r.value, seen))
  }

  lemma Associates(fs: FileSystem, r: Option<Resolved>, b: seq<Part>, seen: seq<Place>)
    ensures Then(fs, Shown(r, seen), b) == Shown(Then(fs, r, b), seen)
  {
    if r.Some? {
      var second := Resolve(fs, r.value.at, b, r.value.left);
      if second.Some? {
        assert (seen + r.value.seen) + second.value.seen == seen + (r.value.seen + second.value.seen);
      }
    }
  }

  /** More links allowed lead to the same place. */
  lemma {:induction false} BudgetIrrelevant(fs: FileSystem, at: Place, parts: seq<Part>, budget: nat, more: nat)
    requires Resolve(fs, at, parts, budget).Some? && budget <= more
    ensures var r, q := Resolve(fs, at, parts, budget).value, Resolve(fs, at, parts, more);
            q.Some? && q.value.at == r.at && q.value.seen == r.seen && q.value.left == r.left + (more - budget)
    decreases budget, |parts|
  {
    if parts != [] {
      var next := Move(at, parts[0]);
      if !fs[next].Link? {
        BudgetIrrelevant(fs, next, parts[1..], budget, more);
      } else {
        var target := fs[next].target;
        var from := if target.absolute then ROOT else at;
        BudgetIrrelevant(fs, from, PartsOf(target), budget - 1, more - 1);
        var r := Resolve(fs, from, PartsOf(target), budget - 1).value;
        BudgetIrrelevant(fs, r.at, parts[1..], r.left, r.left + (more - budget));
      }
    }
  }

  // ---------------------------------------------------------------- root control of one path

  /** Owned by root, and unless it is a link, writable by root alone. */
  predicate Safe(fs: FileSystem, p: Place) {
    p in fs && fs[p].rootOwned && (fs[p].Link? || !fs[p].writable)
  }

  predicate RightKind(fs: FileSystem, p: Place, regular: bool) {
    p in fs && (if regular then fs[p].File? else fs[p].Directory?)
  }

  predicate SeenSafe(fs: FileSystem, seen: seq<Place>) {
    forall i :: 0 <= i < |seen| ==> Safe(fs, seen[i])
  }

  predicate ControlledFrom(fs: FileSystem, at: Place, parts: seq<Part>, budget: nat, regular: bool) {
    var r := Resolve(fs, at, parts, budget);
    r.Some? && SeenSafe(fs, r.value.seen) && RightKind(fs, r.value.at, regular)
  }

  /** Every place that resolving the path looks at, through every link, is safe, and it leads to
      the kind of file wanted. */
  predicate Controlled(fs: FileSystem, path: Pathname, regular: bool) {
    path.absolute && ControlledFrom(fs, ROOT, [Here] + path.parts, MAX_LINKS, regular)
  }

  /** One component of a path. */
  lemma ControlledStep(fs: FileSystem, at: Place, parts: seq<Part>, budget: nat, regular: bool)
    requires parts != [] && IsDirectory(fs, at)
    ensures var next := Move(at, parts[0]);
            ControlledFrom(fs, at, parts, budget, regular) <==>
            && next in fs && Safe(fs, next)
            && if !fs[next].Link? then ControlledFrom(fs, next, parts[1..], budget, regular)
               else budget > 0 && ControlledFrom(fs, if fs[next].target.absolute then ROOT else at,
                                                 PartsOf(fs[next].target) + parts[1..], budget - 1, regular)
  {
    var next := Move(at, parts[0]);
    if next in fs {
      if !fs[next].Link? {
        SafeBefore(fs, next, Resolve(fs, next, parts[1..], budget));
      } else if budget > 0 {
        var target := fs[next].target;
        var from := if target.absolute then ROOT else at;
        ResolveConcat(fs, from, PartsOf(target), parts[1..], budget - 1);
        LinkFirst(fs, at, parts, budget);
        SafeBefore(fs, next, Resolve(fs, from, PartsOf(target) + parts[1..], budget - 1));
      }
    }
  }

  lemma LinkFirst(fs: FileSystem, at: Place, parts: seq<Part>, budget: nat)
    requires parts != [] && IsDirectory(fs, at) && budget > 0
    requires Move(at, parts[0]) in fs && fs[Move(at, parts[0])].Link?
    ensures var next := Move(at, parts[0]);
            var target := fs[next].target;
            Resolve(fs, at, parts, budget) ==
            Shown(Then(fs, Resolve(fs, if target.absolute then ROOT else at, PartsOf(target), budget - 1), parts[1..]), [next])
  {
    var next := Move(at, parts[0]);
    var target := fs[next].target;
    var r := Resolve(fs, if target.absolute then ROOT else at, PartsOf(target), budget - 1);
    Associates(fs, r, parts[1..], [next]);
  }

  lemma SafeTogether(fs: FileSystem, a: seq<Place>, b: seq<Place>)
    ensures SeenSafe(fs, a + b) <==> SeenSafe(fs, a) && SeenSafe(fs, b)
  {
    assert forall i :: 0 <= i < |b| ==> b[i] == (a + b)[|a| + i];
    assert forall i :: 0 <= i < |a| ==> a[i] == (a + b)[i];
  }

  lemma SafeBefore(fs: FileSystem, place: Place, r: Option<Resolved>)
    ensures r.Some? ==> (SeenSafe(fs, After(r.value, [place]).seen) <==> Safe(fs, place) && SeenSafe(fs, r.value.seen))
  {
    if r.Some? {
      SafeTogether(fs, [place], r.value.seen);
      assert Safe(fs, [place][0]) == Safe(fs, place);
    }
  }

  lemma ControlledMeans(fs: FileSystem, path: Pathname, regular: bool)
    ensures Controlled(fs, path, regular) <==>
            && path.absolute
            && var r := Resolve(fs, [], [Here] + path.parts, 40);
            && r.Some?
            && (forall p :: p in r.value.seen ==> p in fs && fs[p].rootOwned && (fs[p].Link? || !fs[p].writable))
            && r.value.at in fs && (if regular then fs[r.value.at].File? else fs[r.value.at].Directory?)
  {
    hide Resolve;
    if Controlled(fs, path, regular) {
      var seen := Resolve(fs, ROOT, [Here] + path.parts, MAX_LINKS).value.seen;
      forall p | p in seen
        ensures Safe(fs, p)
      {
        var i :| 0 <= i < |seen| && seen[i] == p;
      }
    }
  }

  /** `_root_controlled`: one queue of components, link targets put in front of it. */
  method RootControlled(fs: FileSystem, path: Pathname, regular: bool) returns (ok: bool)
    requires Mounted(fs)
    ensures ok <==> Controlled(fs, path, regular)
    ensures ok <==>
            && path.absolute
            && var r := Resolve(fs, [], [Here] + path.parts, 40);
            && r.Some?
            && (forall p :: p in r.value.seen ==> p in fs && fs[p].rootOwned && (fs[p].Link? || !fs[p].writable))
            && r.value.at in fs && (if regular then fs[r.value.at].File? else fs[r.value.at].Directory?)
  {
    hide Resolve;
    ControlledMeans(fs, path, regular);
    if !path.absolute {
      return false;
    }
    var current := ROOT;
    var pending := [Here] + path.parts;
    var links := 0;
    while pending != []
      invariant links <= MAX_LINKS
      invariant if pending == [] then RightKind(fs, current, regular) else IsDirectory(fs, current)
      invariant Controlled(fs, path, regular) <==> ControlledFrom(fs, current, pending, MAX_LINKS - links, regular)
      decreases MAX_LINKS - links, |pending|
    {
      ControlledStep(fs, current, pending, MAX_LINKS - links, regular);
      var part := pending[0];
      pending := pending[1..];
      var candidate := Move(current, part);
      if candidate !in fs {
        return false;
      }
      var info := fs[candidate];
      var expected := if pending != [] || !regular then info.Directory? else info.File?;
      if !info.rootOwned || (!info.Link? && info.writable) || !(info.Link? || expected) {
        Misplaced(fs, candidate, pending, MAX_LINKS - links, regular);
        return false;
      }
      if info.Link? {
        links := links + 1;
        if links > MAX_LINKS {
          return false;
        }
        current := if info.target.absolute then ROOT else current;
        pending := PartsOf(info.target) + pending;
      } else {
        current := candidate;
      }
    }
    Arrived(fs, current, MAX_LINKS - links, regular);
    return true;
  }

  /** A non-directory with components to go, or the wrong kind at the end. */
  lemma Misplaced(fs: FileSystem, at: Place, rest: seq<Part>, budget: nat, regular: bool)
    ensures at in fs && !(if rest != [] || !regular then fs[at].Directory? else fs[at].File?) ==>
              !ControlledFrom(fs, at, rest, budget, regular)
  {
  }

  lemma Arrived(fs: FileSystem, at: Place, budget: nat, regular: bool)
    ensures ControlledFrom(fs, at, [], budget, regular) <==> RightKind(fs, at, regular)
  {
  }

  // ---------------------------------------------------------------- the whole tree

  /** `stat`: the place a path leads to through its links. */
  function Stat(fs: FileSystem, path: Pathname): Option<Place> {
    if !path.absolute then None
    else match Resolve(fs, ROOT, [Here] + path.parts, MAX_LINKS)
    case None => None
    case Some(r) => if r.at in fs then Some(r.at) else None
  }

  function Inside(path: Pathname, name: Name): Pathname { path.(parts := path.parts + [Down(name)]) }

  /** The path reached from `path` by these entry names. */
  function Under(path: Pathname, names: seq<Name>): Pathname {
    if names == [] then path else Inside(Under(path, names[..|names| - 1]), names[|names| - 1])
  }

  /** Every name is an entry of the directory the names before it lead to. */
  predicate Reachable(fs: FileSystem, path: Pathname, names: seq<Name>) {
    names == []
    || (var before := names[..|names| - 1];
        && Reachable(fs, path, before)
        && Stat(fs, Under(path, before)).Some?
        && var p := Stat(fs, Under(path, before)).value;
           fs[p].Directory? && names[|names| - 1] in fs[p].entries)
  }

  predicate Checked(fs: FileSystem, path: Pathname) {
    Stat(fs, path).Some? && Controlled(fs, path, !fs[Stat(fs, path).value].Directory?)
  }

  /** The same, however many links that takes. */
  predicate CheckedWithin(fs: FileSystem, path: Pathname, links: nat) {
    && path.absolute
    && var r := Resolve(fs, ROOT, [Here] + path.parts, links);
    && r.Some? && r.value.at in fs
    && ControlledFrom(fs, ROOT, [Here] + path.parts, links, !fs[r.value.at].Directory?)
  }

  ghost predicate CheckedThrough(fs: FileSystem, path: Pathname) { exists links :: CheckedWithin(fs, path, links) }

  /** An entry looked up in the same directory is the same entry, whatever path led there. */
  lemma SameEntry(fs: FileSystem, a: Pathname, b: Pathname, name: Name)
    requires Stat(fs, a).Some? && Stat(fs, b) == Stat(fs, a)
    requires Stat(fs, Inside(a, name)).Some? && Stat(fs, Inside(b, name)).Some?
    ensures Stat(fs, Inside(a, name)) == Stat(fs, Inside(b, name))
  {
    hide Resolve;
    var place := Stat(fs, a).value;
    EntryOf(fs, a, name);
    EntryOf(fs, b, name);
    var ra := Resolve(fs, ROOT, [Here] + a.parts, MAX_LINKS).value;
    var rb := Resolve(fs, ROOT, [Here] + b.parts, MAX_LINKS).value;
    BudgetIrrelevant(fs, place, [Down(name)], Min(ra.left, rb.left), ra.left);
    BudgetIrrelevant(fs, place, [Down(name)], Min(ra.left, rb.left), rb.left);
  }

  lemma EntryOf(fs: FileSystem, a: Pathname, name: Name)
    requires Stat(fs, a).Some? && Stat(fs, Inside(a, name)).Some?
    ensures var r := Resolve(fs, ROOT, [Here] + a.parts, MAX_LINKS).value;
            var q := Resolve(fs, r.at, [Down(name)], r.left);
            q.Some? && Stat(fs, Inside(a, name)) == Some(q.value.at)
            && Resolve(fs, ROOT, [Here] + Inside(a, name).parts, MAX_LINKS) == Some(After(q.value, r.seen))
  {
    hide Resolve;
    assert [Here] + (a.parts + [Down(name)]) == ([Here] + a.parts) + [Down(name)];
    ResolveConcat(fs, ROOT, [Here] + a.parts, [Down(name)], MAX_LINKS);
  }

  function Children(path: Pathname, names: seq<Name>): (r: seq<Pathname>)
    ensures |r| == |names| && forall i :: 0 <= i < |names| ==> r[i] == Inside(path, names[i])
  {
    seq(|names|, i requires 0 <= i < |names| => Inside(path, names[i]))
  }

  function Directories(fs: FileSystem): set<Place> { set p | p in fs && fs[p].Directory? }

  /** How far a traversal got: `rep` is the path by which a seen directory was first entered, `way`
      the names that lead to each path ever queued. */
  ghost predicate Progress(fs: FileSystem, path: Pathname, pending: seq<Pathname>, done: set<Pathname>,
                           rep: map<Place, Pathname>, way: map<Pathname, seq<Name>>) {
    && (path in done || path in pending)
    && (forall d :: d in done ==> Checked(fs, d) && (fs[Stat(fs, d).value].Directory? ==> Stat(fs, d).value in rep))
    && (forall p :: p in rep ==> rep[p] in done && Stat(fs, rep[p]) == Some(p) && p in Directories(fs))
    && (forall p, name :: p in rep && name in fs[p].entries ==> Inside(rep[p], name) in done || Inside(rep[p], name) in pending)
    && (forall q :: q in pending ==> q in way && Reachable(fs, path, way[q]) && q == Under(path, way[q]))
  }

  function NameOf(path: Pathname): Name {
    if path.parts != [] && path.parts[|path.parts| - 1].Down? then path.parts[|path.parts| - 1].name else ""
  }

  ghost function Ways(way: map<Pathname, seq<Name>>, current: Pathname, names: seq<Name>): map<Pathname, seq<Name>>
    requires current in way
  {
    way + map q | q in Children(current, names) :: way[current] + [NameOf(q)]
  }

  lemma StartsAtPath(fs: FileSystem, path: Pathname)
    ensures Progress(fs, path, [path], {}, map[], map[path := []])
  {
  }

  lemma Queued(fs: FileSystem, path: Pathname, pending: seq<Pathname>, done: set<Pathname>, rep: map<Place, Pathname>,
               way: map<Pathname, seq<Name>>)
    requires Progress(fs, path, pending, done, rep, way) && pending != []
    ensures var current := pending[|pending| - 1];
            current in way && Reachable(fs, path, way[current]) && current == Under(path, way[current])
  {
  }

  lemma StatIsKnown(fs: FileSystem, path: Pathname)
    ensures Stat(fs, path).Some? ==> Stat(fs, path).value in fs
  {
  }

  lemma CheckedMeans(fs: FileSystem, path: Pathname)
    requires Stat(fs, path).Some? ==> Stat(fs, path).value in fs
    ensures Checked(fs, path) <==> Stat(fs, path).Some? && Controlled(fs, path, !fs[Stat(fs, path).value].Directory?)
  {
  }

  lemma StepOver(fs: FileSystem, path: Pathname, pending: seq<Pathname>, done: set<Pathname>, rep: map<Place, Pathname>,
                 way: map<Pathname, seq<Name>>)
    requires Progress(fs, path, pending, done, rep, way) && pending != []
    requires var current := pending[|pending| - 1];
             Checked(fs, current) && (fs[Stat(fs, current).value].Directory? ==> Stat(fs, current).value in rep)
    ensures Progress(fs, path, pending[..|pending| - 1], done + {pending[|pending| - 1]}, rep, way)
  {
    hide Stat, Controlled, Reachable, Under;
    var n := |pending| - 1;
    assert forall q :: q in pending ==> q in pending[..n] || q == pending[n];
  }

  lemma ChildReached(fs: FileSystem, path: Pathname, current: Pathname, names: seq<Name>, name: Name)
    requires Reachable(fs, path, names) && current == Under(path, names) && Stat(fs, current).Some?
    requires fs[Stat(fs, current).value].Directory? && name in fs[Stat(fs, current).value].entries
    ensures Reachable(fs, path, names + [name]) && Under(path, names + [name]) == Inside(current, name)
  {
    hide Stat;
    assert (names + [name])[..|names|] == names;
  }

  lemma StepInto(fs: FileSystem, path: Pathname, pending: seq<Pathname>, done: set<Pathname>, rep: map<Place, Pathname>,
                 way: map<Pathname, seq<Name>>)
    requires Progress(fs, path, pending, done, rep, way) && pending != []
    requires Checked(fs, pending[|pending| - 1]) && fs[Stat(fs, pending[|pending| - 1]).value].Directory?
    requires Stat(fs, pending[|pending| - 1]).value !in rep && pending[|pending| - 1] in way
    ensures var n := |pending| - 1;
            var current := pending[n];
            var place := Stat(fs, current).value;
            Progress(fs, path, pending[..n] + Children(current, fs[place].entries), done + {current}, rep[place := current],
                     Ways(way, current, fs[place].entries))
  {
    hide Stat, Controlled, Reachable, Under, Ways;
    var n := |pending| - 1;
    var current := pending[n];
    StatIsKnown(fs, current);
    var place := Stat(fs, current).value;
    var names := fs[place].entries;
    var children := Children(current, names);
    assert forall q :: q in pending ==> q in pending[..n] + children || q == current;
    forall name | name in names
      ensures Inside(current, name) in pending[..n] + children
    {
      ChildQueued(current, names, name);
    }
    forall q | q in pending[..n] + children
      ensures var way' := Ways(way, current, names);
              q in way' && Reachable(fs, path, way'[q]) && q == Under(path, way'[q])
    {
      WaysReach(fs, path, current, way, q);
    }
  }

  lemma ChildQueued(current: Pathname, names: seq<Name>, name: Name)
    requires name in names
    ensures Inside(current, name) in Children(current, names)
  {
    var i :| 0 <= i < |names| && names[i] == name;
    assert Children(current, names)[i] == Inside(current, name);
  }

  lemma WaysReach(fs: FileSystem, path: Pathname, current: Pathname, way: map<Pathname, seq<Name>>, q: Pathname)
    requires current in way && Reachable(fs, path, way[current]) && current == Under(path, way[current])
    requires Stat(fs, current).Some? && fs[Stat(fs, current).value].Directory?
    requires q in Children(current, fs[Stat(fs, current).value].entries)
             || (q in way && Reachable(fs, path, way[q]) && q == Under(path, way[q]))
    ensures var way' := Ways(way, current, fs[Stat(fs, current).value].entries);
            q in way' && Reachable(fs, path, way'[q]) && q == Under(path, way'[q])
  {
    hide Stat, Reachable, Under;
    StatIsKnown(fs, current);
    if q in Children(current, fs[Stat(fs, current).value].entries) {
      ChildReached(fs, path, current, way[current], NameOf(q));
    }
  }

  // ---------------------------------------------------------------- what a finished traversal has shown

  predicate IsEntry(fs: FileSystem, p: Place, name: Name) { IsDirectory(fs, p) && name in fs[p].entries }

  /** Safe, and with it every entry when it is a directory. */
  predicate PlaceSafe(fs: FileSystem, p: Place) {
    Safe(fs, p) && (fs[p].Directory? ==> forall name :: name in fs[p].entries ==> Safe(fs, p + [name]))
  }

  lemma EntryOfSafe(fs: FileSystem, p: Place, name: Name)
    requires PlaceSafe(fs, p) && IsEntry(fs, p, name)
    ensures p + [name] in fs && fs[p + [name]].rootOwned && (fs[p + [name]].Link? || !fs[p + [name]].writable)
  {
    assert Safe(fs, p + [name]);
  }

  lemma {:induction false} EndIsSeen(fs: FileSystem, at: Place, parts: seq<Part>, budget: nat)
    requires parts != [] && Resolve(fs, at, parts, budget).Some?
    ensures Resolve(fs, at, parts, budget).value.at in Resolve(fs, at, parts, budget).value.seen
    decreases budget, |parts|
  {
    var next := Move(at, parts[0]);
    if !fs[next].Link? {
      if |parts| > 1 {
        EndIsSeen(fs, next, parts[1..], budget);
      }
    } else {
      var target := fs[next].target;
      var r := Resolve(fs, if target.absolute then ROOT else at, PartsOf(target), budget - 1).value;
      if |parts| > 1 {
        EndIsSeen(fs, r.at, parts[1..], r.left);
      } else {
        EndIsSeen(fs, if target.absolute then ROOT else at, PartsOf(target), budget - 1);
      }
    }
  }

  lemma CheckedIsSafe(fs: FileSystem, d: Pathname)
    requires Checked(fs, d)
    ensures Safe(fs, Stat(fs, d).value)
  {
    hide Resolve;
    EndIsSeen(fs, ROOT, [Here] + d.parts, MAX_LINKS);
  }

  lemma EntrySafe(fs: FileSystem, d: Pathname, name: Name)
    requires Stat(fs, d).Some? && Checked(fs, Inside(d, name))
    ensures Safe(fs, Stat(fs, d).value + [name])
  {
    hide Resolve;
    EntryOf(fs, d, name);
    var r := Resolve(fs, ROOT, [Here] + d.parts, MAX_LINKS).value;
    var q := Resolve(fs, r.at, [Down(name)], r.left).value;
    FirstSeen(fs, r.at, name, r.left);
    var all := Resolve(fs, ROOT, [Here] + Inside(d, name).parts, MAX_LINKS).value.seen;
    assert all[|r.seen|] == q.seen[0];
  }

  lemma FirstSeen(fs: FileSystem, at: Place, name: Name, budget: nat)
    requires Resolve(fs, at, [Down(name)], budget).Some?
    ensures var seen := Resolve(fs, at, [Down(name)], budget).value.seen; seen != [] && seen[0] == at + [name]
  {
  }

  /** Whatever path reaches a place, the traversal checked a path that leads there. */
  lemma {:induction false} Covered(fs: FileSystem, path: Pathname, done: set<Pathname>, rep: map<Place, Pathname>,
                                   way: map<Pathname, seq<Name>>, names: seq<Name>) returns (d: Pathname)
    requires Progress(fs, path, [], done, rep, way) && Reachable(fs, path, names) && Stat(fs, Under(path, names)).Some?
    ensures d in done && Stat(fs, d) == Stat(fs, Under(path, names))
    decreases |names|
  {
    hide Stat, Controlled;
    if names == [] {
      return path;
    }
    var before, name := names[..|names| - 1], names[|names| - 1];
    var d' := Covered(fs, path, done, rep, way, before);
    var p := Stat(fs, d').value;
    d := Inside(rep[p], name);
    assert Checked(fs, d);
    SameEntry(fs, rep[p], Under(path, before), name);
  }

  lemma AllSafe(fs: FileSystem, path: Pathname, done: set<Pathname>, rep: map<Place, Pathname>,
                way: map<Pathname, seq<Name>>, names: seq<Name>)
    requires Progress(fs, path, [], done, rep, way) && Reachable(fs, path, names) && Stat(fs, Under(path, names)).Some?
    ensures PlaceSafe(fs, Stat(fs, Under(path, names)).value)
  {
    hide Stat, Controlled, Under, Reachable, Safe;
    var d := Covered(fs, path, done, rep, way, names);
    CheckedIsSafe(fs, d);
    StatIsKnown(fs, d);
    var p := Stat(fs, d).value;
    if fs[p].Directory? {
      forall name | name in fs[p].entries
        ensures Safe(fs, p + [name])
      {
        EntrySafe(fs, rep[p], name);
      }
    }
  }

  // And every path there, link by link: what the traversal resolved by one path holds along any other.

  lemma MoreLinks(fs: FileSystem, path: Pathname, links: nat, more: nat)
    requires CheckedWithin(fs, path, links) && links <= more
    ensures CheckedWithin(fs, path, more)
    ensures var parts := [Here] + path.parts;
            Resolve(fs, ROOT, parts, more).value.at == Resolve(fs, ROOT, parts, links).value.at
            && Resolve(fs, ROOT, parts, more).value.left >= more - links
  {
    hide Resolve;
    BudgetIrrelevant(fs, ROOT, [Here] + path.parts, links, more);
  }

  lemma WithinForty(fs: FileSystem, path: Pathname, links: nat)
    requires CheckedWithin(fs, path, links) && Stat(fs, path).Some?
    ensures Checked(fs, path)
    ensures Resolve(fs, ROOT, [Here] + path.parts, links).value.at == Stat(fs, path).value
  {
    hide Resolve;
    var parts := [Here] + path.parts;
    BudgetIrrelevant(fs, ROOT, parts, Min(links, MAX_LINKS), Max(links, MAX_LINKS));
  }

  /** A checked entry of a directory stays checked when the directory is reached by another path. */
  lemma EntryAlong(fs: FileSystem, a: Pathname, b: Pathname, name: Name, links: nat)
    requires Stat(fs, a).Some? && Stat(fs, b) == Stat(fs, a)
    requires Checked(fs, Inside(a, name)) && CheckedWithin(fs, b, links)
    ensures CheckedWithin(fs, Inside(b, name), links + MAX_LINKS)
  {
    hide Resolve, SeenSafe;
    EntryOf(fs, a, name);
    WithinForty(fs, b, links);
    MoreLinks(fs, b, links, links + MAX_LINKS);
    var ra := Resolve(fs, ROOT, [Here] + a.parts, MAX_LINKS).value;
    var rb := Resolve(fs, ROOT, [Here] + b.parts, links + MAX_LINKS).value;
    var qa := Resolve(fs, ra.at, [Down(name)], ra.left).value;
    SafeTogether(fs, ra.seen, qa.seen);
    SafeTogether(fs, rb.seen, qa.seen);
    BudgetIrrelevant(fs, ra.at, [Down(name)], ra.left, rb.left);
    assert [Here] + (b.parts + [Down(name)]) == ([Here] + b.parts) + [Down(name)];
    ResolveConcat(fs, ROOT, [Here] + b.parts, [Down(name)], links + MAX_LINKS);
  }

  lemma {:induction false} AllChecked(fs: FileSystem, path: Pathname, done: set<Pathname>, rep: map<Place, Pathname>,
                                      way: map<Pathname, seq<Name>>, names: seq<Name>) returns (links: nat)
    requires Progress(fs, path, [], done, rep, way) && Reachable(fs, path, names)
    ensures CheckedWithin(fs, Under(path, names), links)
    decreases |names|
  {
    hide Stat, Controlled, ControlledFrom, CheckedWithin;
    if names == [] {
      links := MAX_LINKS;
      CheckedIsWithin(fs, path);
    } else {
      var before, name := names[..|names| - 1], names[|names| - 1];
      links := AllChecked(fs, path, done, rep, way, before);
      var d := Covered(fs, path, done, rep, way, before);
      var p := Stat(fs, d).value;
      assert Inside(rep[p], name) in done;
      EntryAlong(fs, rep[p], Under(path, before), name, links);
      links := links + MAX_LINKS;
    }
  }

  lemma CheckedIsWithin(fs: FileSystem, path: Pathname)
    requires Checked(fs, path)
    ensures CheckedWithin(fs, path, MAX_LINKS)
  {
    hide Resolve;
  }

  /** `_check_runtime_tree`: every directory is entered once, so links that cycle end too. */
  method CheckRuntimeTree(fs: FileSystem, path: Pathname) returns (ok: bool)
    requires Mounted(fs)
    ensures ok ==> forall names :: Reachable(fs, path, names) ==> CheckedThrough(fs, Under(path, names))
    ensures ok ==> forall names :: Reachable(fs, path, names) && Stat(fs, Under(path, names)).Some? ==>
                                     && Checked(fs, Under(path, names))
                                     && PlaceSafe(fs, Stat(fs, Under(path, names)).value)
    ensures ok ==> forall names, name :: Reachable(fs, path, names) && Stat(fs, Under(path, names)).Some?
                                         && IsEntry(fs, Stat(fs, Under(path, names)).value, name) ==>
                                           var entry := Stat(fs, Under(path, names)).value + [name];
                                           entry in fs && fs[entry].rootOwned && (fs[entry].Link? || !fs[entry].writable)
    ensures !ok ==> exists names :: Reachable(fs, path, names) && !Checked(fs, Under(path, names))
  {
    hide Stat, Checked, CheckedWithin, Under, Safe, PlaceSafe;
    var pending := [path];
    var seen: set<Place> := {};
    ghost var done: set<Pathname>, rep: map<Place, Pathname>, way: map<Pathname, seq<Name>> := {}, map[], map[path := []];
    StartsAtPath(fs, path);
    while pending != []
      invariant seen == rep.Keys && Progress(fs, path, pending, done, rep, way)
      decreases Directories(fs) - seen, |pending|
    {
      var current := pending[|pending| - 1];
      ghost var before := pending;
      pending := pending[..|pending| - 1];
      Queued(fs, path, before, done, rep, way);
      StatIsKnown(fs, current);
      CheckedMeans(fs, current);
      var info := Stat(fs, current);
      if info.None? {
        return false;
      }
      var directory := fs[info.value].Directory?;
      var controlled := RootControlled(fs, current, !directory);
      if !controlled {
        return false;
      }
      if directory && info.value !in seen {
        StepInto(fs, path, before, done, rep, way);
        way := Ways(way, current, fs[info.value].entries);
        rep := rep[info.value := current];
        done := done + {current};
        seen := seen + {info.value};
        pending := pending + Children(current, fs[info.value].entries);
      } else {
        StepOver(fs, path, before, done, rep, way);
        done := done + {current};
      }
    }
    forall names | Reachable(fs, path, names)
      ensures CheckedThrough(fs, Under(path, names))
      ensures Stat(fs, Under(path, names)).Some? ==>
                Checked(fs, Under(path, names)) && PlaceSafe(fs, Stat(fs, Under(path, names)).value)
    {
      var links := AllChecked(fs, path, done, rep, way, names);
      if Stat(fs, Under(path, names)).Some? {
        WithinForty(fs, Under(path, names), links);
        AllSafe(fs, path, done, rep, way, names);
      }
    }
    forall names, name | Reachable(fs, path, names) && Stat(fs, Under(path, names)).Some?
                         && IsEntry(fs, Stat(fs, Under(path, names)).value, name)
      ensures var entry := Stat(fs, Under(path, names)).value + [name];
              entry in fs && fs[entry].rootOwned && (fs[entry].Link? || !fs[entry].writable)
    {
      EntryOfSafe(fs, Stat(fs, Under(path, names)).value, name);
    }
    return true;
  }
}
