/** Renaming many entries at once: validate, park what is in the way, apply
    (internal/api/fs.go, handleBatchRename). */
module BatchRename {
  import opened CaseFold
  import opened Drive
  import opened DriveRuns
  import opened DriveService
  import opened DriveSteps
  import opened Paths
  import opened TagCodec
  import opened Text
  import opened Tree

  const MAX_BATCH_RENAME := 500

  /** One validated item: the entry at path is to be called newName. */
  datatype Plan = Plan(path: string, newName: string)

  function Home(p: Plan): string { Parent(p.path).0 }

  function OldName(p: Plan): string { Parent(p.path).1 }

  function Target(p: Plan): string { Join(Home(p), p.newName) }

  // ------------------------------------------------------------ validation

  ghost predicate ItemOk(s: State, p: Plan) {
    p.path != ROOT && NameAllowed(p.newName) && !EntryAt(s, p.path).NoEntry?
  }

  predicate Distinct(s: seq<string>) {
    forall i, j | 0 <= i < j < |s| :: s[i] != s[j]
  }

  function SourcePaths(plans: seq<Plan>): (r: seq<string>)
    ensures |r| == |plans| && forall i | 0 <= i < |r| :: r[i] == plans[i].path
  {
    seq(|plans|, i requires 0 <= i < |plans| => plans[i].path)
  }

  function Targets(plans: seq<Plan>): (r: seq<string>)
    ensures |r| == |plans| && forall i | 0 <= i < |r| :: r[i] == Target(plans[i])
  {
    seq(|plans|, i requires 0 <= i < |plans| => Target(plans[i]))
  }

  /** A target is a source, or nothing is there. */
  ghost predicate TargetOk(s: State, plans: seq<Plan>, p: Plan) {
    Target(p) in SourcePaths(plans) || EntryAt(s, Target(p)).NoEntry?
  }

  /** Everything the first phase checks. */
  ghost predicate Preflight(s: State, plans: seq<Plan>) {
    && 1 <= |plans| <= MAX_BATCH_RENAME
    && Distinct(SourcePaths(plans)) && Distinct(Targets(plans))
    && (forall i | 0 <= i < |plans| :: ItemOk(s, plans[i]))
    && forall i | 0 <= i < |plans| :: TargetOk(s, plans, plans[i])
  }

  function Trimmed(items: seq<Plan>): (r: seq<Plan>)
    ensures |r| == |items| && forall i | 0 <= i < |r| :: r[i] == Plan(items[i].path, TrimSpace(items[i].newName))
  {
    seq(|items|, i requires 0 <= i < |items| => Plan(items[i].path, TrimSpace(items[i].newName)))
  }

  function Elements(s: seq<string>): set<string> {
    set x | x in s
  }

  lemma OneMore(s: seq<string>, i: nat)
    requires i < |s| && Distinct(s[..i])
    ensures Distinct(s[..i + 1]) <==> s[i] !in Elements(s[..i])
    ensures Elements(s[..i + 1]) == Elements(s[..i]) + {s[i]}
    ensures !Distinct(s[..i + 1]) ==> !Distinct(s)
  {
    assert s[..i + 1] == s[..i] + [s[i]];
  }

  /** The first phase accepts a batch exactly when it meets the preflight conditions. */
  method Validate(svc: Service, items: seq<Plan>) returns (ok: bool)
    requires IndexOk(svc.state)
    ensures ok <==> Preflight(svc.state, Trimmed(items))
    ensures ok ==> 1 <= |items| <= 500
    ensures |items| == 0 || |items| > 500 ==> !ok
  {
    var plans := Trimmed(items);
    assert Preflight(svc.state, plans) <==>
           && 1 <= |plans| <= MAX_BATCH_RENAME
           && Distinct(SourcePaths(plans)) && Distinct(Targets(plans))
           && (forall i | 0 <= i < |plans| :: ItemOk(svc.state, plans[i]))
           && forall i | 0 <= i < |plans| :: TargetOk(svc.state, plans, plans[i]);
    hide *;
    if |plans| == 0 || |plans| > MAX_BATCH_RENAME {
      return false;
    }
    ok := CheckItems(svc, plans);
    if ok {
      ok := CheckTargets(svc, plans);
    }
  }

  method CheckItems(svc: Service, plans: seq<Plan>) returns (ok: bool)
    requires IndexOk(svc.state)
    ensures ok <==> Distinct(SourcePaths(plans)) && Distinct(Targets(plans)) && forall i | 0 <= i < |plans| :: ItemOk(svc.state, plans[i])
  {
    var seen: set<string>, targets: set<string> := {}, {};
    ghost var froms, tos := SourcePaths(plans), Targets(plans);
    hide EntryAt, NameAllowed, IndexOk, Target;
    ok := true;
    for i := 0 to |plans|
      invariant ok && seen == Elements(froms[..i]) && targets == Elements(tos[..i])
      invariant Distinct(froms[..i]) && Distinct(tos[..i])
      invariant forall k | 0 <= k < i :: ItemOk(svc.state, plans[k])
    {
      var p := plans[i];
      var e := svc.Lookup(p.path);
      OneMore(froms, i);
      OneMore(tos, i);
      if p.path == ROOT || !NameAllowed(p.newName) || p.path in seen || e.NoEntry? || Target(p) in targets {
        return false;
      }
      seen, targets := seen + {p.path}, targets + {Target(p)};
    }
    assert froms[..|plans|] == froms && tos[..|plans|] == tos;
  }

  method CheckTargets(svc: Service, plans: seq<Plan>) returns (ok: bool)
    requires IndexOk(svc.state)
    ensures ok <==> forall i | 0 <= i < |plans| :: TargetOk(svc.state, plans, plans[i])
  {
    var sources := Elements(SourcePaths(plans));
    for i := 0 to |plans|
      invariant forall k | 0 <= k < i :: TargetOk(svc.state, plans, plans[k])
    {
      hide EntryAt, IndexOk, Target;
      if Target(plans[i]) !in sources {
        var e := svc.Lookup(Target(plans[i]));
        if !e.NoEntry? {
          return false;
        }
      }
    }
    ok := true;
  }

  // ------------------------------------------------------------ stages of the batch

  ghost function Source(s: State, p: Plan): Entry {
    EntryAt(s, p.path)
  }

  function HomeId(s: State, e: Entry): Id {
    match e
    case NoEntry => ""
    case DirEntry(id) => if id in s.dirs then s.dirs[id].parent else ""
    case FileEntry(f) => if f in s.files then s.files[f].dir else ""
  }

  function NameOf(s: State, e: Entry): string {
    match e
    case NoEntry => ""
    case DirEntry(id) => if id in s.dirs then s.dirs[id].name else ""
    case FileEntry(f) => if f in s.files then s.files[f].name else ""
  }

  ghost predicate IsSource(s: State, plans: seq<Plan>, e: Entry) {
    exists i :: 0 <= i < |plans| && Source(s, plans[i]) == e
  }

  /** t differs from s in the names of the sources alone, which are now names. */
  ghost predicate Renamed(s: State, plans: seq<Plan>, names: seq<string>, t: State) {
    && |names| == |plans|
    && t.dirs.Keys == s.dirs.Keys && t.files.Keys == s.files.Keys && t.segs == s.segs && t.users == s.users
    && (forall id | id in s.dirs :: t.dirs[id].parent == s.dirs[id].parent && t.dirs[id].msg == s.dirs[id].msg)
    && (forall f | f in s.files :: t.files[f] == s.files[f].(name := t.files[f].name))
    && (forall i | 0 <= i < |plans| :: NameOf(t, Source(s, plans[i])) == names[i])
    && (forall id | id in s.dirs && !IsSource(s, plans, DirEntry(id)) :: t.dirs[id].name == s.dirs[id].name)
    && (forall f | f in s.files && !IsSource(s, plans, FileEntry(f)) :: t.files[f].name == s.files[f].name)
  }

  function NewNames(plans: seq<Plan>): (r: seq<string>)
    ensures |r| == |plans| && forall i | 0 <= i < |r| :: r[i] == plans[i].newName
  {
    seq(|plans|, i requires 0 <= i < |plans| => plans[i].newName)
  }

  /** Indices whose current place another item wants. */
  function ToPark(plans: seq<Plan>): set<nat> {
    set j: nat | j < |plans| && exists i :: 0 <= i < |plans| && i != j && Target(plans[i]) == plans[j].path
  }

  // ------------------------------------------------------------ what the code takes for granted

  /** No source lies inside another one. */
  predicate NotNested(plans: seq<Plan>) {
    forall i, j | 0 <= i < |plans| && 0 <= j < |plans| :: !IsDescendant(plans[i].path, plans[j].path)
  }

  /** Temporary names are new to the drive and to the batch. */
  predicate FreshTemps(s: State, plans: seq<Plan>, temps: seq<string>) {
    && |temps| == |plans|
    && (forall i | 0 <= i < |temps| :: NameAllowed(temps[i]))
    && (forall i, j | 0 <= i < j < |temps| :: temps[i] != temps[j])
    && (forall i, id | 0 <= i < |temps| && id in s.dirs :: s.dirs[id].name != temps[i])
    && (forall i, f | 0 <= i < |temps| && f in s.files :: s.files[f].name != temps[i])
    && (forall i, j | 0 <= i < |temps| && 0 <= j < |plans| :: plans[j].newName != temps[i])
  }

  /** Where a directory has to make way, no file has the same path. */
  ghost predicate NoHiddenFile(s: State, plans: seq<Plan>) {
    forall j, f | j in ToPark(plans) && f in s.files && Source(s, plans[j]).DirEntry? :: !IsBehind(s, plans[j], f)
  }

  /** The file has the path of the directory that is the item's source. */
  ghost predicate IsBehind(s: State, p: Plan, f: Id) {
    f in s.files && s.files[f].dir == HomeId(s, Source(s, p)) && s.files[f].name == OldName(p)
  }

  /** An item that keeps its name is not an upload in progress. */
  ghost predicate IdleVisible(s: State, plans: seq<Plan>) {
    forall i | 0 <= i < |plans| && plans[i].newName == OldName(plans[i]) :: IsVisible(s, Source(s, plans[i]))
  }

  /** What stops an item: it keeps its name and Stat does not see it, or a file is behind
      the directory that made way for it. */
  ghost predicate Stuck(s: State, plans: seq<Plan>, i: nat)
    requires i < |plans|
  {
    if plans[i].newName == OldName(plans[i]) then !IsVisible(s, Source(s, plans[i]))
    else exists j: nat, f: Id :: j < |plans| && plans[j].path == Target(plans[i]) && Source(s, plans[j]).DirEntry? && IsBehind(s, plans[j], f)
  }

  /** A name that the item's source bears at some time. */
  predicate MayBear(plans: seq<Plan>, temps: seq<string>, i: nat, name: string)
    requires |temps| == |plans|
  {
    i < |plans| && (name == OldName(plans[i]) || name == plans[i].newName || name == temps[i])
  }

  predicate AtOrBelow(root: string, path: string) {
    |root| <= |path| && (path == root || IsDescendant(root, path))
  }

  /** Where a directory may be found in the course of the batch: its own place, or below
      some name of a source that is it or lies above it. */
  ghost predicate MayLie(s: State, plans: seq<Plan>, temps: seq<string>, k: Id, path: string)
    requires |temps| == |plans|
  {
    && k in s.dirs
    && (path == s.dirs[k].path
        || exists i: nat, name :: MayBear(plans, temps, i, name) && i < |plans| && Below(s, plans[i], k) && path == Carried(s, plans[i], name, k))
  }

  ghost predicate Below(s: State, p: Plan, k: Id) {
    k in s.dirs && Source(s, p).DirEntry? && AtOrBelow(p.path, s.dirs[k].path)
  }

  ghost function Carried(s: State, p: Plan, name: string, k: Id): string
    requires Below(s, p, k)
  {
    Join(Home(p), name) + s.dirs[k].path[|p.path|..]
  }

  /** No directory is dragged along by LIKE, which ignores ASCII case, when a source
      directory is renamed: wherever it lies then, it matches only if it is below. */
  ghost predicate CaseApart(s: State, plans: seq<Plan>, temps: seq<string>)
    requires |temps| == |plans|
  {
    forall i: nat, name, k, path | MayBear(plans, temps, i, name) && i < |plans| && Source(s, plans[i]).DirEntry? && MayLie(s, plans, temps, k, path)
                              && LikeUnder(Join(Home(plans[i]), name), path) ::
      IsDescendant(Join(Home(plans[i]), name), path)
  }

  ghost predicate Assumed(s: State, plans: seq<Plan>, temps: seq<string>) {
    && (forall i | 0 <= i < |plans| :: IsCleanPath(plans[i].path))
    && NotNested(plans) && FreshTemps(s, plans, temps) && CaseApart(s, plans, temps)
  }

  // ------------------------------------------------------------ where the sources are

  lemma SourceHome(s: State, p: Plan)
    requires IndexOk(s) && IsCleanPath(p.path) && ItemOk(s, p)
    ensures var e := Source(s, p);
            && Exists(s, e) && NameOf(s, e) == OldName(p)
            && (HomeId(s, e) == "" || HomeId(s, e) in s.dirs) && DirPath(s.dirs, HomeId(s, e)) == Home(p)
            && Resolved(s.dirs, Home(p)) == Some(HomeId(s, e))
    ensures p.path == Join(Home(p), OldName(p)) && PlainName(OldName(p)) && NameAllowed(OldName(p)) && Home(p) != "" && IsCleanPath(Home(p))
    ensures Source(s, p).DirEntry? ==> s.dirs[Source(s, p).id].path == p.path
  {
    CleanParts(p.path);
    EntryIs(s, p.path);
    var e := Source(s, p);
    hide IsCleanPath, NameAllowed, Parent, EntryAt, Join;
    match e
    case DirEntry(id) =>
      PathEntry(s, p.path);
      ParentResolves(s.dirs, id);
      assert Linked(s.dirs, id);
      PathShape(s.dirs, id);
      JoinInjective(DirPath(s.dirs, s.dirs[id].parent), s.dirs[id].name, Home(p), OldName(p));
    case FileEntry(f) => ResolvedPath(s, Home(p));
    case NoEntry =>
  }

  predicate Exists(s: State, e: Entry) {
    match e
    case NoEntry => false
    case DirEntry(id) => id in s.dirs
    case FileEntry(f) => f in s.files
  }

  lemma ParentResolves(dirs: Dirs, id: Id)
    requires Consistent(dirs) && id in dirs
    ensures Resolved(dirs, DirPath(dirs, dirs[id].parent)) == Some(dirs[id].parent)
  {
    assert Linked(dirs, id);
    var p := dirs[id].parent;
    if p in dirs {
      PathShape(dirs, p);
      DirByPathIs(dirs, p);
    }
  }

  /** Directories above and at a home keep their names, so homes keep their paths. */
  lemma {:induction false} PathKept(s: State, plans: seq<Plan>, names: seq<string>, t: State, p: Id)
    requires IndexOk(s) && IndexOk(t) && Renamed(s, plans, names, t) && (p == "" || p in s.dirs)
    requires forall i | 0 <= i < |plans| && Source(s, plans[i]).DirEntry? && Source(s, plans[i]).id in s.dirs ::
               Above(s.dirs, Source(s, plans[i]).id, p)
    ensures DirPath(t.dirs, p) == DirPath(s.dirs, p)
    decreases |DirPath(s.dirs, p)|
  {
    assert "" !in s.dirs && "" !in t.dirs;
    if p in s.dirs {
      assert Linked(s.dirs, p) && Linked(t.dirs, p);
      PathShape(s.dirs, p);
      var q := s.dirs[p].parent;
      forall i | 0 <= i < |plans| && Source(s, plans[i]).DirEntry? && Source(s, plans[i]).id in s.dirs
        ensures Above(s.dirs, Source(s, plans[i]).id, q)
      {
        PathShape(s.dirs, Source(s, plans[i]).id);
        DescendantOfJoin(s.dirs[Source(s, plans[i]).id].path, DirPath(s.dirs, q), s.dirs[p].name);
        assert Above(s.dirs, Source(s, plans[i]).id, p);
      }
      PathKept(s, plans, names, t, q);
      assert !IsSource(s, plans, DirEntry(p)) by {
        assert forall i | 0 <= i < |plans| && Source(s, plans[i]) == DirEntry(p) :: Above(s.dirs, p, p);
      }
    }
  }

  /** The directory is neither p nor above it. */
  predicate Above(dirs: Dirs, id: Id, p: Id) {
    id in dirs ==> dirs[id].path != DirPath(dirs, p) && !IsDescendant(dirs[id].path, DirPath(dirs, p))
  }

  lemma HomeKept(s: State, plans: seq<Plan>, temps: seq<string>, names: seq<string>, t: State, i: nat)
    requires IndexOk(s) && IndexOk(t) && Renamed(s, plans, names, t) && i < |plans| && Assumed(s, plans, temps)
    requires forall k | 0 <= k < |plans| :: ItemOk(s, plans[k])
    ensures var h := HomeId(s, Source(s, plans[i]));
            && DirPath(t.dirs, h) == Home(plans[i]) && Resolved(t.dirs, Home(plans[i])) == Some(h)
            && (h == "" || h in t.dirs)
  {
    var h := HomeId(s, Source(s, plans[i]));
    SourceHome(s, plans[i]);
    forall k | 0 <= k < |plans| && Source(s, plans[k]).DirEntry? && Source(s, plans[k]).id in s.dirs
      ensures Above(s.dirs, Source(s, plans[k]).id, h)
    {
      SourceHome(s, plans[k]);
      PathShape(s.dirs, Source(s, plans[k]).id);
      assert !IsDescendant(plans[k].path, plans[i].path);
      DescendantOfJoin(plans[k].path, Home(plans[i]), OldName(plans[i]));
    }
    hide Assumed, ItemOk, Home, OldName, Source;
    PathKept(s, plans, names, t, h);
    if h in t.dirs {
      PathShape(t.dirs, h);
      DirByPathIs(t.dirs, h);
    }
  }

  // ------------------------------------------------------------ one rename within the batch

  /** Nobody but source i has, at this stage, the name it is about to get. */
  ghost predicate FreeAt(s: State, plans: seq<Plan>, names: seq<string>, i: nat, name: string)
    requires |names| == |plans| && i < |plans|
  {
    var h := HomeId(s, Source(s, plans[i]));
    && (forall id | id in s.dirs && s.dirs[id].parent == h && s.dirs[id].name == name :: IsSource(s, plans, DirEntry(id)))
    && (forall f | f in s.files && s.files[f].dir == h && s.files[f].name == name :: IsSource(s, plans, FileEntry(f)))
    && (forall k | 0 <= k < |plans| && HomeId(s, Source(s, plans[k])) == h :: names[k] != name)
  }

  lemma FreeThen(s: State, plans: seq<Plan>, names: seq<string>, t: State, i: nat, name: string)
    requires Renamed(s, plans, names, t) && i < |plans| && FreeAt(s, plans, names, i, name)
    requires forall k | 0 <= k < |plans| :: Exists(s, Source(s, plans[k]))
    ensures NameIsFree(t, HomeId(s, Source(s, plans[i])), name)
  {
    var h := HomeId(s, Source(s, plans[i]));
    forall id | id in t.dirs ensures !(t.dirs[id].parent == h && t.dirs[id].name == name) {
      if IsSource(s, plans, DirEntry(id)) {
        var k :| 0 <= k < |plans| && Source(s, plans[k]) == DirEntry(id);
        assert NameOf(t, Source(s, plans[k])) == names[k];
      }
    }
    forall f | f in t.files ensures !(t.files[f].dir == h && t.files[f].name == name) {
      if IsSource(s, plans, FileEntry(f)) {
        var k :| 0 <= k < |plans| && Source(s, plans[k]) == FileEntry(f);
        assert NameOf(t, Source(s, plans[k])) == names[k];
      }
    }
  }

  /** Where source i is at a stage, and that a path leads to it. */
  lemma FoundAt(s: State, plans: seq<Plan>, temps: seq<string>, names: seq<string>, t: State, i: nat)
    requires IndexOk(s) && IndexOk(t) && Renamed(s, plans, names, t) && i < |plans| && Assumed(s, plans, temps)
    requires forall k | 0 <= k < |plans| :: ItemOk(s, plans[k])
    requires NameAllowed(names[i])
    requires Source(s, plans[i]).FileEntry? ==> NoDirAt(t, HomeId(s, Source(s, plans[i])), names[i])
    ensures var from := Join(Home(plans[i]), names[i]);
            && IsCleanPath(from) && from != ROOT && Parent(from) == (Home(plans[i]), names[i])
            && EntryAt(t, from) == Source(s, plans[i])
  {
    var e, h, from := Source(s, plans[i]), HomeId(s, Source(s, plans[i])), Join(Home(plans[i]), names[i]);
    HomeKept(s, plans, temps, names, t, i);
    SourceHome(s, plans[i]);
    JoinClean(Home(plans[i]), names[i]);
    AllowedIsEncodable(names[i]);
    StillThere(s, plans, names, t, i);
    assert NameOf(t, e) == names[i] && HomeId(t, e) == h;
    assert Consistent(t.dirs);
    hide *;
    LeadsTo(t, from, e);
  }

  /** A path made of an entry's home and name leads to the entry. */
  lemma LeadsTo(t: State, from: string, e: Entry)
    requires IndexOk(t) && Exists(t, e) && (HomeId(t, e) == "" || HomeId(t, e) in t.dirs)
    requires Parent(from) == (DirPath(t.dirs, HomeId(t, e)), NameOf(t, e)) && from == Join(Parent(from).0, Parent(from).1)
    requires Resolved(t.dirs, Parent(from).0) == Some(HomeId(t, e))
    requires e.FileEntry? ==> NoDirAt(t, HomeId(t, e), NameOf(t, e)) && PlainName(NameOf(t, e))
    ensures EntryAt(t, from) == e
  {
    if e.DirEntry? {
      assert Linked(t.dirs, e.id);
      DirByPathIs(t.dirs, e.id);
    } else {
      if k :| k in t.dirs && t.dirs[k].path == from {
        ChildAt(t.dirs, k, HomeId(t, e), NameOf(t, e));
      }
      FileInIs(t, e.f);
    }
  }

  predicate NoDirAt(t: State, dir: Id, name: string) {
    forall k | k in t.dirs :: !(t.dirs[k].parent == dir && t.dirs[k].name == name)
  }

  lemma JoinClean(parent: string, name: string)
    requires IsCleanPath(parent) && parent != "" && NameAllowed(name)
    ensures IsCleanPath(Join(parent, name)) && Join(parent, name) != ROOT && Parent(Join(parent, name)) == (parent, name)
  {
    var names := SplitPath(parent);
    AllowedIsEncodable(name);
    forall n | n in names ensures PlainName(n) { AllowedIsEncodable(n); }
    var all := names + [name];
    assert all[..|all| - 1] == names;
    assert forall n | n in all :: NameAllowed(n) && PlainName(n);
    assert parent == PathOf(names);
    hide NameAllowed, SplitPath;
    SplitOfPath(all);
    JoinLonger(parent, name);
    ParentOfJoin(parent, name);
  }

  lemma SourcesDiffer(s: State, plans: seq<Plan>, i: nat, j: nat)
    requires IndexOk(s) && i < |plans| && j < |plans| && plans[i].path != plans[j].path
    requires IsCleanPath(plans[i].path) && IsCleanPath(plans[j].path) && ItemOk(s, plans[i]) && ItemOk(s, plans[j])
    ensures Source(s, plans[i]) != Source(s, plans[j])
  {
    SourceHome(s, plans[i]);
    SourceHome(s, plans[j]);
  }

  ghost predicate SourcesApart(s: State, plans: seq<Plan>) {
    forall i, j | 0 <= i < |plans| && 0 <= j < |plans| && i != j :: Source(s, plans[i]) != Source(s, plans[j])
  }

  /** Of all rows' names, parents and messages, one name has changed. */
  predicate OneNewName(t: State, u: State, e: Entry, name: string) {
    && u.dirs.Keys == t.dirs.Keys && u.files.Keys == t.files.Keys && u.segs == t.segs && u.users == t.users
    && (forall id | id in t.dirs ::
          && u.dirs[id].parent == t.dirs[id].parent && u.dirs[id].msg == t.dirs[id].msg
          && u.dirs[id].name == if e == DirEntry(id) then name else t.dirs[id].name)
    && (forall f | f in t.files :: u.files[f] == if e == FileEntry(f) then t.files[f].(name := name) else t.files[f])
  }

  lemma OnlyName(t: State, u: State, e: Entry, name: string)
    requires HasNewName(t, u, e, name)
    ensures OneNewName(t, u, e, name)
  {
    if e.DirEntry? {
      RelocateKeepsRest(t.dirs, e.id, t.dirs[e.id].parent, name, Join(DirPath(t.dirs, t.dirs[e.id].parent), name));
    }
    hide Relocate, Join;
  }

  lemma NameThen(t: State, u: State, e: Entry, name: string, other: Entry)
    requires OneNewName(t, u, e, name) && Exists(t, e)
    ensures NameOf(u, other) == if other == e then name else NameOf(t, other)
  {
  }

  /** One rename moves the batch to its next stage. */
  lemma NextStage(s: State, plans: seq<Plan>, names: seq<string>, t: State, u: State, i: nat, name: string)
    requires Renamed(s, plans, names, t) && i < |plans| && SourcesApart(s, plans) && Exists(s, Source(s, plans[i]))
    requires HasNewName(t, u, Source(s, plans[i]), name)
    ensures Renamed(s, plans, names[i := name], u)
  {
    hide Source, HasNewName, Exists, NameOf, OneNewName;
    var e := Source(s, plans[i]);
    OnlyName(t, u, e, name);
    StillThere(s, plans, names, t, i);
    assert IsSource(s, plans, e);
    hide IsSource;
    forall k | 0 <= k < |plans| ensures NameOf(u, Source(s, plans[k])) == names[i := name][k] {
      NameThen(t, u, e, name, Source(s, plans[k]));
      assert NameOf(t, Source(s, plans[k])) == names[k];
    }
    hide SourcesApart;
    OthersKept(s, plans, names, t, u, e, name);
  }

  lemma OthersKept(s: State, plans: seq<Plan>, names: seq<string>, t: State, u: State, e: Entry, name: string)
    requires Renamed(s, plans, names, t) && OneNewName(t, u, e, name) && IsSource(s, plans, e)
    ensures u.dirs.Keys == s.dirs.Keys && u.files.Keys == s.files.Keys && u.segs == s.segs && u.users == s.users
    ensures forall id | id in s.dirs :: u.dirs[id].parent == s.dirs[id].parent && u.dirs[id].msg == s.dirs[id].msg
    ensures forall f | f in s.files :: u.files[f] == s.files[f].(name := u.files[f].name)
    ensures forall id | id in s.dirs && !IsSource(s, plans, DirEntry(id)) :: u.dirs[id].name == s.dirs[id].name
    ensures forall f | f in s.files && !IsSource(s, plans, FileEntry(f)) :: u.files[f].name == s.files[f].name
  {
    hide Source, IsSource, NameOf;
  }

  /** Every name in the list is one its source may bear. */
  predicate Bearable(plans: seq<Plan>, temps: seq<string>, names: seq<string>)
    requires |names| == |plans| == |temps|
  {
    forall i | 0 <= i < |plans| :: names[i] == OldName(plans[i]) || names[i] == plans[i].newName || names[i] == temps[i]
  }

  /** The path of a directory at a stage is one of those it may have. */
  lemma {:induction false} StagePath(s: State, plans: seq<Plan>, temps: seq<string>, names: seq<string>, t: State, k: Id)
    requires IndexOk(s) && IndexOk(t) && Renamed(s, plans, names, t) && Assumed(s, plans, temps) && Bearable(plans, temps, names)
    requires forall i | 0 <= i < |plans| :: ItemOk(s, plans[i])
    requires k in s.dirs
    ensures MayLie(s, plans, temps, k, t.dirs[k].path)
    decreases |s.dirs[k].path|
  {
    assert Linked(s.dirs, k) && Linked(t.dirs, k);
    var p := s.dirs[k].parent;
    if IsSource(s, plans, DirEntry(k)) {
      var i: nat :| 0 <= i < |plans| && Source(s, plans[i]) == DirEntry(k);
      SourcePath(s, plans, temps, names, t, k, i);
    } else if p == "" {
      assert "" !in s.dirs && "" !in t.dirs;
    } else {
      PathShape(s.dirs, p);
      PathShape(t.dirs, p);
      StagePath(s, plans, temps, names, t, p);
      hide Assumed, IndexOk, ItemOk, Bearable, Renamed, Linked, IsSource;
      ChildPath(s, plans, temps, k, t.dirs[p].path);
    }
  }

  lemma SourcePath(s: State, plans: seq<Plan>, temps: seq<string>, names: seq<string>, t: State, k: Id, i: nat)
    requires IndexOk(s) && IndexOk(t) && Renamed(s, plans, names, t) && Assumed(s, plans, temps) && Bearable(plans, temps, names)
    requires forall i | 0 <= i < |plans| :: ItemOk(s, plans[i])
    requires i < |plans| && Source(s, plans[i]) == DirEntry(k) && k in s.dirs
    ensures MayLie(s, plans, temps, k, t.dirs[k].path) && t.dirs[k].path == Join(Home(plans[i]), names[i])
    ensures MayBear(plans, temps, i, names[i])
  {
    SourceHome(s, plans[i]);
    HomeKept(s, plans, temps, names, t, i);
    assert Linked(t.dirs, k) && t.dirs[k].parent == HomeId(s, Source(s, plans[i]));
    assert NameOf(t, Source(s, plans[i])) == names[i];
    hide IndexOk, Renamed, Assumed, ItemOk, Home, OldName, EntryAt, Linked;
    assert MayBear(plans, temps, i, names[i]) && Below(s, plans[i], k);
    assert Carried(s, plans[i], names[i], k) == Join(Home(plans[i]), names[i]) + "" == Join(Home(plans[i]), names[i]);
  }

  /** Children go along with their parents. */
  lemma ChildPath(s: State, plans: seq<Plan>, temps: seq<string>, k: Id, parentPath: string)
    requires |temps| == |plans| && k in s.dirs && s.dirs[k].parent in s.dirs && s.dirs[s.dirs[k].parent].path != ROOT && parentPath != ROOT
    requires s.dirs[k].path == Join(s.dirs[s.dirs[k].parent].path, s.dirs[k].name)
    requires MayLie(s, plans, temps, s.dirs[k].parent, parentPath)
    ensures MayLie(s, plans, temps, k, Join(parentPath, s.dirs[k].name))
  {
    var p, name := s.dirs[k].parent, s.dirs[k].name;
    hide Source, Home, OldName, MayBear, IsDescendant, Join, AtOrBelow, Below, Carried;
    JoinsBelow(s.dirs[p].path, name);
    JoinsBelow(parentPath, name);
    if parentPath != s.dirs[p].path {
      var i: nat, x :| MayBear(plans, temps, i, x) && i < |plans| && Below(s, plans[i], p) && parentPath == Carried(s, plans[i], x, p);
      ChildCarried(s, plans[i], x, k, p);
    }
  }

  lemma ChildCarried(s: State, plan: Plan, x: string, k: Id, p: Id)
    requires k in s.dirs && Below(s, plan, p) && s.dirs[p].path != ROOT
    requires s.dirs[k].path == s.dirs[p].path + ("/" + s.dirs[k].name)
    ensures Below(s, plan, k) && Carried(s, plan, x, k) == Carried(s, plan, x, p) + ("/" + s.dirs[k].name)
  {
    hide Source, Home, Join;
    assert s.dirs[k].path[|plan.path|..] == s.dirs[p].path[|plan.path|..] + ("/" + s.dirs[k].name);
  }

  lemma JoinsBelow(path: string, name: string)
    requires path != ROOT
    ensures Join(path, name) == path + ("/" + name)
  {
  }

  /** A rename of the batch drags no foreign directory along. */
  ghost predicate TwinFree(t: State, e: Entry, name: string) {
    e.DirEntry? && e.id in t.dirs ==> NoCaseTwin(t.dirs, e.id, Join(DirPath(t.dirs, t.dirs[e.id].parent), name))
  }

  lemma StageTwinFree(s: State, plans: seq<Plan>, temps: seq<string>, names: seq<string>, t: State, i: nat, name: string)
    requires IndexOk(s) && IndexOk(t) && Renamed(s, plans, names, t) && Assumed(s, plans, temps) && Bearable(plans, temps, names)
    requires forall k | 0 <= k < |plans| :: ItemOk(s, plans[k])
    requires i < |plans| && NameAllowed(name)
    ensures TwinFree(t, Source(s, plans[i]), name)
  {
    var e := Source(s, plans[i]);
    if e.DirEntry? && e.id in t.dirs {
      var id := e.id;
      SourcePath(s, plans, temps, names, t, id, i);
      assert Linked(t.dirs, id);
      AllowedIsEncodable(name);
      NewNameNotUnder(DirPath(t.dirs, t.dirs[id].parent), t.dirs[id].name, name);
      assert CaseApart(s, plans, temps) && t.dirs.Keys == s.dirs.Keys;
      forall k | k in t.dirs && LikeUnder(t.dirs[id].path, t.dirs[k].path) ensures IsDescendant(t.dirs[id].path, t.dirs[k].path) {
        StagePath(s, plans, temps, names, t, k);
      }
      hide IndexOk, Renamed, Assumed, ItemOk, Bearable, MayLie, MayBear, LikeUnder, IsDescendant, Source, Home, CaseApart, NameAllowed;
    }
  }

  /** A rename in place keeps the index sound. */
  lemma RenamedIndexOk(t: State, u: State, e: Entry, name: string)
    requires IndexOk(t) && TwinFree(t, e, name) && HasNewName(t, u, e, name) && NameAllowed(name) && Exists(t, e)
    requires NameIsFree(t, HomeId(t, e), name)
    ensures IndexOk(u)
    ensures e.DirEntry? ==> Accepted(t.dirs, e.id, t.dirs[e.id].parent, name, Join(DirPath(t.dirs, t.dirs[e.id].parent), name))
  {
    match e
    case NoEntry =>
    case FileEntry(f) => hide Consistent, NameAllowed;
    case DirEntry(id) => RelocatedIndexOk(t, u, id, name);
  }

  lemma RelocatedIndexOk(t: State, u: State, id: Id, name: string)
    requires IndexOk(t) && TwinFree(t, DirEntry(id), name) && HasNewName(t, u, DirEntry(id), name) && NameAllowed(name) && id in t.dirs
    requires NameIsFree(t, t.dirs[id].parent, name)
    ensures IndexOk(u)
    ensures Accepted(t.dirs, id, t.dirs[id].parent, name, Join(DirPath(t.dirs, t.dirs[id].parent), name))
  {
    var p, path := t.dirs[id].parent, Join(DirPath(t.dirs, t.dirs[id].parent), name);
    AllowedIsEncodable(name);
    RenameIsRelocate(t, id, name);
    assert MayRelocate(t.dirs, id, p, name, path);
    assert Consistent(t.dirs) && u.dirs == Relocate(t.dirs, id, p, name, path) && u.files == t.files;
    RelocateKeepsRest(t.dirs, id, p, name, path);
    assert NoCaseTwin(t.dirs, id, path);
    hide *;
    RelocateAccepted(t.dirs, id, p, name, path);
  }

  // ------------------------------------------------------------ the batch as a whole

  ghost predicate SameHome(s: State, plans: seq<Plan>, j: nat, k: nat)
    requires j < |plans| && k < |plans|
  {
    HomeId(s, Source(s, plans[j])) == HomeId(s, Source(s, plans[k]))
  }

  /** Sources in one directory have different names, and no other directory is where a
      file source is. */
  ghost predicate Clear(s: State, plans: seq<Plan>, names: seq<string>)
    requires |names| == |plans|
  {
    && (forall j, k | 0 <= j < |plans| && 0 <= k < |plans| && j != k && SameHome(s, plans, j, k) :: names[j] != names[k])
    && forall i, id | 0 <= i < |plans| && Source(s, plans[i]).FileEntry? && id in s.dirs && !IsSource(s, plans, DirEntry(id)) ::
         !(s.dirs[id].parent == HomeId(s, Source(s, plans[i])) && s.dirs[id].name == names[i])
  }

  ghost predicate Given(s: State, plans: seq<Plan>, temps: seq<string>) {
    && |temps| == |plans| && IndexOk(s) && Assumed(s, plans, temps) && Preflight(s, plans) && SourcesApart(s, plans)
    && forall i | 0 <= i < |plans| :: Exists(s, Source(s, plans[i])) && NameOf(s, Source(s, plans[i])) == OldName(plans[i])
  }

  ghost predicate OnTrack(s: State, plans: seq<Plan>, temps: seq<string>, names: seq<string>, t: State) {
    && |names| == |plans| && Given(s, plans, temps)
    && IndexOk(t) && Renamed(s, plans, names, t) && Bearable(plans, temps, names) && Clear(s, plans, names)
  }

  lemma GivenFrom(s: State, plans: seq<Plan>, temps: seq<string>)
    requires IndexOk(s) && Assumed(s, plans, temps) && Preflight(s, plans)
    ensures Given(s, plans, temps)
  {
    forall i | 0 <= i < |plans| ensures Exists(s, Source(s, plans[i])) && NameOf(s, Source(s, plans[i])) == OldName(plans[i]) {
      SourceHome(s, plans[i]);
    }
    forall i, j | 0 <= i < |plans| && 0 <= j < |plans| && i != j ensures Source(s, plans[i]) != Source(s, plans[j]) {
      assert SourcePaths(plans)[i] != SourcePaths(plans)[j];
      SourcesDiffer(s, plans, i, j);
    }
    hide IndexOk, Assumed, Preflight, Source, OldName;
  }

  lemma GivenParts(s: State, plans: seq<Plan>, temps: seq<string>)
    requires Given(s, plans, temps)
    ensures |temps| == |plans| && IndexOk(s) && Assumed(s, plans, temps) && SourcesApart(s, plans)
    ensures forall i | 0 <= i < |plans| ::
              && IsCleanPath(plans[i].path) && ItemOk(s, plans[i]) && NameAllowed(plans[i].newName) && NameAllowed(temps[i])
              && Exists(s, Source(s, plans[i])) && NameOf(s, Source(s, plans[i])) == OldName(plans[i])
    ensures FreshTemps(s, plans, temps)
  {
    hide IndexOk, Source, OldName, NameAllowed, IsCleanPath, NotNested, CaseApart;
  }

  lemma AllowedNames(s: State, plans: seq<Plan>, temps: seq<string>, names: seq<string>, i: nat)
    requires Given(s, plans, temps) && |names| == |plans| && Bearable(plans, temps, names) && i < |plans|
    ensures NameAllowed(names[i])
  {
    GivenParts(s, plans, temps);
    SourceHome(s, plans[i]);
    hide NameAllowed, OldName, Given;
  }

  /** No directory is where a file source is, at any stage. */
  lemma FileAlone(s: State, plans: seq<Plan>, temps: seq<string>, names: seq<string>, t: State, i: nat)
    requires OnTrack(s, plans, temps, names, t) && i < |plans| && Source(s, plans[i]).FileEntry?
    ensures NoDirAt(t, HomeId(s, Source(s, plans[i])), names[i])
  {
    var h := HomeId(s, Source(s, plans[i]));
    GivenParts(s, plans, temps);
    hide Given, IndexOk, Bearable, Source;
    forall id | id in t.dirs ensures !(t.dirs[id].parent == h && t.dirs[id].name == names[i]) {
      if IsSource(s, plans, DirEntry(id)) {
        var k :| 0 <= k < |plans| && Source(s, plans[k]) == DirEntry(id);
        assert NameOf(t, Source(s, plans[k])) == names[k];
        assert SameHome(s, plans, k, i) <==> t.dirs[id].parent == h;
      }
    }
  }

  /** Within the batch, a rename to a name that is free at that stage succeeds. */
  lemma RenameSucceeds(s: State, plans: seq<Plan>, temps: seq<string>, names: seq<string>, t: State, i: nat, name: string)
    requires OnTrack(s, plans, temps, names, t) && i < |plans| && FreeAt(s, plans, names, i, name)
    requires NameAllowed(name) && (name == plans[i].newName || name == temps[i])
    ensures var from := Join(Home(plans[i]), names[i]);
            && IsCleanPath(from) && Parent(from).1 == names[i] && name != names[i]
            && EntryAt(t, from) == Source(s, plans[i])
            && RenameOutcome(t, from, name) == Succeeded
  {
    var e, from := Source(s, plans[i]), Join(Home(plans[i]), names[i]);
    assert IndexOk(t) && Renamed(s, plans, names, t) && Bearable(plans, temps, names);
    assert name != names[i] by { assert SameHome(s, plans, i, i); }
    GivenParts(s, plans, temps);
    AllowedNames(s, plans, temps, names, i);
    if e.FileEntry? { FileAlone(s, plans, temps, names, t, i); }
    FoundAt(s, plans, temps, names, t, i);
    HomeKept(s, plans, temps, names, t, i);
    FreeThen(s, plans, names, t, i, name);
    StageTwinFree(s, plans, temps, names, t, i, name);
    StillThere(s, plans, names, t, i);
    hide *;
    OutcomeAt(t, from, e, name);
  }

  lemma StillThere(s: State, plans: seq<Plan>, names: seq<string>, t: State, i: nat)
    requires Renamed(s, plans, names, t) && i < |plans| && Exists(s, Source(s, plans[i]))
    ensures Exists(t, Source(s, plans[i])) && HomeId(t, Source(s, plans[i])) == HomeId(s, Source(s, plans[i]))
  {
  }

  lemma OutcomeAt(t: State, from: string, e: Entry, name: string)
    requires IndexOk(t) && TwinFree(t, e, name) && Exists(t, e) && NameAllowed(name) && from != ROOT
    requires EntryAt(t, from) == e && name != Parent(from).1
    requires Resolved(t.dirs, Parent(from).0) == Some(HomeId(t, e)) && DirPath(t.dirs, HomeId(t, e)) == Parent(from).0
    requires NameIsFree(t, HomeId(t, e), name)
    ensures RenameOutcome(t, from, name) == Succeeded
  {
    hide EntryAt, NameIsFree, Parent, NameAllowed, IndexOk, TwinFree, Resolved;
    if e.DirEntry? {
      var u := t.(dirs := Relocate(t.dirs, e.id, t.dirs[e.id].parent, name, Join(DirPath(t.dirs, t.dirs[e.id].parent), name)));
      RelocatedIndexOk(t, u, e.id, name);
    }
  }

  /** And the batch stays on track. */
  lemma RenameKeepsTrack(s: State, plans: seq<Plan>, temps: seq<string>, names: seq<string>, t: State, u: State, i: nat, name: string)
    requires OnTrack(s, plans, temps, names, t) && i < |plans| && FreeAt(s, plans, names, i, name)
    requires NameAllowed(name) && (name == plans[i].newName || name == temps[i])
    requires HasNewName(t, u, Source(s, plans[i]), name)
    ensures OnTrack(s, plans, temps, names[i := name], u)
  {
    assert IndexOk(t) && Renamed(s, plans, names, t) && Bearable(plans, temps, names) && Clear(s, plans, names) && Given(s, plans, temps);
    GivenParts(s, plans, temps);
    FreeThen(s, plans, names, t, i, name);
    StageTwinFree(s, plans, temps, names, t, i, name);
    StillThere(s, plans, names, t, i);
    hide *;
    NextStage(s, plans, names, t, u, i, name);
    RenamedIndexOk(t, u, Source(s, plans[i]), name);
    ClearThen(s, plans, names, i, name);
    BearableThen(plans, temps, names, i, name);
    OnTrackFrom(s, plans, temps, names[i := name], u);
  }

  lemma ClearThen(s: State, plans: seq<Plan>, names: seq<string>, i: nat, name: string)
    requires |names| == |plans| && i < |plans| && Clear(s, plans, names) && FreeAt(s, plans, names, i, name)
    ensures Clear(s, plans, names[i := name])
  {
    hide Source, IsSource;
  }

  lemma BearableThen(plans: seq<Plan>, temps: seq<string>, names: seq<string>, i: nat, name: string)
    requires |names| == |plans| == |temps| && Bearable(plans, temps, names) && i < |plans|
    requires name == plans[i].newName || name == temps[i]
    ensures Bearable(plans, temps, names[i := name])
  {
  }

  lemma OnTrackFrom(s: State, plans: seq<Plan>, temps: seq<string>, names: seq<string>, t: State)
    requires |names| == |plans| == |temps| && Given(s, plans, temps)
    requires IndexOk(t) && Renamed(s, plans, names, t) && Bearable(plans, temps, names) && Clear(s, plans, names)
    ensures OnTrack(s, plans, temps, names, t)
  {
  }

  /** The names of the sources when some are parked and the first few have been applied. */
  function StageNames(plans: seq<Plan>, temps: seq<string>, parked: set<nat>, applied: nat): (r: seq<string>)
    requires |temps| == |plans|
    ensures |r| == |plans|
    ensures forall k | 0 <= k < |plans| ::
              r[k] == if k < applied then plans[k].newName else if k in parked then temps[k] else OldName(plans[k])
  {
    seq(|plans|, k requires 0 <= k < |plans| =>
      if k < applied then plans[k].newName else if k in parked then temps[k] else OldName(plans[k]))
  }

  lemma SameHomePath(s: State, plans: seq<Plan>, temps: seq<string>, j: nat, k: nat)
    requires Given(s, plans, temps) && j < |plans| && k < |plans|
    ensures SameHome(s, plans, j, k) <==> Home(plans[j]) == Home(plans[k])
    ensures plans[j].path == Join(Home(plans[j]), OldName(plans[j])) && PlainName(OldName(plans[j])) && PlainName(plans[j].newName)
    ensures Home(plans[j]) != ""
  {
    GivenParts(s, plans, temps);
    SourceHome(s, plans[j]);
    SourceHome(s, plans[k]);
    AllowedIsEncodable(plans[j].newName);
    hide IndexOk, Given, Assumed, ItemOk, Source, Home, OldName, EntryAt;
  }

  lemma PathsDiffer(plans: seq<Plan>, j: nat, k: nat)
    requires j < |plans| && k < |plans| && j != k
    ensures Distinct(SourcePaths(plans)) ==> plans[j].path != plans[k].path
    ensures Distinct(Targets(plans)) ==> Target(plans[j]) != Target(plans[k])
  {
    assert SourcePaths(plans)[j] == plans[j].path && SourcePaths(plans)[k] == plans[k].path;
    assert Targets(plans)[j] == Target(plans[j]) && Targets(plans)[k] == Target(plans[k]);
  }

  /** At the start, every source is where it was found. */
  lemma StartOnTrack(s: State, plans: seq<Plan>, temps: seq<string>)
    requires Given(s, plans, temps)
    ensures OnTrack(s, plans, temps, StageNames(plans, temps, {}, 0), s)
  {
    var names := StageNames(plans, temps, {}, 0);
    GivenParts(s, plans, temps);
    hide *;
    StartClear(s, plans, temps, names);
    OnTrackFrom(s, plans, temps, names, s);
  }

  lemma StartClear(s: State, plans: seq<Plan>, temps: seq<string>, names: seq<string>)
    requires Given(s, plans, temps) && |names| == |plans| && forall k | 0 <= k < |plans| :: names[k] == OldName(plans[k])
    ensures Clear(s, plans, names)
  {
    GivenParts(s, plans, temps);
    assert Distinct(SourcePaths(plans));
    forall j, k | 0 <= j < |plans| && 0 <= k < |plans| && j != k && SameHome(s, plans, j, k) ensures names[j] != names[k] {
      SameHomePath(s, plans, temps, j, k);
      SameHomePath(s, plans, temps, k, j);
      PathsDiffer(plans, j, k);
    }
    forall i | 0 <= i < |plans| && Source(s, plans[i]).FileEntry? ensures NoDirAt(s, HomeId(s, Source(s, plans[i])), names[i]) {
      NoDirThere(s, plans[i]);
    }
    hide Given, IndexOk, Source, OldName, Home, Distinct, SameHome, Assumed, ItemOk, IsSource;
  }

  lemma NoDirThere(s: State, p: Plan)
    requires IndexOk(s) && IsCleanPath(p.path) && ItemOk(s, p) && Source(s, p).FileEntry?
    ensures NoDirAt(s, HomeId(s, Source(s, p)), OldName(p))
  {
    SourceHome(s, p);
    var h := HomeId(s, Source(s, p));
    assert DirByPath(s.dirs, p.path) == None;
    forall k | k in s.dirs ensures !(s.dirs[k].parent == h && s.dirs[k].name == OldName(p)) {
      assert Linked(s.dirs, k);
      assert s.dirs[k].path != p.path;
    }
  }

  /** A temporary name is free. */
  lemma ParkFree(s: State, plans: seq<Plan>, temps: seq<string>, parked: set<nat>, j: nat)
    requires Given(s, plans, temps) && j < |plans| && j !in parked
    ensures FreeAt(s, plans, StageNames(plans, temps, parked, 0), j, temps[j])
  {
    var names := StageNames(plans, temps, parked, 0);
    GivenParts(s, plans, temps);
    assert forall id | id in s.dirs :: s.dirs[id].name != temps[j];
    assert forall f | f in s.files :: s.files[f].name != temps[j];
    hide *;
    forall k | 0 <= k < |plans| ensures names[k] != temps[j] {
      TempIsNew(s, plans, temps, k, j);
    }
    FreeFrom(s, plans, names, j, temps[j]);
  }

  lemma TempIsNew(s: State, plans: seq<Plan>, temps: seq<string>, k: nat, j: nat)
    requires FreshTemps(s, plans, temps) && k < |plans| && j < |plans|
    requires Exists(s, Source(s, plans[k])) && NameOf(s, Source(s, plans[k])) == OldName(plans[k])
    ensures OldName(plans[k]) != temps[j] && plans[k].newName != temps[j] && (k != j ==> temps[k] != temps[j])
  {
    hide Source, OldName, NameAllowed;
  }

  lemma FreeFrom(s: State, plans: seq<Plan>, names: seq<string>, j: nat, name: string)
    requires |names| == |plans| && j < |plans|
    requires forall id | id in s.dirs :: s.dirs[id].name != name
    requires forall f | f in s.files :: s.files[f].name != name
    requires forall k | 0 <= k < |plans| :: names[k] != name
    ensures FreeAt(s, plans, names, j, name)
  {
  }

  /** Once everything in the way is parked, the new name of the next item is free. */
  lemma ApplyFree(s: State, plans: seq<Plan>, temps: seq<string>, i: nat)
    requires Given(s, plans, temps) && i < |plans| && plans[i].newName != OldName(plans[i]) && !Stuck(s, plans, i)
    ensures FreeAt(s, plans, StageNames(plans, temps, ToPark(plans), i), i, plans[i].newName)
  {
    var names, name, h := StageNames(plans, temps, ToPark(plans), i), plans[i].newName, HomeId(s, Source(s, plans[i]));
    GivenParts(s, plans, temps);
    forall k | 0 <= k < |plans| && HomeId(s, Source(s, plans[k])) == h ensures names[k] != name {
      assert SameHome(s, plans, k, i);
      NameOfOtherDiffers(s, plans, temps, i, k);
    }
    OnlySourcesThere(s, plans, temps, i);
    hide Given, IndexOk, Source, OldName, Home, Assumed, NameAllowed, Stuck;
  }

  lemma NameOfOtherDiffers(s: State, plans: seq<Plan>, temps: seq<string>, i: nat, k: nat)
    requires Given(s, plans, temps) && i < |plans| && k < |plans| && plans[i].newName != OldName(plans[i])
    requires SameHome(s, plans, k, i)
    ensures StageNames(plans, temps, ToPark(plans), i)[k] != plans[i].newName
  {
    GivenParts(s, plans, temps);
    SameHomePath(s, plans, temps, k, i);
    SameHomePath(s, plans, temps, i, k);
    assert Distinct(Targets(plans));
    if k != i { PathsDiffer(plans, k, i); }
    assert k !in ToPark(plans) && k != i ==> Target(plans[i]) != plans[k].path;
    assert i in ToPark(plans) ==> temps[i] != plans[i].newName;
    hide Given, IndexOk, Source, OldName, Home, Assumed, NameAllowed, ToPark, SameHome;
  }

  /** Whatever has the target's path is a source itself. */
  lemma OnlySourcesThere(s: State, plans: seq<Plan>, temps: seq<string>, i: nat)
    requires Given(s, plans, temps) && i < |plans| && plans[i].newName != OldName(plans[i]) && !Stuck(s, plans, i)
    ensures var h := HomeId(s, Source(s, plans[i]));
            && (forall id | id in s.dirs && s.dirs[id].parent == h && s.dirs[id].name == plans[i].newName :: IsSource(s, plans, DirEntry(id)))
            && (forall f | f in s.files && s.files[f].dir == h && s.files[f].name == plans[i].newName :: IsSource(s, plans, FileEntry(f)))
  {
    hide Given, Stuck, IndexOk, Source, Home, OldName, EntryAt, Resolved;
    var target := Target(plans[i]);
    if target in SourcePaths(plans) {
      var j: nat :| 0 <= j < |plans| && plans[j].path == target;
      TargetIsSource(s, plans, temps, i, j);
    } else {
      TargetFree(s, plans, temps, i);
    }
  }

  lemma TargetFree(s: State, plans: seq<Plan>, temps: seq<string>, i: nat)
    requires Given(s, plans, temps) && i < |plans| && Target(plans[i]) !in SourcePaths(plans)
    ensures var h := HomeId(s, Source(s, plans[i]));
            && (forall id | id in s.dirs :: !(s.dirs[id].parent == h && s.dirs[id].name == plans[i].newName))
            && (forall f | f in s.files :: !(s.files[f].dir == h && s.files[f].name == plans[i].newName))
  {
    GivenParts(s, plans, temps);
    assert TargetOk(s, plans, plans[i]);
    hide *;
    SourceHome(s, plans[i]);
    AllowedIsEncodable(plans[i].newName);
    ParentOfJoin(Home(plans[i]), plans[i].newName);
    NothingThere(s, HomeId(s, Source(s, plans[i])), Target(plans[i]), plans[i].newName);
  }

  lemma NothingThere(s: State, h: Id, path: string, name: string)
    requires IndexOk(s) && EntryAt(s, path).NoEntry? && Parent(path).1 == name && path == Join(DirPath(s.dirs, h), name)
    requires Resolved(s.dirs, Parent(path).0) == Some(h)
    ensures forall id | id in s.dirs :: !(s.dirs[id].parent == h && s.dirs[id].name == name)
    ensures forall f | f in s.files :: !(s.files[f].dir == h && s.files[f].name == name)
  {
    forall id | id in s.dirs ensures !(s.dirs[id].parent == h && s.dirs[id].name == name) {
      assert Linked(s.dirs, id);
      DirByPathIs(s.dirs, id);
    }
  }

  lemma TargetIsSource(s: State, plans: seq<Plan>, temps: seq<string>, i: nat, j: nat)
    requires Given(s, plans, temps) && i < |plans| && j < |plans| && plans[i].newName != OldName(plans[i]) && !Stuck(s, plans, i)
    requires plans[j].path == Target(plans[i])
    ensures var h := HomeId(s, Source(s, plans[i]));
            && (forall id | id in s.dirs && s.dirs[id].parent == h && s.dirs[id].name == plans[i].newName :: Source(s, plans[j]) == DirEntry(id))
            && (forall f | f in s.files && s.files[f].dir == h && s.files[f].name == plans[i].newName :: Source(s, plans[j]) == FileEntry(f))
  {
    GivenParts(s, plans, temps);
    hide Given, Assumed, NameAllowed, IsCleanPath;
    SameHomePath(s, plans, temps, i, j);
    SameHomePath(s, plans, temps, j, i);
    hide Stuck;
    JoinInjective(Home(plans[j]), OldName(plans[j]), Home(plans[i]), plans[i].newName);
    assert HomeId(s, Source(s, plans[j])) == HomeId(s, Source(s, plans[i])) && OldName(plans[j]) == plans[i].newName;
    hide Home, Join;
    OnlyThere(s, plans[j]);
  }

  /** Nothing but a source itself bears its name in its directory, unless a file is behind
      it. */
  lemma OnlyThere(s: State, p: Plan)
    requires IndexOk(s) && IsCleanPath(p.path) && ItemOk(s, p)
    requires Source(s, p).DirEntry? ==> forall f :: !IsBehind(s, p, f)
    ensures var h := HomeId(s, Source(s, p));
            && (forall id | id in s.dirs && s.dirs[id].parent == h && s.dirs[id].name == OldName(p) :: Source(s, p) == DirEntry(id))
            && (forall f | f in s.files && s.files[f].dir == h && s.files[f].name == OldName(p) :: Source(s, p) == FileEntry(f))
  {
    SourceHome(s, p);
    var h := HomeId(s, Source(s, p));
    hide NameAllowed, IsCleanPath, Home, OldName;
    forall id | id in s.dirs && s.dirs[id].parent == h && s.dirs[id].name == OldName(p) ensures Source(s, p) == DirEntry(id) {
      assert Linked(s.dirs, id);
      DirByPathIs(s.dirs, id);
    }
    if !Source(s, p).DirEntry? {
      forall f | f in s.files && s.files[f].dir == h && s.files[f].name == OldName(p) ensures Source(s, p) == FileEntry(f) {
        assert Source(s, p).FileEntry? && NameOf(s, Source(s, p)) == OldName(p);
        assert s.files[Source(s, p).f].dir == h && s.files[Source(s, p).f].name == OldName(p);
      }
    } else {
      forall f | f in s.files ensures !(s.files[f].dir == h && s.files[f].name == OldName(p)) {
        assert !IsBehind(s, p, f);
      }
    }
  }

  // ------------------------------------------------------------ running the batch

  lemma ParkedNames(plans: seq<Plan>, temps: seq<string>, parked: set<nat>, j: nat)
    requires |temps| == |plans| && j < |plans|
    ensures StageNames(plans, temps, parked + {j}, 0) == StageNames(plans, temps, parked, 0)[j := temps[j]]
    ensures j !in parked ==> StageNames(plans, temps, parked, 0)[j] == OldName(plans[j])
  {
    hide OldName;
  }

  lemma AppliedNames(plans: seq<Plan>, temps: seq<string>, parked: set<nat>, i: nat)
    requires |temps| == |plans| && i < |plans|
    ensures StageNames(plans, temps, parked, i + 1) == StageNames(plans, temps, parked, i)[i := plans[i].newName]
    ensures StageNames(plans, temps, parked, i)[i] == if i in parked then temps[i] else OldName(plans[i])
    ensures StageNames(plans, temps, parked, |plans|) == NewNames(plans)
  {
    hide OldName;
  }

  /** One Rename call of the batch, to a name that is free when its turn comes. */
  method RenameSource(svc: Service, plans: seq<Plan>, i: nat, from: string, name: string,
                      ghost s: State, ghost temps: seq<string>, ghost names: seq<string>) returns (out: Outcome)
    requires OnTrack(s, plans, temps, names, svc.state) && i < |plans| && FreeAt(s, plans, names, i, name)
    requires NameAllowed(name) && (name == plans[i].newName || name == temps[i])
    requires from == Join(Home(plans[i]), names[i])
    modifies svc
    ensures out == Succeeded && OnTrack(s, plans, temps, names[i := name], svc.state)
  {
    ghost var t := svc.state;
    assert IndexOk(t);
    hide *;
    RenameSucceeds(s, plans, temps, names, t, i, name);
    ghost var steps;
    out, steps := svc.Rename(from, name);
    RenameKeepsTrack(s, plans, temps, names, t, svc.state, i, name);
  }

  /** An item that keeps its name only looks at its entry, and finds it unless it is an
      upload in progress. */
  lemma KeepsName(s: State, plans: seq<Plan>, temps: seq<string>, t: State, i: nat)
    requires i < |plans| && |temps| == |plans| && OnTrack(s, plans, temps, StageNames(plans, temps, ToPark(plans), i), t)
    requires plans[i].newName == OldName(plans[i])
    ensures i !in ToPark(plans)
    ensures IsCleanPath(plans[i].path) && Parent(plans[i].path).1 == plans[i].newName
    ensures RenameOutcome(t, plans[i].path, plans[i].newName) == Succeeded <==> !Stuck(s, plans, i)
  {
    var names := StageNames(plans, temps, ToPark(plans), i);
    OnTrackParts(s, plans, temps, names, t);
    GivenParts(s, plans, temps);
    hide OnTrack, Given, IndexOk, Bearable, Assumed, Renamed, Source, ItemOk, EntryAt, Resolved, NameIsFree, IsVisible, Accepted, MayBear, CaseApart, FreshTemps, NameAllowed, IsCleanPath;
    SameHomePath(s, plans, temps, i, i);
    forall k | 0 <= k < |plans| && k != i ensures Target(plans[k]) != plans[i].path { PathsDiffer(plans, k, i); }
    assert i !in ToPark(plans);
    AllowedNames(s, plans, temps, names, i);
    if Source(s, plans[i]).FileEntry? { FileAlone(s, plans, temps, names, t, i); }
    FoundAt(s, plans, temps, names, t, i);
    hide Join, Home, ToPark;
  }

  /** A stuck item that changes its name meets the file behind the directory that made way
      for it. */
  lemma StuckFails(s: State, plans: seq<Plan>, temps: seq<string>, t: State, i: nat)
    requires i < |plans| && |temps| == |plans| && OnTrack(s, plans, temps, StageNames(plans, temps, ToPark(plans), i), t)
    requires plans[i].newName != OldName(plans[i]) && Stuck(s, plans, i)
    ensures var from := Join(Home(plans[i]), StageNames(plans, temps, ToPark(plans), i)[i]);
            IsCleanPath(from) && RenameOutcome(t, from, plans[i].newName) == ErrExists
  {
    var names := StageNames(plans, temps, ToPark(plans), i);
    OnTrackParts(s, plans, temps, names, t);
    GivenParts(s, plans, temps);
    AllowedNames(s, plans, temps, names, i);
    var j: nat, f: Id :| j < |plans| && plans[j].path == Target(plans[i]) && Source(s, plans[j]).DirEntry? && IsBehind(s, plans[j], f);
    hide OnTrack, Given, IndexOk, Bearable, Assumed, Source, ItemOk, EntryAt, Resolved, IsVisible, MayBear, CaseApart, Stuck, NameAllowed, IsCleanPath, Renamed, Exists;
    HomeKept(s, plans, temps, names, t, i);
    SourceHome(s, plans[i]);
    JoinClean(Home(plans[i]), names[i]);
    SameHomePath(s, plans, temps, i, j);
    SameHomePath(s, plans, temps, j, i);
    JoinInjective(Home(plans[j]), OldName(plans[j]), Home(plans[i]), plans[i].newName);
    assert names[i] != plans[i].newName by { assert FreshTemps(s, plans, temps); }
    BehindStays(s, plans, temps, names, t, j, f);
    hide *;
    Occupied(t, Join(Home(plans[i]), names[i]), plans[i].newName, HomeId(s, Source(s, plans[j])), f);
  }

  lemma Occupied(t: State, from: string, name: string, h: Id, f: Id)
    requires NameAllowed(name) && from != ROOT && Parent(from).1 != name && Resolved(t.dirs, Parent(from).0) == Some(h)
    requires f in t.files && t.files[f].dir == h && t.files[f].name == name
    ensures RenameOutcome(t, from, name) == ErrExists
  {
    hide NameAllowed, Parent, Resolved;
    assert !NameIsFree(t, h, name);
  }

  /** The file behind a source directory is no source, so it keeps its name. */
  lemma BehindNoSource(s: State, plans: seq<Plan>, temps: seq<string>, j: nat, f: Id)
    requires Given(s, plans, temps) && j < |plans| && Source(s, plans[j]).DirEntry? && IsBehind(s, plans[j], f)
    ensures !IsSource(s, plans, FileEntry(f))
  {
    GivenParts(s, plans, temps);
    assert Distinct(SourcePaths(plans));
    hide Given, IndexOk, Assumed, ItemOk, Source, Distinct, OldName, NameAllowed, IsCleanPath;
    if IsSource(s, plans, FileEntry(f)) {
      var k: nat :| 0 <= k < |plans| && Source(s, plans[k]) == FileEntry(f);
      SameHomePath(s, plans, temps, j, k);
      SameHomePath(s, plans, temps, k, j);
      if k != j { PathsDiffer(plans, k, j); }
    }
  }

  lemma BehindStays(s: State, plans: seq<Plan>, temps: seq<string>, names: seq<string>, t: State, j: nat, f: Id)
    requires Given(s, plans, temps) && Renamed(s, plans, names, t) && j < |plans| && Source(s, plans[j]).DirEntry? && IsBehind(s, plans[j], f)
    ensures f in t.files && t.files[f].dir == HomeId(s, Source(s, plans[j])) && t.files[f].name == OldName(plans[j])
  {
    BehindNoSource(s, plans, temps, j, f);
    hide Given, IsSource, Source, OldName, HomeId;
  }

  /** Nothing is stuck exactly when no file is behind a directory that makes way and every
      item that keeps its name is visible. */
  lemma NoneStuckIff(s: State, plans: seq<Plan>, temps: seq<string>)
    requires Given(s, plans, temps)
    ensures (forall i: nat | i < |plans| :: !Stuck(s, plans, i)) <==> NoHiddenFile(s, plans) && IdleVisible(s, plans)
  {
    hide *;
    SourcesDistinct(s, plans, temps);
    forall i: nat | i < |plans| ensures plans[i].newName == OldName(plans[i]) <==> Target(plans[i]) == plans[i].path {
      KeptName(s, plans, temps, i);
    }
    if !IdleVisible(s, plans) {
      IdleStuck(s, plans);
    } else if NoHiddenFile(s, plans) {
      forall i: nat | i < |plans| ensures !Stuck(s, plans, i) { FreeToGo(s, plans, i); }
    } else {
      HiddenStuck(s, plans);
    }
  }

  lemma SourcesDistinct(s: State, plans: seq<Plan>, temps: seq<string>)
    requires Given(s, plans, temps)
    ensures Distinct(SourcePaths(plans))
  {
    hide IndexOk, Assumed, Distinct, SourcesApart, ItemOk, TargetOk, Source;
  }

  lemma KeptName(s: State, plans: seq<Plan>, temps: seq<string>, i: nat)
    requires Given(s, plans, temps) && i < |plans|
    ensures plans[i].newName == OldName(plans[i]) <==> Target(plans[i]) == plans[i].path
  {
    hide Given, OldName, Home, PlainName;
    SameHomePath(s, plans, temps, i, i);
    if Target(plans[i]) == plans[i].path {
      JoinInjective(Home(plans[i]), OldName(plans[i]), Home(plans[i]), plans[i].newName);
    }
  }

  lemma IdleStuck(s: State, plans: seq<Plan>)
    requires !IdleVisible(s, plans)
    ensures exists i: nat :: i < |plans| && Stuck(s, plans, i)
  {
    hide Source, OldName, IsVisible;
    var i: nat :| 0 <= i < |plans| && plans[i].newName == OldName(plans[i]) && !IsVisible(s, Source(s, plans[i]));
    assert Stuck(s, plans, i);
  }

  lemma FreeToGo(s: State, plans: seq<Plan>, i: nat)
    requires i < |plans| && IdleVisible(s, plans) && NoHiddenFile(s, plans)
    requires plans[i].newName == OldName(plans[i]) <==> Target(plans[i]) == plans[i].path
    ensures !Stuck(s, plans, i)
  {
    hide Source, OldName, Home, IsVisible, IsBehind;
    if plans[i].newName != OldName(plans[i]) {
      forall j: nat, f: Id | j < |plans| && plans[j].path == Target(plans[i]) && Source(s, plans[j]).DirEntry? ensures !IsBehind(s, plans[j], f) {
        assert j in ToPark(plans);
        FileOfBehind(s, plans[j], f);
      }
    }
  }

  lemma FileOfBehind(s: State, p: Plan, f: Id)
    ensures IsBehind(s, p, f) ==> f in s.files
  {
  }

  lemma HiddenStuck(s: State, plans: seq<Plan>)
    requires !NoHiddenFile(s, plans) && Distinct(SourcePaths(plans))
    requires forall i: nat | i < |plans| :: plans[i].newName == OldName(plans[i]) <==> Target(plans[i]) == plans[i].path
    ensures exists i: nat :: i < |plans| && Stuck(s, plans, i)
  {
    hide Source, OldName, Home, IsVisible, IsBehind;
    var j, f :| j in ToPark(plans) && f in s.files && Source(s, plans[j]).DirEntry? && IsBehind(s, plans[j], f);
    var i: nat :| i < |plans| && i != j && Target(plans[i]) == plans[j].path;
    PathsDiffer(plans, i, j);
    NameMoves(plans, i, j);
    assert Stuck(s, plans, i);
  }

  lemma NameMoves(plans: seq<Plan>, i: nat, j: nat)
    requires i < |plans| && j < |plans| && i != j && Target(plans[i]) == plans[j].path && Distinct(SourcePaths(plans))
    ensures Target(plans[i]) != plans[i].path
  {
    PathsDiffer(plans, i, j);
  }

  lemma OnTrackParts(s: State, plans: seq<Plan>, temps: seq<string>, names: seq<string>, t: State)
    requires OnTrack(s, plans, temps, names, t)
    ensures |names| == |plans| == |temps| && Given(s, plans, temps) && IndexOk(t) && Renamed(s, plans, names, t) && Bearable(plans, temps, names)
  {
  }

  /** What the parking loop is handed: the conflicting items in some order. */
  ghost predicate IsOrder(order: seq<nat>, plans: seq<Plan>) {
    && (forall j | j in order :: j < |plans|)
    && (forall i, j | 0 <= i < j < |order| :: order[i] != order[j])
    && forall j: nat :: j in order <==> j in ToPark(plans)
  }

  function Elems(s: seq<nat>): set<nat> {
    set x | x in s
  }

  lemma NextToPark(order: seq<nat>, plans: seq<Plan>, n: nat)
    requires IsOrder(order, plans) && n < |order|
    ensures order[n] < |plans| && order[n] !in Elems(order[..n]) && Elems(order[..n + 1]) == Elems(order[..n]) + {order[n]}
  {
    assert order[n] in order;
    assert order[..n + 1] == order[..n] + [order[n]];
    hide ToPark;
  }

  lemma AllParked(order: seq<nat>, plans: seq<Plan>)
    requires IsOrder(order, plans)
    ensures Elems(order[..|order|]) == ToPark(plans) && Elems(order[..0]) == {}
  {
    hide ToPark;
  }

  method Park(svc: Service, plans: seq<Plan>, temps: seq<string>, order: seq<nat>, ghost s: State) returns (ok: bool)
    requires |temps| == |plans| && IsOrder(order, plans) && OnTrack(s, plans, temps, StageNames(plans, temps, {}, 0), svc.state)
    modifies svc
    ensures ok && OnTrack(s, plans, temps, StageNames(plans, temps, ToPark(plans), 0), svc.state)
  {
    hide *;
    ok := true;
    AllParked(order, plans);
    for n := 0 to |order|
      invariant ok && OnTrack(s, plans, temps, StageNames(plans, temps, Elems(order[..n]), 0), svc.state)
    {
      NextToPark(order, plans, n);
      ok := ParkItem(svc, plans, temps, order[n], s, Elems(order[..n]));
    }
  }

  method ParkItem(svc: Service, plans: seq<Plan>, temps: seq<string>, j: nat, ghost s: State, ghost parked: set<nat>) returns (ok: bool)
    requires j < |plans| == |temps| && j !in parked && OnTrack(s, plans, temps, StageNames(plans, temps, parked, 0), svc.state)
    modifies svc
    ensures ok && OnTrack(s, plans, temps, StageNames(plans, temps, parked + {j}, 0), svc.state)
  {
    hide *;
    ghost var names := StageNames(plans, temps, parked, 0);
    OnTrackParts(s, plans, temps, names, svc.state);
    GivenParts(s, plans, temps);
    ParkFree(s, plans, temps, parked, j);
    ParkedNames(plans, temps, parked, j);
    SameHomePath(s, plans, temps, j, j);
    var out := RenameSource(svc, plans, j, plans[j].path, temps[j], s, temps, names);
    ok := out == Succeeded;
  }

  method ApplyItem(svc: Service, plans: seq<Plan>, i: nat, temps: seq<string>, from: string, ghost s: State) returns (ok: bool)
    requires i < |plans| == |temps|
    requires OnTrack(s, plans, temps, StageNames(plans, temps, ToPark(plans), i), svc.state)
    requires from == if i in ToPark(plans) then Join(Home(plans[i]), temps[i]) else plans[i].path
    modifies svc
    ensures ok <==> !Stuck(s, plans, i)
    ensures ok ==> OnTrack(s, plans, temps, StageNames(plans, temps, ToPark(plans), i + 1), svc.state)
    ensures !ok ==> svc.state == old(svc.state)
  {
    hide *;
    ghost var names := StageNames(plans, temps, ToPark(plans), i);
    OnTrackParts(s, plans, temps, names, svc.state);
    GivenParts(s, plans, temps);
    AppliedNames(plans, temps, ToPark(plans), i);
    SameHomePath(s, plans, temps, i, i);
    if plans[i].newName == OldName(plans[i]) {
      KeepsName(s, plans, temps, svc.state, i);
      assert names[i := plans[i].newName] == names;
    } else if Stuck(s, plans, i) {
      StuckFails(s, plans, temps, svc.state, i);
      RenamesApart(plans, temps, i, from, names);
    } else {
      ApplyFree(s, plans, temps, i);
      RenameSucceeds(s, plans, temps, names, svc.state, i, plans[i].newName);
      RenamesApart(plans, temps, i, from, names);
    }
    ghost var t := svc.state;
    var out;
    ghost var steps;
    out, steps := svc.Rename(from, plans[i].newName);
    ok := out == Succeeded;
    if ok && plans[i].newName != OldName(plans[i]) {
      RenameKeepsTrack(s, plans, temps, names, t, svc.state, i, plans[i].newName);
    }
  }

  lemma RenamesApart(plans: seq<Plan>, temps: seq<string>, i: nat, from: string, names: seq<string>)
    requires i < |plans| == |temps| == |names| && names[i] == (if i in ToPark(plans) then temps[i] else OldName(plans[i]))
    requires from == if i in ToPark(plans) then Join(Home(plans[i]), temps[i]) else plans[i].path
    requires plans[i].path == Join(Home(plans[i]), OldName(plans[i]))
    ensures from == Join(Home(plans[i]), names[i])
  {
  }

  method ApplyAll(svc: Service, plans: seq<Plan>, temps: seq<string>, ghost s: State) returns (ok: bool)
    requires |plans| == |temps| && OnTrack(s, plans, temps, StageNames(plans, temps, ToPark(plans), 0), svc.state)
    modifies svc
    ensures ok <==> forall i: nat | i < |plans| :: !Stuck(s, plans, i)
    ensures ok ==> OnTrack(s, plans, temps, StageNames(plans, temps, ToPark(plans), |plans|), svc.state)
    ensures !ok ==> exists i: nat :: i < |plans| && OnTrack(s, plans, temps, StageNames(plans, temps, ToPark(plans), i), svc.state)
  {
    hide *;
    ok := true;
    var parked := ToPark(plans);
    for i := 0 to |plans|
      invariant ok && OnTrack(s, plans, temps, StageNames(plans, temps, parked, i), svc.state)
      invariant forall k: nat | k < i :: !Stuck(s, plans, k)
    {
      var from := if i in parked then Join(Home(plans[i]), temps[i]) else plans[i].path;
      ok := ApplyItem(svc, plans, i, temps, from, s);
      if !ok {
        return;
      }
    }
  }

  /** Parking and applying: whatever order items are parked in, every rename succeeds
      exactly when no file is behind a directory that has to make way and no upload in
      progress keeps its name. Then the tree becomes the one in which every source has its
      new name and nothing else has changed: all renames at once, chains, swaps and cycles
      included. */
  method Execute(svc: Service, plans: seq<Plan>, temps: seq<string>, order: seq<nat>) returns (ok: bool)
    requires IndexOk(svc.state) && Preflight(svc.state, plans) && |temps| == |plans| && Assumed(svc.state, plans, temps)
    requires IsOrder(order, plans)
    modifies svc
    ensures ok <==> NoHiddenFile(old(svc.state), plans) && IdleVisible(old(svc.state), plans)
    ensures ok ==> Renamed(old(svc.state), plans, NewNames(plans), svc.state)
    ensures IndexOk(svc.state)
  {
    ghost var s := svc.state;
    hide *;
    GivenFrom(s, plans, temps);
    StartOnTrack(s, plans, temps);
    NoneStuckIff(s, plans, temps);
    ok := Park(svc, plans, temps, order, s);
    ok := ApplyAll(svc, plans, temps, s);
    if ok {
      OnTrackParts(s, plans, temps, StageNames(plans, temps, ToPark(plans), |plans|), svc.state);
      AllApplied(plans, temps, ToPark(plans));
    } else {
      ghost var i: nat :| i < |plans| && OnTrack(s, plans, temps, StageNames(plans, temps, ToPark(plans), i), svc.state);
      OnTrackParts(s, plans, temps, StageNames(plans, temps, ToPark(plans), i), svc.state);
    }
  }

  lemma AllApplied(plans: seq<Plan>, temps: seq<string>, parked: set<nat>)
    requires |temps| == |plans|
    ensures StageNames(plans, temps, parked, |plans|) == NewNames(plans)
  {
  }

  /** The outcome is one tree: parents and names determine paths, so the renamed tables
      are those any other way of substituting the names would give. */
  lemma SubstitutionUnique(s: State, plans: seq<Plan>, names: seq<string>, t: State, u: State)
    requires Renamed(s, plans, names, t) && Renamed(s, plans, names, u) && IndexOk(t) && IndexOk(u)
    requires forall i | 0 <= i < |plans| :: Exists(s, Source(s, plans[i]))
    ensures t.dirs == u.dirs && t.files == u.files && t.segs == u.segs
  {
    hide IndexOk, Source, IsSource, NameOf;
    forall id | id in s.dirs ensures t.dirs[id].name == u.dirs[id].name {
      SameName(s, plans, names, t, u, DirEntry(id));
    }
    forall f | f in s.files ensures t.files[f] == u.files[f] {
      SameName(s, plans, names, t, u, FileEntry(f));
    }
    hide Renamed;
    SameTrees(t, u);
  }

  lemma SameName(s: State, plans: seq<Plan>, names: seq<string>, t: State, u: State, e: Entry)
    requires Renamed(s, plans, names, t) && Renamed(s, plans, names, u) && Exists(s, e)
    ensures NameOf(t, e) == NameOf(u, e)
    ensures e.DirEntry? ==> t.dirs[e.id].name == u.dirs[e.id].name
    ensures e.FileEntry? ==> t.files[e.f] == u.files[e.f]
  {
    hide Source;
    if IsSource(s, plans, e) {
      var i: nat :| 0 <= i < |plans| && Source(s, plans[i]) == e;
      assert NameOf(t, Source(s, plans[i])) == names[i] == NameOf(u, Source(s, plans[i]));
    }
  }

  lemma SameTrees(t: State, u: State)
    requires IndexOk(t) && IndexOk(u) && t.dirs.Keys == u.dirs.Keys
    requires forall id | id in t.dirs :: t.dirs[id].parent == u.dirs[id].parent && t.dirs[id].msg == u.dirs[id].msg && t.dirs[id].name == u.dirs[id].name
    ensures t.dirs == u.dirs
  {
    SameTable(t.dirs, u.dirs);
  }

  // ------------------------------------------------------------ batches that pass validation and fail

  lemma TopPath(name: string)
    requires PlainName(name)
    ensures Join(ROOT, name) == "/" + name && Parent("/" + name) == (ROOT, name) && "/" + name != ROOT
  {
    ParentOfJoin(ROOT, name);
  }

  lemma OneLetter(name: string)
    requires name == "a" || name == "b" || name == "c"
    ensures NameAllowed(name) && PlainName(name)
  {
    assert name[1..] == "";
  }

  lemma FileAtTop(s: State, f: Id, name: string)
    requires IndexOk(s) && f in s.files && s.files[f].dir == "" && s.files[f].name == name && PlainName(name)
    requires forall k | k in s.dirs :: s.dirs[k].path != "/" + name
    ensures EntryAt(s, "/" + name) == FileEntry(f)
  {
    TopPath(name);
    FileInIs(s, f);
  }

  /** An unfinished upload in the root of the drive. */
  function WithUpload(f: Id): State {
    State(map[], 1, map[], map[f := File("", "a", 0, 1, 1, Pending, "")], map[], {})
  }

  /** The batch that lets an upload in progress keep its name passes validation, and its
      only rename answers that there is no such file. */
  lemma UploadKeepsNameFails(f: Id)
    ensures IndexOk(WithUpload(f)) && Preflight(WithUpload(f), [Plan("/a", "a")])
    ensures RenameOutcome(WithUpload(f), "/a", "a") == ErrNotFound
  {
    UploadThere(f);
    OneLetter("a");
    TopPath("a");
    OneItem(WithUpload(f), Plan("/a", "a"));
    hide NameAllowed, Parent, EntryAt, IndexOk, Join, Preflight;
  }

  lemma UploadThere(f: Id)
    ensures IndexOk(WithUpload(f)) && EntryAt(WithUpload(f), "/a") == FileEntry(f) && !IsVisible(WithUpload(f), FileEntry(f))
  {
    OneLetter("a");
    hide NameAllowed, PlainName;
    FileAtTop(WithUpload(f), f, "a");
    hide EntryAt;
  }

  lemma OneItem(s: State, p: Plan)
    requires ItemOk(s, p) && Target(p) == p.path
    ensures Preflight(s, [p])
  {
    var plans := [p];
    hide ItemOk, Target, EntryAt;
    assert SourcePaths(plans)[0] == p.path;
    forall i | 0 <= i < |plans| ensures ItemOk(s, plans[i]) && TargetOk(s, plans, plans[i]) {
      assert plans[i] == p;
    }
  }

  /** Directories /a and /b, and a file that is also called /a. */
  function WithFileBehind(a: Id, b: Id, f: Id): State {
    State(map[], 1, map[a := Dir("", "a", "/a", 1), b := Dir("", "b", "/b", 2)],
          map[f := File("", "a", 0, 1, 1, Complete, "")], map[], {})
  }

  lemma DirAtTop(s: State, d: Id, name: string)
    requires IndexOk(s) && d in s.dirs && s.dirs[d].path == "/" + name
    ensures EntryAt(s, "/" + name) == DirEntry(d)
  {
    DirByPathIs(s.dirs, d);
  }

  lemma BehindIsSound(a: Id, b: Id, f: Id)
    requires a != "" && b != "" && a != b
    ensures IndexOk(WithFileBehind(a, b, f))
  {
    hide NameAllowed, PlainName, Parent, Join;
    OneLetter("a");
    OneLetter("b");
    TopPath("a");
    TopPath("b");
    var dirs := WithFileBehind(a, b, f).dirs;
    assert Linked(dirs, a) && Linked(dirs, b);
  }

  lemma NothingAtC(a: Id, b: Id, f: Id)
    ensures EntryAt(WithFileBehind(a, b, f), "/c").NoEntry?
  {
    OneLetter("c");
    TopPath("c");
    hide NameAllowed, Parent;
  }

  lemma BehindItems(a: Id, b: Id, f: Id)
    requires a != "" && b != "" && a != b
    ensures ItemOk(WithFileBehind(a, b, f), Plan("/b", "a")) && ItemOk(WithFileBehind(a, b, f), Plan("/a", "c"))
  {
    hide EntryAt, IndexOk, WithFileBehind;
    BehindIsSound(a, b, f);
    OneLetter("a");
    OneLetter("c");
    AtTop(a, b, f);
  }

  lemma AtTop(a: Id, b: Id, f: Id)
    requires a != "" && b != "" && a != b && IndexOk(WithFileBehind(a, b, f))
    ensures EntryAt(WithFileBehind(a, b, f), "/a") == DirEntry(a) && EntryAt(WithFileBehind(a, b, f), "/b") == DirEntry(b)
  {
    hide EntryAt, IndexOk;
    DirAtTop(WithFileBehind(a, b, f), a, "a");
    DirAtTop(WithFileBehind(a, b, f), b, "b");
  }

  lemma BehindPreflight(a: Id, b: Id, f: Id)
    requires a != "" && b != "" && a != b
    ensures Preflight(WithFileBehind(a, b, f), [Plan("/b", "a"), Plan("/a", "c")])
  {
    hide EntryAt, WithFileBehind, ItemOk, NameAllowed, PlainName;
    BehindItems(a, b, f);
    NothingAtC(a, b, f);
    OneLetter("a");
    OneLetter("b");
    OneLetter("c");
    TopPath("a");
    TopPath("b");
    TopPath("c");
    var plans := [Plan("/b", "a"), Plan("/a", "c")];
    assert SourcePaths(plans)[1] == "/a";
    assert Target(plans[0]) == "/a" && Target(plans[1]) == "/c";
    hide Parent, Join;
  }

  /** The batch that renames /b to a and /a to c passes validation; but once /a is parked,
      the file behind it is in the way of /b. */
  lemma FileBehindFails(a: Id, b: Id, f: Id, temp: string, t: State)
    requires a != "" && b != "" && a != b && HasNewName(WithFileBehind(a, b, f), t, DirEntry(a), temp)
    ensures Preflight(WithFileBehind(a, b, f), [Plan("/b", "a"), Plan("/a", "c")])
    ensures RenameOutcome(t, "/b", "a") == ErrExists
  {
    BehindPreflight(a, b, f);
    OneLetter("a");
    OneLetter("b");
    TopPath("b");
    assert f in t.files && t.files[f].dir == "" && t.files[f].name == "a" && "/b" != ROOT;
    assert Parent("/b") == (ROOT, "b") && Resolved(t.dirs, ROOT) == Some("");
    hide *;
    Occupied(t, "/b", "a", "", f);
  }
}
