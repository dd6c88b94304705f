/** The drive's operations on paths: what each checks, which mutations it takes, and what
    becomes of the tree (internal/drive/drive.go, ops.go). */
module DriveService {
  import opened Channel
  import opened Drive
  import opened DriveRuns
  import opened DriveSteps
  import opened Paths
  import opened TagCodec
  import opened Text
  import opened Tree

  datatype Outcome = Succeeded | ErrExists | ErrNotFound | ErrLoop | ErrName | ErrRoot

  /** What a path leads to; a directory hides a file of the same path. */
  datatype Entry = NoEntry | DirEntry(id: Id) | FileEntry(f: Id)

  /** CleanPath's results: the root, or a walk of valid names. */
  predicate IsCleanPath(path: string) {
    path == PathOf(SplitPath(path)) && forall n | n in SplitPath(path) :: NameAllowed(n)
  }

  /** What the schema guarantees of the index, whatever the captions say. */
  predicate IndexOk(s: State) {
    && Consistent(s.dirs)
    && (forall f | f in s.files :: s.files[f].dir == "" || s.files[f].dir in s.dirs)
    && forall f, g | f in s.files && g in s.files && s.files[f].dir == s.files[g].dir && s.files[f].name == s.files[g].name :: f == g
  }

  // ------------------------------------------------------------ looking things up

  /** DirByPath. */
  ghost function DirByPath(dirs: Dirs, path: string): Option<Id> {
    if exists id :: id in dirs && dirs[id].path == path then
      var id :| id in dirs && dirs[id].path == path; Some(id)
    else None
  }

  /** ResolveDir: the root has the empty id. */
  ghost function Resolved(dirs: Dirs, path: string): Option<Id> {
    if path == ROOT then Some("") else DirByPath(dirs, path)
  }

  /** FileInDir. */
  ghost function FileIn(files: Files, dir: Id, name: string): Option<Id> {
    if exists f :: f in files && files[f].dir == dir && files[f].name == name then
      var f :| f in files && files[f].dir == dir && files[f].name == name; Some(f)
    else None
  }

  ghost function EntryAt(s: State, path: string): Entry {
    match DirByPath(s.dirs, path)
    case Some(id) => DirEntry(id)
    case None =>
      match Resolved(s.dirs, Parent(path).0)
      case None => NoEntry
      case Some(p) =>
        match FileIn(s.files, p, Parent(path).1)
        case None => NoEntry
        case Some(f) => FileEntry(f)
  }

  /** Neither a directory nor a file has this name here. */
  predicate NameIsFree(s: State, dir: Id, name: string) {
    && (forall k | k in s.dirs :: !(s.dirs[k].parent == dir && s.dirs[k].name == name))
    && (forall f | f in s.files :: !(s.files[f].dir == dir && s.files[f].name == name))
  }

  lemma DirByPathIs(dirs: Dirs, id: Id)
    requires Consistent(dirs) && id in dirs
    ensures DirByPath(dirs, dirs[id].path) == Some(id)
  {
    PathsUnique(dirs);
  }

  lemma FileInIs(s: State, f: Id)
    requires IndexOk(s) && f in s.files
    ensures FileIn(s.files, s.files[f].dir, s.files[f].name) == Some(f)
  {
  }

  lemma CleanParts(path: string)
    requires IsCleanPath(path) && path != ROOT
    ensures var (parent, name) := Parent(path);
            && path == Join(parent, name) && NameAllowed(name) && PlainName(name)
            && IsCleanPath(parent) && parent != "" && SplitPath(path) == SplitPath(parent) + [name]
  {
    var names := SplitPath(path);
    forall n | n in names ensures PlainName(n) { AllowedIsEncodable(n); }
    var k := |names| - 1;
    assert names != [] && names == names[..k] + [names[k]];
    assert names[k] in names && forall n | n in names[..k] :: n in names;
    assert path == Join(PathOf(names[..k]), names[k]);
    hide *;
    PathNonEmpty(names[..k]);
    ParentOfJoin(PathOf(names[..k]), names[k]);
    SplitOfPath(names[..k]);
  }

  lemma PathNonEmpty(names: seq<string>)
    requires forall n | n in names :: PlainName(n)
    ensures PathOf(names) != ""
  {
    if names != [] { PathOfShape(names); }
  }

  /** A free name is a free path. */
  lemma FreePath(dirs: Dirs, parent: Id, name: string)
    requires Consistent(dirs) && (parent == "" || parent in dirs) && PlainName(name)
    requires forall k | k in dirs :: !(dirs[k].parent == parent && dirs[k].name == name)
    ensures forall k | k in dirs :: dirs[k].path != Join(DirPath(dirs, parent), name)
  {
    forall k | k in dirs ensures dirs[k].path != Join(DirPath(dirs, parent), name) {
      if dirs[k].path == Join(DirPath(dirs, parent), name) {
        ChildAt(dirs, k, parent, name);
      }
    }
  }

  lemma ChildAt(dirs: Dirs, k: Id, parent: Id, name: string)
    requires Consistent(dirs) && k in dirs && (parent == "" || parent in dirs) && PlainName(name)
    requires dirs[k].path == Join(DirPath(dirs, parent), name)
    ensures dirs[k].parent == parent && dirs[k].name == name
  {
    assert Linked(dirs, k);
    PathShape(dirs, k);
    if parent in dirs { PathShape(dirs, parent); }
    JoinInjective(DirPath(dirs, dirs[k].parent), dirs[k].name, DirPath(dirs, parent), name);
    if parent in dirs && dirs[k].parent in dirs { PathsUniqueAt(dirs, dirs[k].parent, parent); }
    if parent in dirs { PathShape(dirs, parent); }
    if dirs[k].parent in dirs { PathShape(dirs, dirs[k].parent); }
  }

  lemma ShorterNotInside(root: string, path: string)
    requires |path| <= |root| && root != ROOT
    ensures !IsDescendant(root, path)
  {
    assert |root + "/"| > |path|;
  }

  /** Renaming in place never moves a directory into itself. */
  lemma RenameIsRelocate(s: State, id: Id, newName: string)
    requires IndexOk(s) && id in s.dirs && NameAllowed(newName) && NameIsFree(s, s.dirs[id].parent, newName)
    ensures Enabled(s, RelocateDir(id, s.dirs[id].parent, newName))
  {
    var p := s.dirs[id].parent;
    assert Linked(s.dirs, id);
    PathShape(s.dirs, id);
    AllowedIsEncodable(newName);
    FreePath(s.dirs, p, newName);
    ShorterNotInside(s.dirs[id].path, DirPath(s.dirs, p));
  }

  // ------------------------------------------------------------ what the operations promise

  /** Only the messages may differ: captions, and nothing the index holds. */
  predicate SameIndex(s: State, t: State) {
    t.dirs == s.dirs && t.files == s.files && t.segs == s.segs && t.users == s.users
  }

  /** The entry, and nothing else, has the new name. */
  predicate HasNewName(s: State, t: State, e: Entry, newName: string) {
    && t.segs == s.segs && t.users == s.users
    && match e
       case NoEntry => false
       case DirEntry(id) =>
         && id in s.dirs && t.files == s.files
         && t.dirs == Relocate(s.dirs, id, s.dirs[id].parent, newName, Join(DirPath(s.dirs, s.dirs[id].parent), newName))
       case FileEntry(f) =>
         && f in s.files && t.dirs == s.dirs
         && t.files == s.files[f := s.files[f].(name := newName)]
  }

  /** What Rename answers. A rename to the same name only looks. */
  ghost function RenameOutcome(s: State, path: string, newName: string): Outcome {
    var (parent, name) := Parent(path);
    if !NameAllowed(newName) then ErrName
    else if path == ROOT then ErrRoot
    else if name == newName then (if IsVisible(s, EntryAt(s, path)) then Succeeded else ErrNotFound)
    else
      match Resolved(s.dirs, parent)
      case None => ErrNotFound
      case Some(p) =>
        if !NameIsFree(s, p, newName) then ErrExists
        else
          match EntryAt(s, path)
          case NoEntry => ErrNotFound
          case FileEntry(_) => Succeeded
          case DirEntry(id) =>
            if id in s.dirs && Accepted(s.dirs, id, s.dirs[id].parent, newName, Join(parent, newName)) then Succeeded else ErrExists
  }

  /** Stat hides a file that is still uploading. */
  predicate IsVisible(s: State, e: Entry) {
    match e
    case NoEntry => false
    case DirEntry(_) => true
    case FileEntry(f) => f in s.files && s.files[f].status != Pending
  }

  lemma ResolvedPath(s: State, path: string)
    requires Resolved(s.dirs, path).Some? && path != "" && Consistent(s.dirs)
    ensures var p := Resolved(s.dirs, path).value;
            (p == "" || p in s.dirs) && DirPath(s.dirs, p) == path
  {
  }

  /** Where the entry at a path lives. */
  lemma EntryHome(s: State, path: string)
    requires IndexOk(s) && IsCleanPath(path) && path != ROOT && Resolved(s.dirs, Parent(path).0).Some?
    ensures var p, e := Resolved(s.dirs, Parent(path).0).value, EntryAt(s, path);
            && (p == "" || p in s.dirs) && DirPath(s.dirs, p) == Parent(path).0
            && (e.DirEntry? ==> e.id in s.dirs && s.dirs[e.id].parent == p && s.dirs[e.id].name == Parent(path).1)
            && (e.FileEntry? ==> e.f in s.files && s.files[e.f].dir == p && s.files[e.f].name == Parent(path).1)
  {
    var (parentPath, name) := Parent(path);
    var e := EntryAt(s, path);
    assert Consistent(s.dirs);
    hide *;
    CleanParts(path);
    ResolvedPath(s, parentPath);
    EntryIs(s, path);
    if e.DirEntry? {
      ChildAt(s.dirs, e.id, Resolved(s.dirs, parentPath).value, name);
    }
  }

  lemma EntryIs(s: State, path: string)
    ensures var e := EntryAt(s, path);
            && (e.DirEntry? ==> e.id in s.dirs && s.dirs[e.id].path == path)
            && (e.FileEntry? ==>
                  && Resolved(s.dirs, Parent(path).0).Some? && e.f in s.files
                  && s.files[e.f].dir == Resolved(s.dirs, Parent(path).0).value && s.files[e.f].name == Parent(path).1)
  {
  }

  lemma FileRename(cls: CharClasses, s: State, f: Id, newName: string)
    requires IndexOk(s) && f in s.files && NameAllowed(newName) && NameIsFree(s, s.files[f].dir, newName)
    ensures Enabled(s, PlaceFile(f, s.files[f].dir, newName))
    ensures HasNewName(s, Apply(cls, s, PlaceFile(f, s.files[f].dir, newName)), FileEntry(f), newName)
  {
    hide Rewritten;
  }

  lemma DirRename(cls: CharClasses, s: State, id: Id, newName: string)
    requires IndexOk(s) && id in s.dirs && NameAllowed(newName) && NameIsFree(s, s.dirs[id].parent, newName)
    ensures Enabled(s, RelocateDir(id, s.dirs[id].parent, newName))
    ensures HasNewName(s, Apply(cls, s, RelocateDir(id, s.dirs[id].parent, newName)), DirEntry(id), newName)
    ensures id in Apply(cls, s, RelocateDir(id, s.dirs[id].parent, newName)).dirs
  {
    RenameIsRelocate(s, id, newName);
    RelocateKeepsRest(s.dirs, id, s.dirs[id].parent, newName, NewPath(s, s.dirs[id].parent, newName));
    hide Relocate, MayRelocate, DirCaption;
  }

  lemma HasNewNameThen(s: State, t: State, u: State, e: Entry, newName: string)
    requires HasNewName(s, t, e, newName) && SameIndex(t, u)
    ensures HasNewName(s, u, e, newName)
  {
  }

  // ------------------------------------------------------------ Mkdir

  /** Only directories were added, each on the way to the path. */
  ghost predicate Grown(s: State, t: State, path: string) {
    && t.files == s.files && t.segs == s.segs && t.users == s.users
    && (forall k | k in s.dirs :: k in t.dirs && t.dirs[k] == s.dirs[k])
    && (forall k | k in t.dirs && k !in s.dirs :: t.dirs[k].path == path || IsDescendant(t.dirs[k].path, path))
  }

  /** The first missing directory on the way to the path has the name of a file. */
  ghost predicate Blocked(s: State, path: string) {
    exists i :: 0 <= i < |SplitPath(path)| && BlockedAt(s, SplitPath(path), i)
  }

  ghost predicate BlockedAt(s: State, parts: seq<string>, i: nat)
    requires i < |parts|
  {
    && Resolved(s.dirs, PathOf(parts[..i])).Some? && Resolved(s.dirs, PathOf(parts[..i + 1])).None?
    && FileIn(s.files, Resolved(s.dirs, PathOf(parts[..i])).value, parts[i]).Some?
  }

  predicate FreshIds(s: State, ids: seq<Id>) {
    && (forall k | k in ids :: ValidID(k) && k !in s.dirs)
    && (forall i, j | 0 <= i < j < |ids| :: ids[i] != ids[j])
  }

  lemma NewDirOk(cls: CharClasses, s: State, id: Id, parent: Id, name: string)
    requires IndexOk(s) && ValidID(id) && id !in s.dirs && NameAllowed(name) && (parent == "" || parent in s.dirs)
    requires DirByPath(s.dirs, Join(DirPath(s.dirs, parent), name)) == None
    ensures Enabled(s, CreateDir(id, parent, name))
    ensures var t := Apply(cls, s, CreateDir(id, parent, name));
            && IndexOk(t) && t.dirs == s.dirs[id := NewDir(s, parent, name)]
            && t.files == s.files && t.segs == s.segs && t.users == s.users
            && Resolved(t.dirs, Join(DirPath(s.dirs, parent), name)) == Some(id)
  {
    var d := NewDir(s, parent, name);
    IdHasNoSlash(id);
    AllowedIsEncodable(name);
    NewDirLinked(s.dirs, id, d);
    NewDirName(s.dirs, id, d);
    DirByPathIs(s.dirs[id := d], id);
    JoinLonger(DirPath(s.dirs, parent), name);
    hide Linked, Consistent, DirCaption, NameAllowed, ValidID;
  }

  /** Mkdir's loop after i components, n of them created. */
  ghost predicate Walking(s: State, t: State, parts: seq<string>, i: nat, at: Id, n: nat, ids: seq<Id>) {
    && n <= i <= |parts| && n <= |ids|
    && IndexOk(t) && Grown(s, t, PathOf(parts[..i]))
    && Resolved(t.dirs, PathOf(parts[..i])) == Some(at)
    && (forall k | k in t.dirs :: k in s.dirs || k in ids[..n])
    && (n == 0 ==> t == s)
    && (n > 0 ==> at !in s.dirs && at in t.dirs && forall k | k in t.dirs :: t.dirs[k].parent != at)
    && (forall j | 0 <= j < i :: !BlockedAt(s, parts, j))
  }

  lemma WalkStart(s: State, parts: seq<string>, ids: seq<Id>)
    requires IndexOk(s)
    ensures Walking(s, s, parts, 0, "", 0, ids)
  {
    assert parts[..0] == [];
  }

  lemma NextPart(parts: seq<string>, i: nat)
    requires i < |parts| && forall p | p in parts :: NameAllowed(p)
    ensures PathOf(parts[..i + 1]) == Join(PathOf(parts[..i]), parts[i]) && PathOf(parts[..i + 1]) != ROOT && PathOf(parts[..i]) != ""
    ensures NameAllowed(parts[i]) && PlainName(parts[i])
  {
    assert parts[..i + 1][..i] == parts[..i] && parts[i] in parts;
    forall p | p in parts[..i] ensures PlainName(p) { assert p in parts; AllowedIsEncodable(p); }
    AllowedIsEncodable(parts[i]);
    PathNonEmpty(parts[..i]);
    JoinLonger(PathOf(parts[..i]), parts[i]);
  }

  /** What the walk stands on. */
  lemma WalkAt(s: State, t: State, parts: seq<string>, i: nat, at: Id, n: nat, ids: seq<Id>)
    requires Walking(s, t, parts, i, at, n, ids) && IndexOk(s) && i < |parts| && forall p | p in parts :: NameAllowed(p)
    ensures (at == "" || at in t.dirs) && DirPath(t.dirs, at) == PathOf(parts[..i])
    ensures n > 0 ==> DirByPath(t.dirs, PathOf(parts[..i + 1])) == None && FileIn(t.files, at, parts[i]) == None
    ensures n > 0 ==> Resolved(s.dirs, PathOf(parts[..i])) == None
  {
    NextPart(parts, i);
    ResolvedPath(t, PathOf(parts[..i]));
    assert "" !in t.dirs;
    if n > 0 {
      if k :| k in t.dirs && t.dirs[k].path == PathOf(parts[..i + 1]) {
        ChildAt(t.dirs, k, at, parts[i]);
      }
      PathShape(t.dirs, at);
      if k :| k in s.dirs && s.dirs[k].path == PathOf(parts[..i]) {
        PathsUniqueAt(t.dirs, k, at);
      }
    }
  }

  lemma WalkIndexOk(s: State, t: State, parts: seq<string>, i: nat, at: Id, n: nat, ids: seq<Id>)
    requires Walking(s, t, parts, i, at, n, ids)
    ensures IndexOk(t) && Consistent(t.dirs) && Grown(s, t, PathOf(parts[..i])) && Resolved(t.dirs, PathOf(parts[..i])) == Some(at)
    ensures forall j | 0 <= j < i :: !BlockedAt(s, parts, j)
  {
  }

  lemma WalkExisting(s: State, t: State, parts: seq<string>, i: nat, at: Id, n: nat, ids: seq<Id>, id: Id)
    requires Walking(s, t, parts, i, at, n, ids) && IndexOk(s) && i < |parts| && forall p | p in parts :: NameAllowed(p)
    requires DirByPath(t.dirs, PathOf(parts[..i + 1])) == Some(id)
    ensures Walking(s, t, parts, i + 1, id, n, ids)
  {
    NextPart(parts, i);
    WalkAt(s, t, parts, i, at, n, ids);
    hide IndexOk, DirByPath, FileIn, NameAllowed;
    assert !BlockedAt(s, parts, i);
  }

  lemma WalkBlocked(s: State, t: State, parts: seq<string>, i: nat, at: Id, n: nat, ids: seq<Id>)
    requires Walking(s, t, parts, i, at, n, ids) && IndexOk(s) && i < |parts| && forall p | p in parts :: NameAllowed(p)
    requires DirByPath(t.dirs, PathOf(parts[..i + 1])) == None && FileIn(t.files, at, parts[i]).Some?
    ensures t == s && BlockedAt(s, parts, i)
  {
    NextPart(parts, i);
    WalkAt(s, t, parts, i, at, n, ids);
  }

  lemma WalkCreate(cls: CharClasses, s: State, t: State, parts: seq<string>, i: nat, at: Id, n: nat, ids: seq<Id>)
    requires Walking(s, t, parts, i, at, n, ids) && IndexOk(s) && i < |parts| && forall p | p in parts :: NameAllowed(p)
    requires DirByPath(t.dirs, PathOf(parts[..i + 1])) == None && FileIn(t.files, at, parts[i]) == None
    requires FreshIds(s, ids) && n < |ids|
    ensures Enabled(t, CreateDir(ids[n], at, parts[i]))
    ensures Walking(s, Apply(cls, t, CreateDir(ids[n], at, parts[i])), parts, i + 1, ids[n], n + 1, ids)
  {
    var id := ids[n];
    WalkIndexOk(s, t, parts, i, at, n, ids);
    NewIdFresh(s, t, parts, i, at, n, ids);
    NextPart(parts, i);
    WalkAt(s, t, parts, i, at, n, ids);
    WalkNotBlocked(s, t, parts, i, at, n, ids);
    assert AllLinked(t.dirs);
    hide *;
    NewDirOk(cls, t, id, at, parts[i]);
    var u := Apply(cls, t, CreateDir(id, at, parts[i]));
    GrownMore(s, t, u, PathOf(parts[..i]), parts[i], id, at);
    WalkCreated(s, t, u, parts, i, at, n, ids);
  }

  lemma WalkCreated(s: State, t: State, u: State, parts: seq<string>, i: nat, at: Id, n: nat, ids: seq<Id>)
    requires n <= i < |parts| && n < |ids| && ids[n] !in t.dirs && IndexOk(u) && Grown(s, u, PathOf(parts[..i + 1]))
    requires u.dirs == t.dirs[ids[n] := NewDir(t, at, parts[i])] && at != ids[n] && ids[n] !in s.dirs
    requires Resolved(u.dirs, PathOf(parts[..i + 1])) == Some(ids[n])
    requires forall k | k in t.dirs :: t.dirs[k].parent != ids[n] && (k in s.dirs || k in ids[..n])
    requires forall j | 0 <= j < i + 1 :: !BlockedAt(s, parts, j)
    ensures Walking(s, u, parts, i + 1, ids[n], n + 1, ids)
  {
    hide IndexOk, Grown, Resolved, BlockedAt, Join;
    assert ids[..n + 1] == ids[..n] + [ids[n]];
  }

  lemma NewIdFresh(s: State, t: State, parts: seq<string>, i: nat, at: Id, n: nat, ids: seq<Id>)
    requires Walking(s, t, parts, i, at, n, ids) && FreshIds(s, ids) && n < |ids|
    ensures ValidID(ids[n]) && ids[n] !in s.dirs && ids[n] !in t.dirs && at != ids[n]
    ensures forall k | k in t.dirs :: t.dirs[k].parent != ids[n] && (k in s.dirs || k in ids[..n])
  {
    var id := ids[n];
    assert id in ids && id !in ids[..n];
    IdHasNoSlash(id);
    forall k | k in t.dirs ensures t.dirs[k].parent != id { assert Linked(t.dirs, k); }
    hide IndexOk, Grown;
  }

  lemma WalkNotBlocked(s: State, t: State, parts: seq<string>, i: nat, at: Id, n: nat, ids: seq<Id>)
    requires Walking(s, t, parts, i, at, n, ids) && i < |parts|
    requires FileIn(t.files, at, parts[i]) == None
    requires n > 0 ==> Resolved(s.dirs, PathOf(parts[..i])) == None
    ensures forall j | 0 <= j < i + 1 :: !BlockedAt(s, parts, j)
  {
    hide IndexOk, Grown, Resolved, FileIn;
  }

  lemma GrownMore(s: State, t: State, u: State, at: string, name: string, id: Id, parent: Id)
    requires Grown(s, t, at) && at != "" && PlainName(name) && id !in t.dirs
    requires parent == "" || parent in t.dirs
    requires DirPath(t.dirs, parent) == at
    requires u.dirs == t.dirs[id := NewDir(t, parent, name)] && u.files == t.files && u.segs == t.segs && u.users == t.users
    requires AllLinked(t.dirs)
    ensures Grown(s, u, Join(at, name))
  {
    forall k | k in u.dirs && k !in s.dirs ensures u.dirs[k].path == Join(at, name) || IsDescendant(u.dirs[k].path, Join(at, name)) {
      if k != id {
        PathShape(t.dirs, k);
        DescendantOfJoin(t.dirs[k].path, at, name);
      }
    }
  }

  // ------------------------------------------------------------ Move

  /** The entry keeps its name and lives in the target; nothing else has moved. */
  predicate HasNewHome(s: State, t: State, e: Entry, target: Id) {
    && t.segs == s.segs && t.users == s.users
    && match e
       case NoEntry => false
       case DirEntry(id) =>
         && id in s.dirs && t.files == s.files
         && t.dirs == Relocate(s.dirs, id, target, s.dirs[id].name, Join(DirPath(s.dirs, target), s.dirs[id].name))
       case FileEntry(f) =>
         && f in s.files && t.dirs == s.dirs
         && t.files == s.files[f := s.files[f].(dir := target)]
  }

  predicate IsLoop(from: string, toDir: string) {
    IsDescendant(from, toDir) || from == toDir
  }

  lemma PathEntry(s: State, from: string)
    requires IndexOk(s) && IsCleanPath(from) && from != ROOT
    ensures var e := EntryAt(s, from);
            && (e.DirEntry? ==> e.id in s.dirs && s.dirs[e.id].path == from && s.dirs[e.id].name == Parent(from).1)
            && (e.FileEntry? ==> e.f in s.files && s.files[e.f].name == Parent(from).1)
  {
    EntryIs(s, from);
    if EntryAt(s, from).DirEntry? {
      var id := EntryAt(s, from).id;
      assert Linked(s.dirs, id);
      PathShape(s.dirs, id);
      ParentOfJoin(DirPath(s.dirs, s.dirs[id].parent), s.dirs[id].name);
    }
  }

  lemma DirMove(cls: CharClasses, s: State, id: Id, target: Id)
    requires IndexOk(s) && id in s.dirs && (target == "" || target in s.dirs) && NameAllowed(s.dirs[id].name)
    requires NameIsFree(s, target, s.dirs[id].name) && !IsLoop(s.dirs[id].path, DirPath(s.dirs, target))
    ensures Enabled(s, RelocateDir(id, target, s.dirs[id].name))
    ensures HasNewHome(s, Apply(cls, s, RelocateDir(id, target, s.dirs[id].name)), DirEntry(id), target)
    ensures id in Apply(cls, s, RelocateDir(id, target, s.dirs[id].name)).dirs
  {
    MoveIsRelocate(s, id, target);
    RelocateKeepsRest(s.dirs, id, target, s.dirs[id].name, NewPath(s, target, s.dirs[id].name));
    hide Relocate, DirCaption, NameAllowed, Consistent, Join, MayRelocate, Edited, NameIsFree, IsLoop;
  }

  lemma MoveIsRelocate(s: State, id: Id, target: Id)
    requires IndexOk(s) && id in s.dirs && (target == "" || target in s.dirs) && NameAllowed(s.dirs[id].name)
    requires NameIsFree(s, target, s.dirs[id].name) && !IsLoop(s.dirs[id].path, DirPath(s.dirs, target))
    ensures Enabled(s, RelocateDir(id, target, s.dirs[id].name))
  {
    AllowedIsEncodable(s.dirs[id].name);
    FreePath(s.dirs, target, s.dirs[id].name);
    hide NameAllowed, Consistent, Join;
  }

  lemma FileMove(cls: CharClasses, s: State, f: Id, target: Id)
    requires IndexOk(s) && f in s.files && NameAllowed(s.files[f].name) && NameIsFree(s, target, s.files[f].name)
    requires target == "" || target in s.dirs
    ensures Enabled(s, PlaceFile(f, target, s.files[f].name))
    ensures HasNewHome(s, Apply(cls, s, PlaceFile(f, target, s.files[f].name)), FileEntry(f), target)
  {
    hide Rewritten;
  }

  lemma HasNewHomeThen(s: State, t: State, u: State, e: Entry, target: Id)
    requires HasNewHome(s, t, e, target) && SameIndex(t, u)
    ensures HasNewHome(s, u, e, target)
  {
  }

  /** Directories made on the way to a path hide no entry outside it. */
  lemma GrownEntry(s: State, t: State, toDir: string, from: string)
    requires IndexOk(s) && IndexOk(t) && Grown(s, t, toDir) && !IsLoop(from, toDir) && IsCleanPath(from) && from != ROOT
    ensures EntryAt(t, from) == EntryAt(s, from)
  {
    var parent := Parent(from).0;
    assert "" !in t.dirs && t.files == s.files && Consistent(s.dirs) && Consistent(t.dirs);
    assert forall k | k in s.dirs :: k in t.dirs && t.dirs[k] == s.dirs[k];
    hide *;
    GrownDir(s, t, from);
    GrownDir(s, t, parent);
    if DirByPath(s.dirs, parent) == None && DirByPath(t.dirs, parent).Some? {
    }
    SameLookups(s, t, from);
  }

  lemma SameLookups(s: State, t: State, path: string)
    requires DirByPath(t.dirs, path) == DirByPath(s.dirs, path) && t.files == s.files
    requires var parent := Parent(path).0;
             || DirByPath(t.dirs, parent) == DirByPath(s.dirs, parent)
             || (DirByPath(s.dirs, parent) == None && DirByPath(t.dirs, parent).Some?
                 && FileIn(t.files, DirByPath(t.dirs, parent).value, Parent(path).1) == None)
    ensures EntryAt(t, path) == EntryAt(s, path)
  {
    hide DirByPath, FileIn, Parent;
  }

  lemma GrownDir(s: State, t: State, path: string)
    requires Consistent(s.dirs) && Consistent(t.dirs) && forall k | k in s.dirs :: k in t.dirs && t.dirs[k] == s.dirs[k]
    ensures DirByPath(s.dirs, path).Some? ==> DirByPath(t.dirs, path) == DirByPath(s.dirs, path)
    ensures DirByPath(t.dirs, path).Some? && DirByPath(s.dirs, path) == None ==> DirByPath(t.dirs, path).value !in s.dirs
  {
    if DirByPath(s.dirs, path).Some? {
      var k := DirByPath(s.dirs, path).value;
      DirByPathIs(t.dirs, k);
    }
  }

  lemma CleanNonEmpty(path: string)
    requires IsCleanPath(path)
    ensures path != ""
  {
    forall n | n in SplitPath(path) ensures PlainName(n) { AllowedIsEncodable(n); }
    PathNonEmpty(SplitPath(path));
  }

  // ------------------------------------------------------------ where the entry is afterwards

  /** A relocated directory is found at its new path, and no longer at the old one. */
  lemma RelocatedThere(s: State, t: State, id: Id, parent: Id, name: string, newPath: string)
    requires Consistent(s.dirs) && MayRelocate(s.dirs, id, parent, name, newPath) && NoCaseTwin(s.dirs, id, newPath)
    requires t.dirs == Relocate(s.dirs, id, parent, name, newPath)
    ensures EntryAt(t, newPath) == DirEntry(id) != EntryAt(t, s.dirs[id].path)
  {
    AcceptedIff(s.dirs, id, parent, name, newPath);
    SwappedRow(s.dirs, id, parent, name, newPath, id);
    hide Relocate, NoCaseTwin, Consistent, Join, IsDescendant, FileIn, Parent;
    DirByPathIs(t.dirs, id);
    EntryIs(t, s.dirs[id].path);
  }

  /** And so is a file. */
  lemma PlacedThere(s: State, t: State, f: Id, dirPath: string, dir: Id, name: string, from: string)
    requires IndexOk(s) && f in s.files && t.dirs == s.dirs && t.files == s.files[f := s.files[f].(dir := dir, name := name)]
    requires Resolved(s.dirs, dirPath) == Some(dir) && dirPath != "" && PlainName(name) && NameIsFree(s, dir, name)
    requires EntryAt(s, from) == FileEntry(f)
    ensures EntryAt(t, Join(dirPath, name)) == FileEntry(f) != EntryAt(t, from)
  {
    ResolvedPath(s, dirPath);
    FreePath(s.dirs, dir, name);
    assert DirByPath(t.dirs, Join(dirPath, name)) == None;
    ParentOfJoin(dirPath, name);
    EntryIs(s, from);
    EntryIs(t, from);
    OnlyOneNamed(t, f);
    hide Consistent, Join, Parent, DirByPath, IndexOk, FileIn;
  }

  lemma OnlyOneNamed(t: State, f: Id)
    requires f in t.files
    requires forall g | g in t.files && t.files[g].dir == t.files[f].dir && t.files[g].name == t.files[f].name :: g == f
    ensures FileIn(t.files, t.files[f].dir, t.files[f].name) == Some(f)
  {
  }

  /** Every directory is found at its path, and every file at its own unless a directory is
      in front of it. */
  lemma EntryFound(s: State)
    requires IndexOk(s)
    ensures forall id | id in s.dirs :: EntryAt(s, s.dirs[id].path) == DirEntry(id)
    ensures forall f | f in s.files && PlainName(s.files[f].name) ::
              var path := Join(DirPath(s.dirs, s.files[f].dir), s.files[f].name);
              (forall k | k in s.dirs :: s.dirs[k].path != path) ==> EntryAt(s, path) == FileEntry(f)
  {
    forall id | id in s.dirs ensures EntryAt(s, s.dirs[id].path) == DirEntry(id) { DirByPathIs(s.dirs, id); }
    forall f | f in s.files && PlainName(s.files[f].name)
      ensures var path := Join(DirPath(s.dirs, s.files[f].dir), s.files[f].name);
              (forall k | k in s.dirs :: s.dirs[k].path != path) ==> EntryAt(s, path) == FileEntry(f)
    {
      FileHome(s, f);
      FileInIs(s, f);
      hide IndexOk, Consistent, Join, Parent, FileIn, PlainName;
    }
  }

  lemma FileHome(s: State, f: Id)
    requires IndexOk(s) && f in s.files && PlainName(s.files[f].name)
    ensures var dir, name := s.files[f].dir, s.files[f].name;
            && Parent(Join(DirPath(s.dirs, dir), name)) == (DirPath(s.dirs, dir), name)
            && Resolved(s.dirs, DirPath(s.dirs, dir)) == Some(dir)
  {
    var dir := s.files[f].dir;
    if dir != "" {
      PathShape(s.dirs, dir);
      DirByPathIs(s.dirs, dir);
    }
    hide Consistent;
    ParentOfJoin(DirPath(s.dirs, dir), s.files[f].name);
  }

  /** A name is free in a directory exactly when nothing is found at its path. */
  lemma NameFreeIff(s: State, dir: Id, name: string)
    requires IndexOk(s) && (dir == "" || dir in s.dirs) && PlainName(name)
    ensures NameIsFree(s, dir, name) <==> EntryAt(s, Join(DirPath(s.dirs, dir), name)).NoEntry?
  {
    var path := Join(DirPath(s.dirs, dir), name);
    EntryIs(s, path);
    if k :| k in s.dirs && s.dirs[k].parent == dir && s.dirs[k].name == name {
      assert Linked(s.dirs, k);
      DirByPathIs(s.dirs, k);
    } else if f :| f in s.files && s.files[f].dir == dir && s.files[f].name == name {
      EntryFound(s);
      if k :| k in s.dirs && s.dirs[k].path == path { DirByPathIs(s.dirs, k); }
    } else {
      FreePath(s.dirs, dir, name);
      DirAtHome(s, dir);
      ParentOfJoin(DirPath(s.dirs, dir), name);
    }
    hide Consistent, Join, Parent, PlainName;
  }

  lemma DirAtHome(s: State, dir: Id)
    requires IndexOk(s) && (dir == "" || dir in s.dirs)
    ensures Resolved(s.dirs, DirPath(s.dirs, dir)) == Some(dir) && DirPath(s.dirs, dir) != ""
  {
    if dir != "" {
      PathShape(s.dirs, dir);
      DirByPathIs(s.dirs, dir);
    }
    hide Consistent;
  }

  /** `LIKE` takes no foreign row of the directory along, nor its new path. */
  predicate Untwinned(s: State, e: Entry, newPath: string) {
    e.DirEntry? && e.id in s.dirs ==> NoCaseTwin(s.dirs, e.id, newPath)
  }

  lemma MovedEntry(s: State, t: State, from: string, toDir: string, target: Id)
    requires IndexOk(s) && IsCleanPath(from) && from != ROOT && toDir != "" && !IsLoop(from, toDir)
    requires Resolved(s.dirs, toDir) == Some(target) && NameIsFree(s, target, Parent(from).1)
    requires HasNewHome(s, t, EntryAt(s, from), target) && Untwinned(s, EntryAt(s, from), Join(toDir, Parent(from).1))
    ensures EntryAt(t, Join(toDir, Parent(from).1)) == EntryAt(s, from) != EntryAt(t, from)
  {
    var e := EntryAt(s, from);
    CleanParts(from);
    PathEntry(s, from);
    ResolvedPath(s, toDir);
    match e
    case DirEntry(id) =>
      MoveIsRelocate(s, id, target);
      hide *;
      RelocatedThere(s, t, id, target, s.dirs[id].name, Join(toDir, Parent(from).1));
    case FileEntry(f) =>
      hide *;
      PlacedThere(s, t, f, toDir, target, s.files[f].name, from);
    case NoEntry =>
  }

  /** What follows for the whole operation. */
  lemma MoveAnswers(s: State, t: State, from: string, toDir: string, target: Id, out: Outcome)
    requires IndexOk(s) && IsCleanPath(from) && from != ROOT && toDir != "" && !IsLoop(from, toDir)
    requires Resolved(s.dirs, toDir) == Some(target)
    requires out == Succeeded ==> NameIsFree(s, target, Parent(from).1) && HasNewHome(s, t, EntryAt(s, from), target)
    ensures DirPath(s.dirs, target) == toDir
    ensures EntryAt(s, from).DirEntry? ==> EntryAt(s, from).id in s.dirs
    ensures EntryAt(s, from).DirEntry? && NameIsFree(s, target, Parent(from).1)
            && Untwinned(s, EntryAt(s, from), Join(toDir, Parent(from).1)) ==>
              UniquePaths(Relocate(s.dirs, EntryAt(s, from).id, target, Parent(from).1, Join(toDir, Parent(from).1)))
    ensures out == Succeeded && Untwinned(s, EntryAt(s, from), Join(toDir, Parent(from).1)) ==>
              EntryAt(t, Join(toDir, Parent(from).1)) == EntryAt(s, from) != EntryAt(t, from)
  {
    var e, path := EntryAt(s, from), Join(toDir, Parent(from).1);
    CleanParts(from);
    PathEntry(s, from);
    ResolvedPath(s, toDir);
    if out == Succeeded && Untwinned(s, e, path) { MovedEntry(s, t, from, toDir, target); }
    if e.DirEntry? && NameIsFree(s, target, Parent(from).1) && Untwinned(s, e, path) {
      MoveIsRelocate(s, e.id, target);
      AcceptedIff(s.dirs, e.id, target, Parent(from).1, path);
    }
    hide *;
  }

  lemma RenamedEntry(s: State, t: State, path: string, newName: string)
    requires IndexOk(s) && IsCleanPath(path) && path != ROOT && NameAllowed(newName)
    requires Resolved(s.dirs, Parent(path).0).Some? && NameIsFree(s, Resolved(s.dirs, Parent(path).0).value, newName)
    requires HasNewName(s, t, EntryAt(s, path), newName) && Untwinned(s, EntryAt(s, path), Join(Parent(path).0, newName))
    ensures EntryAt(t, Join(Parent(path).0, newName)) == EntryAt(s, path) != EntryAt(t, path)
  {
    var e := EntryAt(s, path);
    CleanParts(path);
    PathEntry(s, path);
    EntryHome(s, path);
    AllowedIsEncodable(newName);
    match e
    case DirEntry(id) =>
      RenameIsRelocate(s, id, newName);
      hide *;
      RelocatedThere(s, t, id, s.dirs[id].parent, newName, Join(Parent(path).0, newName));
    case FileEntry(f) =>
      hide *;
      PlacedThere(s, t, f, Parent(path).0, s.files[f].dir, newName, path);
    case NoEntry =>
  }

  /** The outcome of a rename, without its function. */
  lemma RenameAnswers(s: State, t: State, path: string, newName: string)
    requires IndexOk(s) && IsCleanPath(path)
    requires RenameOutcome(s, path, newName) == Succeeded && newName != Parent(path).1 ==>
               HasNewName(s, t, EntryAt(s, path), newName)
    ensures var out := RenameOutcome(s, path, newName);
            && (out == ErrName <==> !NameAllowed(newName))
            && (NameAllowed(newName) ==> (out == ErrRoot <==> path == ROOT))
            && (NameAllowed(newName) && path != ROOT && newName == Parent(path).1 ==>
                  out == if IsVisible(s, EntryAt(s, path)) then Succeeded else ErrNotFound)
            && (NameAllowed(newName) && path != ROOT && newName != Parent(path).1 ==>
                  match Resolved(s.dirs, Parent(path).0)
                  case None => out == ErrNotFound
                  case Some(p) =>
                    if !NameIsFree(s, p, newName) then out == ErrExists
                    else
                      match EntryAt(s, path)
                      case NoEntry => out == ErrNotFound
                      case FileEntry(_) => out == Succeeded
                      case DirEntry(id) =>
                        && id in s.dirs && (out == Succeeded || out == ErrExists)
                        && (out == Succeeded <==> UniquePaths(Relocate(s.dirs, id, p, newName, Join(Parent(path).0, newName))))
                        && (Untwinned(s, DirEntry(id), Join(Parent(path).0, newName)) ==> out == Succeeded))
    ensures RenameOutcome(s, path, newName) == Succeeded && newName != Parent(path).1
            && Untwinned(s, EntryAt(s, path), Join(Parent(path).0, newName)) ==>
              EntryAt(t, Join(Parent(path).0, newName)) == EntryAt(s, path) != EntryAt(t, path)
  {
    hide NameAllowed, IsVisible, NameIsFree, Accepted, Relocate, UniquePaths, Untwinned, HasNewName, EntryAt, IndexOk, Join, Parent;
    if NameAllowed(newName) && path != ROOT && newName != Parent(path).1 && Resolved(s.dirs, Parent(path).0).Some?
       && NameIsFree(s, Resolved(s.dirs, Parent(path).0).value, newName) {
      RenameAccepted(s, path, newName);
      if RenameOutcome(s, path, newName) == Succeeded && Untwinned(s, EntryAt(s, path), Join(Parent(path).0, newName)) {
        RenamedEntry(s, t, path, newName);
      }
    }
  }

  lemma RenameAccepted(s: State, path: string, newName: string)
    requires IndexOk(s) && IsCleanPath(path) && path != ROOT && NameAllowed(newName)
    requires Resolved(s.dirs, Parent(path).0).Some? && NameIsFree(s, Resolved(s.dirs, Parent(path).0).value, newName)
    ensures EntryAt(s, path).DirEntry? ==>
              var id, p, newPath := EntryAt(s, path).id, Resolved(s.dirs, Parent(path).0).value, Join(Parent(path).0, newName);
              && id in s.dirs && s.dirs[id].parent == p
              && (Accepted(s.dirs, id, p, newName, newPath) <==> UniquePaths(Relocate(s.dirs, id, p, newName, newPath)))
              && (Untwinned(s, EntryAt(s, path), newPath) ==> Accepted(s.dirs, id, p, newName, newPath))
  {
    hide EntryAt, Accepted, Relocate, UniquePaths, NameAllowed, Parent, Join, NameIsFree;
    EntryHome(s, path);
    if EntryAt(s, path).DirEntry? {
      var id := EntryAt(s, path).id;
      RenameIsRelocate(s, id, newName);
      AcceptedIff(s.dirs, id, s.dirs[id].parent, newName, Join(Parent(path).0, newName));
    }
  }

  // ------------------------------------------------------------ Delete

  /** The entry is gone with everything below it, and nothing else is. */
  ghost predicate IsGone(s: State, t: State, e: Entry) {
    match e
    case NoEntry => false
    case DirEntry(id) =>
      && id in s.dirs
      && (forall k | k in s.dirs :: k !in t.dirs <==> k == id || IsDescendant(s.dirs[id].path, s.dirs[k].path))
      && (forall k | k in t.dirs :: k in s.dirs && t.dirs[k] == s.dirs[k])
      && (forall f | f in s.files :: f !in t.files <==> s.files[f].dir in s.dirs && s.files[f].dir !in t.dirs)
      && (forall f | f in t.files :: f in s.files && t.files[f] == s.files[f])
      && (forall k :: k in t.segs <==> k in s.segs && (k.0 in t.files || k.0 !in s.files))
    case FileEntry(f) =>
      && f in s.files && t.dirs == s.dirs && t.files == s.files - {f}
      && (forall k :: k in t.segs <==> k in s.segs && k.0 != f)
  }

  lemma DirGone(cls: CharClasses, s: State, id: Id)
    requires IndexOk(s) && id in s.dirs
    ensures Enabled(s, DeleteDir(id)) && IsGone(s, Apply(cls, s, DeleteDir(id)), DirEntry(id))
  {
    CascadeIsSubtree(s.dirs, id);
    hide Cascade, SubtreeRows, MessagesUnder, Consistent, IsDescendant;
  }

  lemma FileGone(cls: CharClasses, s: State, f: Id)
    requires f in s.files
    ensures Enabled(s, DeleteFile(f)) && IsGone(s, Apply(cls, s, DeleteFile(f)), FileEntry(f))
  {
  }

  // ------------------------------------------------------------ captions below a directory

  predicate MessagesApart(segs: Segs) {
    forall j, k | j in segs && k in segs && segs[j].msg == segs[k].msg :: j == k
  }

  function Below(dirs: Dirs, id: Id): set<Id>
    requires id in dirs
  {
    set k | k in dirs && (k == id || IsDescendant(dirs[id].path, dirs[k].path))
  }

  /** The current message of every landed segment carries the caption of the present path. */
  ghost predicate Captioned(cls: CharClasses, s: State, f: Id)
    requires f in s.files
  {
    forall i | (f, i) in s.segs && s.segs[(f, i)].msg in s.msgs ::
      s.msgs[s.segs[(f, i)].msg].caption == FileCaption(cls, s.dirs, f, s.files[f], i)
  }

  ghost predicate AllCaptioned(cls: CharClasses, s: State, id: Id) {
    id in s.dirs && forall f | f in FilesUnder(s.files, Below(s.dirs, id)) :: Captioned(cls, s, f)
  }

  /** A refresh brings its file's captions up to date and leaves those of others. */
  lemma RefreshCaptioned(cls: CharClasses, s: State, f: Id, g: Id)
    requires f in s.files && g in s.files && MessagesApart(s.segs) && (g == f || Captioned(cls, s, g))
    ensures Captioned(cls, Apply(cls, s, RefreshCaptions(f)), g)
  {
    var t := Apply(cls, s, RefreshCaptions(f));
    hide FileCaption;
    forall i | (g, i) in s.segs && s.segs[(g, i)].msg in t.msgs
      ensures t.msgs[s.segs[(g, i)].msg].caption == FileCaption(cls, s.dirs, g, s.files[g], i)
    {
      var m := s.segs[(g, i)].msg;
      assert m in FileMessages(s.segs, g);
      if m in FileMessages(s.segs, f) { assert (f, LastIndex(s.segs, f, m)) == (g, i); }
    }
  }

  lemma RowsApart(s: State)
    requires Inv(s)
    ensures MessagesApart(s.segs)
  {
    forall j, k | j in s.segs && k in s.segs && s.segs[j].msg == s.segs[k].msg ensures j == k {
      assert SegOk(s.msgs, s.files, s.segs, j.0, j.1) && SegOk(s.msgs, s.files, s.segs, k.0, k.1);
    }
    hide TreeOk, FilesOk, DirMsgsOk, RecordIn;
  }

  lemma NoSteps(cls: CharClasses, s: State)
    ensures IsRun(cls, s, []) && AfterRun(cls, s, []) == s && AllClean(cls, s, [])
  {
  }

  /** Clean steps keep the channel and the index in step. */
  lemma KeepsInv(cls: CharClasses, s: State, steps: seq<Step>)
    requires IsRun(cls, s, steps)
    ensures Inv(s) && Sane(cls) && AllClean(cls, s, steps) ==> Inv(AfterRun(cls, s, steps))
  {
    hide *;
    if Inv(s) && Sane(cls) && AllClean(cls, s, steps) {
      RunKeepsInv(cls, s, steps);
    }
  }

  /** The service: its index and its channel. */
  class Service {
    const cls: CharClasses
    var state: State

    constructor (cls: CharClasses, state: State)
      ensures this.cls == cls && this.state == state
    {
      this.cls := cls;
      this.state := state;
    }

    method FindDir(path: string) returns (id: Option<Id>)
      requires Consistent(state.dirs)
      ensures id == DirByPath(state.dirs, path)
    {
      if k :| k in state.dirs && state.dirs[k].path == path {
        DirByPathIs(state.dirs, k);
        return Some(k);
      }
      id := None;
    }

    method ResolveDir(path: string) returns (id: Option<Id>)
      requires Consistent(state.dirs)
      ensures id == Resolved(state.dirs, path)
    {
      if path == ROOT {
        return Some("");
      }
      id := FindDir(path);
    }

    method FindFile(dir: Id, name: string) returns (id: Option<Id>)
      requires IndexOk(state)
      ensures id == FileIn(state.files, dir, name)
    {
      if f :| f in state.files && state.files[f].dir == dir && state.files[f].name == name {
        FileInIs(state, f);
        return Some(f);
      }
      id := None;
    }

    /** checkFree. */
    method CheckFree(dir: Id, name: string) returns (free: bool)
      ensures free == NameIsFree(state, dir, name)
    {
      if exists k | k in state.dirs :: state.dirs[k].parent == dir && state.dirs[k].name == name {
        return false;
      }
      free := forall f | f in state.files :: !(state.files[f].dir == dir && state.files[f].name == name);
    }

    method Lookup(path: string) returns (e: Entry)
      requires IndexOk(state)
      ensures e == EntryAt(state, path)
    {
      var dir := FindDir(path);
      if dir.Some? {
        return DirEntry(dir.value);
      }
      var (parentPath, name) := Parent(path);
      var parent := ResolveDir(parentPath);
      if parent.None? {
        return NoEntry;
      }
      var file := FindFile(parent.value, name);
      e := if file.None? then NoEntry else FileEntry(file.value);
    }

    /** One mutation, in the channel and in the index. */
    method Take(step: Step, ghost before: State, ghost steps: seq<Step>) returns (ghost more: seq<Step>)
      requires Enabled(state, step)
      requires IsRun(cls, before, steps) && AfterRun(cls, before, steps) == state
      modifies this
      ensures state == Apply(cls, old(state), step)
      ensures more == steps + [step] && IsRun(cls, before, more) && AfterRun(cls, before, more) == state
    {
      OneStep(cls, state, step);
      RunAppend(cls, before, steps, [step]);
      more := steps + [step];
      hide *;
      state := Apply(cls, state, step);
    }

    /** refreshSubtreeCaptions: the files below a directory get fresh folder hashtags. */
    method RefreshSubtree(id: Id, ghost before: State, ghost steps: seq<Step>) returns (ghost more: seq<Step>)
      requires id in state.dirs && IsRun(cls, before, steps) && AfterRun(cls, before, steps) == state
      modifies this
      ensures SameIndex(old(state), state)
      ensures MessagesApart(state.segs) ==> AllCaptioned(cls, state, id)
      ensures IsRun(cls, before, more) && AfterRun(cls, before, more) == state
    {
      more := steps;
      var files := FilesUnder(state.files, Below(state.dirs, id));
      var rest := files;
      while rest != {}
        invariant rest <= files <= state.files.Keys && SameIndex(old(state), state)
        invariant MessagesApart(state.segs) ==> forall f | f in files - rest :: Captioned(cls, state, f)
        invariant IsRun(cls, before, more) && AfterRun(cls, before, more) == state
        decreases rest
      {
        var f :| f in rest;
        if MessagesApart(state.segs) {
          forall g | g in files - (rest - {f}) ensures Captioned(cls, Apply(cls, state, RefreshCaptions(f)), g) {
            RefreshCaptioned(cls, state, f, g);
          }
        }
        hide MessagesApart, Captioned, IsRun, AfterRun, Apply, Enabled;
        more := Take(RefreshCaptions(f), before, more);
        rest := rest - {f};
      }
    }

    /** One component of Mkdir's walk. */
    method Descend(ghost before: State, parts: seq<string>, i: nat, at: Id, created: nat, ids: seq<Id>, ghost steps: seq<Step>)
      returns (ok: bool, dir: Id, n: nat, ghost more: seq<Step>)
      requires Walking(before, state, parts, i, at, created, ids) && IndexOk(before) && i < |parts|
      requires (forall p | p in parts :: NameAllowed(p)) && FreshIds(before, ids) && created <= i < |ids|
      requires IsRun(cls, before, steps) && AfterRun(cls, before, steps) == state
      modifies this
      ensures IsRun(cls, before, more) && AfterRun(cls, before, more) == state
      ensures ok ==> Walking(before, state, parts, i + 1, dir, n, ids) && n <= i + 1
      ensures !ok ==> state == before && BlockedAt(before, parts, i)
    {
      hide *;
      more, n := steps, created;
      WalkIndexOk(before, state, parts, i, at, created, ids);
      NextPart(parts, i);
      var existing := FindDir(PathOf(parts[..i + 1]));
      if existing.Some? {
        WalkExisting(before, state, parts, i, at, created, ids, existing.value);
        return true, existing.value, n, more;
      }
      var file := FindFile(at, parts[i]);
      if file.Some? {
        WalkBlocked(before, state, parts, i, at, created, ids);
        return false, at, n, more;
      }
      WalkCreate(cls, before, state, parts, i, at, created, ids);
      more := Take(CreateDir(ids[created], at, parts[i]), before, steps);
      ok, dir, n := true, ids[created], created + 1;
    }

    /** Mkdir: the path and every missing directory above it. */
    method Mkdir(path: string, ids: seq<Id>) returns (out: Outcome, dir: Id, ghost steps: seq<Step>)
      requires IndexOk(state) && IsCleanPath(path)
      requires FreshIds(state, ids) && |ids| >= |SplitPath(path)|
      modifies this
      ensures out == if Blocked(old(state), path) then ErrExists else Succeeded
      ensures out == Succeeded ==> Grown(old(state), state, path) && Resolved(state.dirs, path) == Some(dir)
      ensures out != Succeeded ==> state == old(state)
      ensures IndexOk(state)
      ensures IsRun(cls, old(state), steps) && AfterRun(cls, old(state), steps) == state
      ensures Inv(old(state)) && Sane(cls) && AllClean(cls, old(state), steps) ==> Inv(state)
    {
      var parts := SplitPath(path);
      assert (forall p | p in parts :: NameAllowed(p)) && path == PathOf(parts);
      assert Blocked(state, path) <==> exists i :: 0 <= i < |parts| && BlockedAt(state, parts, i);
      hide *;
      steps, dir := [], "";
      NoSteps(cls, state);
      WalkStart(state, parts, ids);
      var created: nat := 0;
      for i := 0 to |parts|
        invariant created <= i
        invariant Walking(old(state), state, parts, i, dir, created, ids)
        invariant IsRun(cls, old(state), steps) && AfterRun(cls, old(state), steps) == state
      {
        var ok;
        ok, dir, created, steps := Descend(old(state), parts, i, dir, created, ids, steps);
        if !ok {
          KeepsInv(cls, old(state), steps);
          return ErrExists, dir, steps;
        }
      }
      assert parts[..|parts|] == parts;
      WalkIndexOk(old(state), state, parts, |parts|, dir, created, ids);
      KeepsInv(cls, old(state), steps);
      out := Succeeded;
    }

    method RenameDir(id: Id, newName: string, newPath: string) returns (out: Outcome, ghost steps: seq<Step>)
      requires IndexOk(state) && id in state.dirs && NameAllowed(newName) && NameIsFree(state, state.dirs[id].parent, newName)
      requires newPath == Join(DirPath(state.dirs, state.dirs[id].parent), newName)
      modifies this
      ensures out == if Accepted(old(state).dirs, id, old(state).dirs[id].parent, newName, newPath) then Succeeded else ErrExists
      ensures if out == Succeeded then HasNewName(old(state), state, DirEntry(id), newName) else state == old(state)
      ensures out == Succeeded && MessagesApart(state.segs) ==> AllCaptioned(cls, state, id)
      ensures IsRun(cls, old(state), steps) && AfterRun(cls, old(state), steps) == state
    {
      hide *;
      steps := [];
      NoSteps(cls, state);
      if !Accepted(state.dirs, id, state.dirs[id].parent, newName, newPath) {
        return ErrExists, steps;
      }
      DirRename(cls, state, id, newName);
      steps := Take(RelocateDir(id, state.dirs[id].parent, newName), old(state), steps);
      ghost var renamed := state;
      steps := RefreshSubtree(id, old(state), steps);
      HasNewNameThen(old(state), renamed, state, DirEntry(id), newName);
      out := Succeeded;
    }

    method RenameFile(f: Id, newName: string) returns (ghost steps: seq<Step>)
      requires IndexOk(state) && f in state.files && NameAllowed(newName) && NameIsFree(state, state.files[f].dir, newName)
      modifies this
      ensures HasNewName(old(state), state, FileEntry(f), newName)
      ensures IsRun(cls, old(state), steps) && AfterRun(cls, old(state), steps) == state
    {
      hide *;
      NoSteps(cls, state);
      FileRename(cls, state, f, newName);
      steps := Take(PlaceFile(f, state.files[f].dir, newName), state, []);
    }

    /** Rename, as far as its outcome is the function's. */
    method RenameTo(path: string, newName: string) returns (out: Outcome, ghost steps: seq<Step>)
      requires IndexOk(state) && IsCleanPath(path)
      modifies this
      ensures out == RenameOutcome(old(state), path, newName)
      ensures if out == Succeeded && newName != Parent(path).1
              then HasNewName(old(state), state, EntryAt(old(state), path), newName)
              else state == old(state)
      ensures out == Succeeded && newName != Parent(path).1 && EntryAt(old(state), path).DirEntry? && MessagesApart(state.segs) ==>
                AllCaptioned(cls, state, EntryAt(old(state), path).id)
      ensures IsRun(cls, old(state), steps) && AfterRun(cls, old(state), steps) == state
      ensures Inv(old(state)) && Sane(cls) && AllClean(cls, old(state), steps) ==> Inv(state)
    {
      steps := [];
      NoSteps(cls, state);
      if !NameAllowed(newName) {
        return ErrName, steps;
      }
      if path == ROOT {
        return ErrRoot, steps;
      }
      var (parentPath, oldName) := Parent(path);
      if oldName == newName {
        var e := Lookup(path);
        return if IsVisible(state, e) then Succeeded else ErrNotFound, steps;
      }
      var parent := ResolveDir(parentPath);
      if parent.None? {
        return ErrNotFound, steps;
      }
      var free := CheckFree(parent.value, newName);
      if !free {
        return ErrExists, steps;
      }
      var e := Lookup(path);
      EntryHome(state, path);
      hide IndexOk, IsCleanPath, NameAllowed, Parent, EntryAt, HasNewName, Accepted, IsRun, AfterRun, AllClean, Resolved, NameIsFree;
      match e {
        case NoEntry =>
          out := ErrNotFound;
        case DirEntry(id) =>
          out, steps := RenameDir(id, newName, Join(parentPath, newName));
        case FileEntry(f) =>
          out := Succeeded;
          steps := RenameFile(f, newName);
      }
      KeepsInv(cls, old(state), steps);
    }

    method Rename(path: string, newName: string) returns (out: Outcome, ghost steps: seq<Step>)
      requires IndexOk(state) && IsCleanPath(path)
      modifies this
      ensures out == RenameOutcome(old(state), path, newName)
      ensures out == ErrName <==> !NameAllowed(newName)
      ensures NameAllowed(newName) ==> (out == ErrRoot <==> path == ROOT)
      ensures NameAllowed(newName) && path != ROOT && newName == Parent(path).1 ==>
                out == if IsVisible(old(state), EntryAt(old(state), path)) then Succeeded else ErrNotFound
      ensures NameAllowed(newName) && path != ROOT && newName != Parent(path).1 ==>
                match Resolved(old(state).dirs, Parent(path).0)
                case None => out == ErrNotFound
                case Some(p) =>
                  if !NameIsFree(old(state), p, newName) then out == ErrExists
                  else
                    match EntryAt(old(state), path)
                    case NoEntry => out == ErrNotFound
                    case FileEntry(_) => out == Succeeded
                    case DirEntry(id) =>
                      && id in old(state).dirs && (out == Succeeded || out == ErrExists)
                      && (out == Succeeded <==>
                            UniquePaths(Relocate(old(state).dirs, id, p, newName, Join(Parent(path).0, newName))))
                      && (Untwinned(old(state), DirEntry(id), Join(Parent(path).0, newName)) ==> out == Succeeded)
      ensures out == Succeeded && newName != Parent(path).1
              && Untwinned(old(state), EntryAt(old(state), path), Join(Parent(path).0, newName)) ==>
                EntryAt(state, Join(Parent(path).0, newName)) == EntryAt(old(state), path) != EntryAt(state, path)
      ensures if out == Succeeded && newName != Parent(path).1
              then HasNewName(old(state), state, EntryAt(old(state), path), newName)
              else state == old(state)
      ensures out == Succeeded && newName != Parent(path).1 && EntryAt(old(state), path).DirEntry? && MessagesApart(state.segs) ==>
                AllCaptioned(cls, state, EntryAt(old(state), path).id)
      ensures IsRun(cls, old(state), steps) && AfterRun(cls, old(state), steps) == state
      ensures Inv(old(state)) && Sane(cls) && AllClean(cls, old(state), steps) ==> Inv(state)
    {
      hide *;
      out, steps := RenameTo(path, newName);
      RenameAnswers(old(state), state, path, newName);
    }

    /** The part of Move after the target directory exists. */
    method MoveInto(from: string, target: Id) returns (out: Outcome, ghost steps: seq<Step>)
      requires IndexOk(state) && IsCleanPath(from) && from != ROOT
      requires (target == "" || target in state.dirs) && !IsLoop(from, DirPath(state.dirs, target))
      modifies this
      ensures if !NameIsFree(old(state), target, Parent(from).1) then out == ErrExists
              else
                match EntryAt(old(state), from)
                case NoEntry => out == ErrNotFound
                case FileEntry(_) => out == Succeeded
                case DirEntry(id) =>
                  && (out == Succeeded || out == ErrExists)
                  && (out == Succeeded <==> UniquePaths(Relocate(old(state).dirs, id, target, Parent(from).1,
                                                                 Join(DirPath(old(state).dirs, target), Parent(from).1))))
      ensures if out == Succeeded then HasNewHome(old(state), state, EntryAt(old(state), from), target) else state == old(state)
      ensures out == Succeeded && EntryAt(old(state), from).DirEntry? && MessagesApart(state.segs) ==>
                AllCaptioned(cls, state, EntryAt(old(state), from).id)
      ensures IsRun(cls, old(state), steps) && AfterRun(cls, old(state), steps) == state
    {
      steps := [];
      CleanParts(from);
      PathEntry(state, from);
      NoSteps(cls, state);
      hide IndexOk, IsCleanPath, NameAllowed, Parent, EntryAt, HasNewHome, Accepted, IsRun, AfterRun, NameIsFree, IsLoop;
      var (_, name) := Parent(from);
      var free := CheckFree(target, name);
      if !free {
        return ErrExists, steps;
      }
      var e := Lookup(from);
      match e {
        case NoEntry =>
          out := ErrNotFound;
        case DirEntry(id) =>
          out, steps := MoveDir(id, target);
        case FileEntry(f) =>
          out := Succeeded;
          FileMove(cls, state, f, target);
          steps := Take(PlaceFile(f, target, state.files[f].name), state, []);
      }
    }

    method MoveDir(id: Id, target: Id) returns (out: Outcome, ghost steps: seq<Step>)
      requires IndexOk(state) && id in state.dirs && (target == "" || target in state.dirs) && NameAllowed(state.dirs[id].name)
      requires NameIsFree(state, target, state.dirs[id].name) && !IsLoop(state.dirs[id].path, DirPath(state.dirs, target))
      modifies this
      ensures out == Succeeded || out == ErrExists
      ensures out == Succeeded <==> UniquePaths(Relocate(old(state).dirs, id, target, old(state).dirs[id].name,
                                                         Join(DirPath(old(state).dirs, target), old(state).dirs[id].name)))
      ensures if out == Succeeded then HasNewHome(old(state), state, DirEntry(id), target) else state == old(state)
      ensures out == Succeeded && MessagesApart(state.segs) ==> AllCaptioned(cls, state, id)
      ensures IsRun(cls, old(state), steps) && AfterRun(cls, old(state), steps) == state
    {
      MoveIsRelocate(state, id, target);
      AcceptedIff(state.dirs, id, target, state.dirs[id].name, NewPath(state, target, state.dirs[id].name));
      assert NewPath(state, target, state.dirs[id].name) == Join(DirPath(state.dirs, target), state.dirs[id].name);
      hide *;
      steps := [];
      NoSteps(cls, state);
      if !Accepted(state.dirs, id, target, state.dirs[id].name, Join(DirPath(state.dirs, target), state.dirs[id].name)) {
        return ErrExists, steps;
      }
      DirMove(cls, state, id, target);
      steps := Take(RelocateDir(id, target, state.dirs[id].name), old(state), steps);
      ghost var moved := state;
      steps := RefreshSubtree(id, old(state), steps);
      HasNewHomeThen(old(state), moved, state, DirEntry(id), target);
      out := Succeeded;
    }

    /** Move: mid is the state once the target directory exists. */
    method Move(from: string, toDir: string, ids: seq<Id>)
      returns (out: Outcome, target: Id, ghost mid: State, ghost steps: seq<Step>)
      requires IndexOk(state) && IsCleanPath(from) && IsCleanPath(toDir)
      requires FreshIds(state, ids) && |ids| >= |SplitPath(toDir)|
      modifies this
      ensures from == ROOT ==> out == ErrRoot && state == old(state)
      ensures from != ROOT ==> (out == ErrLoop <==> IsLoop(from, toDir)) && (out == ErrLoop ==> state == old(state))
      ensures from != ROOT ==> (out == ErrLoop <==> toDir == from || from + "/" <= toDir)
      ensures from != ROOT && !IsLoop(from, toDir) && Blocked(old(state), toDir) ==> out == ErrExists && state == old(state)
      ensures from != ROOT && !IsLoop(from, toDir) && !Blocked(old(state), toDir) ==>
                && Grown(old(state), mid, toDir) && Resolved(mid.dirs, toDir) == Some(target)
                && EntryAt(mid, from) == EntryAt(old(state), from)
                && if out == Succeeded then HasNewHome(mid, state, EntryAt(old(state), from), target) else state == mid
      ensures from != ROOT && !IsLoop(from, toDir) && !Blocked(old(state), toDir) ==>
                if !NameIsFree(mid, target, Parent(from).1) then out == ErrExists
                else
                  match EntryAt(old(state), from)
                  case NoEntry => out == ErrNotFound
                  case FileEntry(_) => out == Succeeded
                  case DirEntry(id) =>
                    && id in mid.dirs && (out == Succeeded || out == ErrExists)
                    && (out == Succeeded <==>
                          UniquePaths(Relocate(mid.dirs, id, target, Parent(from).1, Join(toDir, Parent(from).1))))
                    && (Untwinned(mid, DirEntry(id), Join(toDir, Parent(from).1)) ==> out == Succeeded)
      ensures out == Succeeded && Untwinned(mid, EntryAt(old(state), from), Join(toDir, Parent(from).1)) ==>
                EntryAt(state, Join(toDir, Parent(from).1)) == EntryAt(old(state), from) != EntryAt(state, from)
      ensures out == Succeeded && EntryAt(old(state), from).DirEntry? && MessagesApart(state.segs) ==>
                AllCaptioned(cls, state, EntryAt(old(state), from).id)
      ensures IsRun(cls, old(state), steps) && AfterRun(cls, old(state), steps) == state
      ensures Inv(old(state)) && Sane(cls) && AllClean(cls, old(state), steps) ==> Inv(state)
    {
      steps, target, mid := [], "", state;
      NoSteps(cls, state);
      if from == ROOT {
        return ErrRoot, target, mid, steps;
      }
      if IsDescendant(from, toDir) || from == toDir {
        return ErrLoop, target, mid, steps;
      }
      assert !IsLoop(from, toDir);
      assert IndexOk(state) && Consistent(state.dirs);
      CleanNonEmpty(toDir);
      hide *;
      out, target, steps := Mkdir(toDir, ids);
      if out != Succeeded {
        return;
      }
      mid := state;
      GrownEntry(old(state), state, toDir, from);
      ResolvedPath(state, toDir);
      ghost var more;
      out, more := MoveInto(from, target);
      RunAppend(cls, old(state), steps, more);
      steps := steps + more;
      KeepsInv(cls, old(state), steps);
      MoveAnswers(mid, state, from, toDir, target, out);
    }

    method Delete(path: string) returns (out: Outcome, ghost steps: seq<Step>)
      requires IndexOk(state) && IsCleanPath(path)
      modifies this
      ensures out == if path == ROOT then ErrRoot else if EntryAt(old(state), path).NoEntry? then ErrNotFound else Succeeded
      ensures out == Succeeded ==> IsGone(old(state), state, EntryAt(old(state), path))
      ensures out != Succeeded ==> state == old(state)
      ensures IsRun(cls, old(state), steps) && AfterRun(cls, old(state), steps) == state
      ensures Inv(old(state)) && Sane(cls) && AllClean(cls, old(state), steps) ==> Inv(state)
    {
      steps := [];
      NoSteps(cls, state);
      if path == ROOT {
        return ErrRoot, steps;
      }
      PathEntry(state, path);
      hide *;
      var e := Lookup(path);
      match e {
        case NoEntry =>
          return ErrNotFound, steps;
        case DirEntry(id) =>
          DirGone(cls, state, id);
          steps := Take(DeleteDir(id), state, steps);
        case FileEntry(f) =>
          FileGone(cls, state, f);
          steps := Take(DeleteFile(f), state, steps);
      }
      KeepsInv(cls, old(state), steps);
      out := Succeeded;
    }
  }
}
