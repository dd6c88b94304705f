/** The dirs table of the index, with its denormalised path column
    (internal/database/tree.go, internal/database/schema.sql). */
module Tree {
  import opened Paths

  /** A ULID; the empty id stands for the NULL parent, the drive root. */
  type Id = string

  datatype Dir = Dir(parent: Id, name: string, path: string, msg: nat)

  type Dirs = map<Id, Dir>

  datatype Status = Done | Conflict | Missing

  function DirPath(dirs: Dirs, id: Id): string {
    if id in dirs then dirs[id].path else ROOT
  }

  /** The foreign key holds and the stored path extends the parent's stored path. */
  predicate Linked(dirs: Dirs, id: Id)
    requires id in dirs
  {
    var d := dirs[id];
    && PlainName(d.name)
    && (d.parent == "" || d.parent in dirs)
    && d.path == Join(DirPath(dirs, d.parent), d.name)
  }

  predicate AllLinked(dirs: Dirs) {
    "" !in dirs && forall id {:trigger Linked(dirs, id)} | id in dirs :: Linked(dirs, id)
  }

  /** The unique index on (ifnull(parent_id, ''), name). */
  predicate UniqueNames(dirs: Dirs) {
    forall a, b | a in dirs && b in dirs && dirs[a].parent == dirs[b].parent && dirs[a].name == dirs[b].name :: a == b
  }

  /** The UNIQUE constraint on path. */
  predicate UniquePaths(dirs: Dirs) {
    forall a, b | a in dirs && b in dirs && dirs[a].path == dirs[b].path :: a == b
  }

  predicate Consistent(dirs: Dirs) {
    AllLinked(dirs) && UniqueNames(dirs)
  }

  // ------------------------------------------------------- SQLite's LIKE

  /** LIKE ignores the case of ASCII letters, and of no others. */
  function Fold(c: char): char {
    if 'A' <= c <= 'Z' then c - 'A' + 'a' else c
  }

  lemma FoldIff(c: char, d: char)
    ensures Fold(c) == Fold(d) <==> c == d || ('A' <= c <= 'Z' && d == c - 'A' + 'a') || ('A' <= d <= 'Z' && c == d - 'A' + 'a')
  {
  }

  /** s LIKE pattern ESCAPE '\'. A trailing escape character matches nothing. */
  predicate Like(pattern: string, s: string)
    decreases |pattern|, |s|
  {
    if pattern == "" then s == ""
    else if pattern[0] == '%' then
      Like(pattern[1..], s) || (s != "" && Like(pattern, s[1..]))
    else if s == "" then false
    else if pattern[0] == '_' then Like(pattern[1..], s[1..])
    else if pattern[0] == '\\' then
      |pattern| > 1 && Fold(pattern[1]) == Fold(s[0]) && Like(pattern[2..], s[1..])
    else Fold(pattern[0]) == Fold(s[0]) && Like(pattern[1..], s[1..])
  }

  function EscapeLike(s: string): string {
    if s == "" then ""
    else (if s[0] == '\\' || s[0] == '%' || s[0] == '_' then ['\\', s[0]] else [s[0]]) + EscapeLike(s[1..])
  }

  /** What the subtree pattern matches: a path below root, up to ASCII case. */
  predicate LikeUnder(root: string, path: string) {
    && |root| < |path|
    && path[|root|] == '/'
    && forall k | 0 <= k < |root| :: Fold(path[k]) == Fold(root[k])
  }

  lemma {:induction false} PercentMatchesAll(s: string)
    ensures Like("%", s)
  {
    if s == "" {
      assert Like("%"[1..], s);
    } else {
      PercentMatchesAll(s[1..]);
    }
  }

  /** Escaping neutralises every wildcard in a directory name: the subtree pattern
      is a literal prefix test, up to ASCII case. */
  lemma {:induction false} EscapedPatternIsPrefix(root: string, path: string)
    ensures Like(EscapeLike(root) + "/%", path) <==> LikeUnder(root, path)
  {
    var pattern := EscapeLike(root) + "/%";
    if root == "" {
      assert pattern == "/%" && pattern[1..] == "%";
      if path != "" {
        PercentMatchesAll(path[1..]);
      }
    } else {
      var esc := root[0] == '\\' || root[0] == '%' || root[0] == '_';
      var rest := EscapeLike(root[1..]) + "/%";
      assert pattern == (if esc then ['\\', root[0]] else [root[0]]) + rest;
      assert pattern[if esc then 2 else 1..] == rest;
      if path != "" {
        EscapedPatternIsPrefix(root[1..], path[1..]);
        if LikeUnder(root, path) {
          assert forall k | 0 <= k < |root[1..]| :: Fold(path[1..][k]) == Fold(root[1..][k]) by {
            forall k | 0 <= k < |root[1..]| ensures Fold(path[1..][k]) == Fold(root[1..][k]) {
              assert Fold(path[k + 1]) == Fold(root[k + 1]);
            }
          }
        }
        if Fold(root[0]) == Fold(path[0]) && LikeUnder(root[1..], path[1..]) {
          forall k | 0 <= k < |root| ensures Fold(path[k]) == Fold(root[k]) {
            if k > 0 { assert Fold(path[1..][k - 1]) == Fold(root[1..][k - 1]); }
          }
        }
      }
    }
  }

  lemma DescendantIsLike(root: string, path: string)
    requires root != ROOT && IsDescendant(root, path)
    ensures LikeUnder(root, path) && path[|root|..] == path[|root|..] && path == root + path[|root|..]
  {
    assert path[..|root| + 1] == root + "/";
    forall k | 0 <= k < |root| + 1 ensures path[k] == (root + "/")[k] {
      assert path[..|root| + 1][k] == path[k];
    }
  }

  // ------------------------------------------------------- the statements

  /** UPDATE dirs SET parent_id, name, path WHERE id = ?. */
  function SetRow(dirs: Dirs, id: Id, parent: Id, name: string, path: string): Dirs
    requires id in dirs
  {
    dirs[id := dirs[id].(parent := parent, name := name, path := path)]
  }

  /** UPDATE dirs SET path = newPath || substr(path, cut) WHERE path LIKE old/%. */
  function SwapPrefix(dirs: Dirs, oldPath: string, newPath: string): Dirs {
    map k | k in dirs ::
      if LikeUnder(oldPath, dirs[k].path)
      then dirs[k].(path := newPath + dirs[k].path[|oldPath|..])
      else dirs[k]
  }

  /** The two statements of RenameDir and of MoveDir. */
  function Relocate(dirs: Dirs, id: Id, parent: Id, name: string, newPath: string): Dirs
    requires id in dirs
  {
    SwapPrefix(SetRow(dirs, id, parent, name, newPath), dirs[id].path, newPath)
  }

  /** What the callers of RenameDir and MoveDir have checked: the target directory
      exists and is not inside the moved one, and the target path is free. */
  predicate MayRelocate(dirs: Dirs, id: Id, parent: Id, name: string, newPath: string) {
    && id in dirs
    && (parent == "" || parent in dirs)
    && PlainName(name)
    && newPath == Join(DirPath(dirs, parent), name)
    && parent != id
    && !IsDescendant(dirs[id].path, DirPath(dirs, parent))
    && forall k | k in dirs :: dirs[k].path != newPath
  }

  /** No row outside the subtree, and not the new path either, is taken for part of
      it when ASCII case is ignored. */
  predicate NoCaseTwin(dirs: Dirs, id: Id, newPath: string)
    requires id in dirs
  {
    && !LikeUnder(dirs[id].path, newPath)
    && forall k | k in dirs && LikeUnder(dirs[id].path, dirs[k].path) :: IsDescendant(dirs[id].path, dirs[k].path)
  }

  /** The rows that deleting the rows in doomed takes along: ON DELETE CASCADE. */
  function Cascade(dirs: Dirs, doomed: set<Id>): (all: set<Id>)
    ensures doomed <= all
    ensures forall k | k in dirs && dirs[k].parent in all :: k in all
    decreases |dirs.Keys - doomed|
  {
    var next := set k | k in dirs && k !in doomed && dirs[k].parent in doomed;
    if next == {} then
      assert forall k | k in dirs && dirs[k].parent in doomed :: k in doomed || k in next;
      doomed
    else
      assert dirs.Keys - (doomed + next) < dirs.Keys - doomed by {
        var k :| k in next;
        assert k in dirs.Keys - doomed && k !in dirs.Keys - (doomed + next);
      }
      SubsetSize(dirs.Keys - (doomed + next), dirs.Keys - doomed);
      Cascade(dirs, doomed + next)
  }

  /** The directories SubtreeMessages collects: the row itself and a LIKE match. */
  function SubtreeRows(dirs: Dirs, id: Id): set<Id>
    requires id in dirs
  {
    set k | k in dirs && (k == id || LikeUnder(dirs[id].path, dirs[k].path))
  }

  lemma SubsetSize<T>(a: set<T>, b: set<T>)
    requires a < b
    ensures |a| < |b|
  {
    var x :| x in b && x !in a;
    assert |b| == |a| + |b - a|;
    assert b == a + (b - a);
    assert x in b - a;
  }

  // ------------------------------------------------------- paths and names

  /** The walk of names from the root to a directory, following parent_id alone. */
  function NamesTo(dirs: Dirs, id: Id): seq<string>
    requires AllLinked(dirs) && (id == "" || id in dirs)
    decreases |DirPath(dirs, id)|, id != ""
  {
    if id == "" then []
    else
      assert Linked(dirs, id);
      JoinLonger(DirPath(dirs, dirs[id].parent), dirs[id].name);
      NamesTo(dirs, dirs[id].parent) + [dirs[id].name]
  }

  /** The stored path is that walk. */
  lemma {:induction false} StoredPathIsWalk(dirs: Dirs, id: Id)
    requires AllLinked(dirs) && (id == "" || id in dirs)
    ensures DirPath(dirs, id) == PathOf(NamesTo(dirs, id))
    ensures forall n | n in NamesTo(dirs, id) :: PlainName(n)
    decreases |DirPath(dirs, id)|, id != ""
  {
    if id != "" {
      assert Linked(dirs, id);
      var d := dirs[id];
      JoinLonger(DirPath(dirs, d.parent), d.name);
      StoredPathIsWalk(dirs, d.parent);
      assert NamesTo(dirs, id)[..|NamesTo(dirs, id)| - 1] == NamesTo(dirs, d.parent);
    }
  }

  lemma PathShape(dirs: Dirs, id: Id)
    requires AllLinked(dirs) && id in dirs
    ensures dirs[id].path != "" && dirs[id].path != ROOT
    ensures DirPath(dirs, dirs[id].parent) != ""
    ensures |DirPath(dirs, dirs[id].parent)| < |dirs[id].path|
  {
    assert Linked(dirs, id);
    var d := dirs[id];
    JoinLonger(DirPath(dirs, d.parent), d.name);
    if d.parent in dirs {
      assert Linked(dirs, d.parent);
      JoinLonger(DirPath(dirs, dirs[d.parent].parent), dirs[d.parent].name);
    }
  }

  /** Unique names under each parent make every path unique. */
  lemma {:induction false} PathsUniqueAt(dirs: Dirs, a: Id, b: Id)
    requires Consistent(dirs) && a in dirs && b in dirs && dirs[a].path == dirs[b].path
    ensures a == b
    decreases |dirs[a].path|
  {
    assert Linked(dirs, a) && Linked(dirs, b);
    PathShape(dirs, a);
    PathShape(dirs, b);
    var p, q := dirs[a].parent, dirs[b].parent;
    JoinInjective(DirPath(dirs, p), dirs[a].name, DirPath(dirs, q), dirs[b].name);
    if p in dirs { PathShape(dirs, p); }
    if q in dirs { PathShape(dirs, q); }
    if p in dirs && q in dirs {
      PathsUniqueAt(dirs, p, q);
    }
  }

  lemma PathsUnique(dirs: Dirs)
    requires Consistent(dirs)
    ensures UniquePaths(dirs)
  {
    forall a, b | a in dirs && b in dirs && dirs[a].path == dirs[b].path ensures a == b {
      PathsUniqueAt(dirs, a, b);
    }
  }

  /** Parents and names determine the whole path column. */
  lemma {:induction false} PathsDeterminedAt(t: Dirs, u: Dirs, id: Id)
    requires AllLinked(t) && AllLinked(u) && t.Keys == u.Keys && id in t
    requires forall k | k in t :: t[k].parent == u[k].parent && t[k].name == u[k].name
    ensures t[id].path == u[id].path
    decreases |t[id].path|
  {
    assert Linked(t, id) && Linked(u, id);
    PathShape(t, id);
    if t[id].parent in t {
      PathsDeterminedAt(t, u, t[id].parent);
    }
  }

  /** Every directory above a row has a row of its own. */
  lemma {:induction false} AncestorRow(dirs: Dirs, id: Id, path: string) returns (a: Id)
    requires AllLinked(dirs) && id in dirs
    requires path != "" && path != ROOT && IsDescendant(path, dirs[id].path)
    ensures a in dirs && dirs[a].path == path
    decreases |dirs[id].path|
  {
    assert Linked(dirs, id);
    PathShape(dirs, id);
    var p := dirs[id].parent;
    DescendantOfJoin(path, DirPath(dirs, p), dirs[id].name);
    if DirPath(dirs, p) == path {
      a := p;
    } else {
      a := AncestorRow(dirs, p, path);
    }
  }

  // ------------------------------------------------------- relocation

  lemma SwappedRow(dirs: Dirs, id: Id, parent: Id, name: string, newPath: string, k: Id)
    requires MayRelocate(dirs, id, parent, name, newPath) && AllLinked(dirs) && k in dirs
    requires NoCaseTwin(dirs, id, newPath)
    ensures var out := Relocate(dirs, id, parent, name, newPath);
            && k in out
            && (k == id ==> out[k].path == newPath)
            && (k != id && IsDescendant(dirs[id].path, dirs[k].path)
                ==> |dirs[id].path| <= |dirs[k].path| && out[k] == dirs[k].(path := newPath + dirs[k].path[|dirs[id].path|..]))
            && (k != id && !IsDescendant(dirs[id].path, dirs[k].path) ==> out[k] == dirs[k])
  {
    PathShape(dirs, id);
    if IsDescendant(dirs[id].path, dirs[k].path) {
      DescendantIsLike(dirs[id].path, dirs[k].path);
    }
  }

  /** Swapping the prefix commutes with extending a path by one name. */
  lemma SwapStep(was: string, parent: string, name: string, newPath: string)
    requires was != "" && was != ROOT && parent != "" && newPath != "" && newPath != ROOT && PlainName(name)
    requires IsDescendant(was, Join(parent, name))
    ensures |was| <= |parent|
    ensures parent == was ==> newPath + Join(parent, name)[|was|..] == Join(newPath, name)
    ensures parent != was ==> IsDescendant(was, parent)
                              && newPath + Join(parent, name)[|was|..] == Join(newPath + parent[|was|..], name)
  {
    DescendantOfJoin(was, parent, name);
    var path := Join(parent, name);
    assert path == parent + "/" + name;
    assert path[|was|..] == parent[|was|..] + "/" + name;
    if parent == was {
      assert newPath + ("" + "/" + name) == newPath + "/" + name;
    } else {
      assert newPath + (parent[|was|..] + "/" + name) == (newPath + parent[|was|..]) + "/" + name;
    }
  }

  lemma MovedRowLinked(dirs: Dirs, id: Id, parent: Id, name: string, newPath: string)
    requires Consistent(dirs) && MayRelocate(dirs, id, parent, name, newPath)
    requires NoCaseTwin(dirs, id, newPath)
    ensures Linked(Relocate(dirs, id, parent, name, newPath), id)
  {
    SwappedRow(dirs, id, parent, name, newPath, id);
    if parent in dirs {
      SwappedRow(dirs, id, parent, name, newPath, parent);
    }
  }

  lemma InnerRowLinked(dirs: Dirs, id: Id, parent: Id, name: string, newPath: string, k: Id)
    requires Consistent(dirs) && MayRelocate(dirs, id, parent, name, newPath) && k in dirs && k != id
    requires NoCaseTwin(dirs, id, newPath) && IsDescendant(dirs[id].path, dirs[k].path)
    ensures Linked(Relocate(dirs, id, parent, name, newPath), k)
  {
    var p := dirs[k].parent;
    assert Linked(dirs, k);
    PathShape(dirs, id);
    PathShape(dirs, k);
    JoinLonger(DirPath(dirs, parent), name);
    SwapStep(dirs[id].path, DirPath(dirs, p), dirs[k].name, newPath);
    assert p in dirs;
    if dirs[p].path == dirs[id].path {
      PathsUniqueAt(dirs, p, id);
    }
    SwappedRow(dirs, id, parent, name, newPath, k);
    SwappedRow(dirs, id, parent, name, newPath, p);
  }

  lemma OuterRowLinked(dirs: Dirs, id: Id, parent: Id, name: string, newPath: string, k: Id)
    requires Consistent(dirs) && MayRelocate(dirs, id, parent, name, newPath) && k in dirs && k != id
    requires NoCaseTwin(dirs, id, newPath) && !IsDescendant(dirs[id].path, dirs[k].path)
    ensures Linked(Relocate(dirs, id, parent, name, newPath), k)
  {
    var p := dirs[k].parent;
    assert Linked(dirs, k);
    PathShape(dirs, id);
    PathShape(dirs, k);
    DescendantOfJoin(dirs[id].path, DirPath(dirs, p), dirs[k].name);
    SwappedRow(dirs, id, parent, name, newPath, k);
    if p in dirs {
      SwappedRow(dirs, id, parent, name, newPath, p);
    }
  }

  /** The parent of a row that LIKE takes for part of the subtree is longer than the
      prefix, and taken too, or is the case twin itself. */
  lemma TwinStep(was: string, parent: string, name: string)
    requires was != "" && was != ROOT && parent != "" && PlainName(name)
    requires LikeUnder(was, Join(parent, name)) && !IsDescendant(was, Join(parent, name))
    ensures parent != ROOT && parent != was && Join(parent, name) == parent + "/" + name
    ensures |was| <= |parent|
    ensures |parent| > |was| ==> LikeUnder(was, parent) && !IsDescendant(was, parent)
    ensures |parent| == |was| ==> Join(parent, name)[|was|..] == "/" + name
  {
    var path := Join(parent, name);
    JoinTail(parent, name);
    DescendantOfJoin(was, parent, name);
    assert |was| < |path| - |name|;
    assert path[..|parent|] == parent;
    assert forall i | 0 <= i < |parent| :: path[i] == parent[i];
  }

  /** A row misread as part of the subtree leaves some row out of step with its
      parent. */
  lemma {:induction false} TwinBreaks(dirs: Dirs, id: Id, parent: Id, name: string, newPath: string, k: Id)
    returns (w: Id)
    requires Consistent(dirs) && MayRelocate(dirs, id, parent, name, newPath)
    requires k in dirs && LikeUnder(dirs[id].path, dirs[k].path) && !IsDescendant(dirs[id].path, dirs[k].path)
    ensures w in dirs && !Linked(Relocate(dirs, id, parent, name, newPath), w)
    decreases |dirs[k].path|
  {
    var was := dirs[id].path;
    var p := dirs[k].parent;
    PathShape(dirs, id);
    PathShape(dirs, k);
    assert Linked(dirs, k);
    TwinStep(was, DirPath(dirs, p), dirs[k].name);
    assert p in dirs;
    if |dirs[p].path| > |was| {
      w := TwinBreaks(dirs, id, parent, name, newPath, p);
    } else {
      w := k;
      TwinChild(dirs, id, parent, name, newPath, k);
    }
  }

  lemma TwinChild(dirs: Dirs, id: Id, parent: Id, name: string, newPath: string, k: Id)
    requires Consistent(dirs) && MayRelocate(dirs, id, parent, name, newPath)
    requires k in dirs && k != id && LikeUnder(dirs[id].path, dirs[k].path)
    requires dirs[k].parent in dirs && |dirs[dirs[k].parent].path| == |dirs[id].path|
    requires dirs[dirs[k].parent].path != dirs[id].path
    requires dirs[k].path[|dirs[id].path|..] == "/" + dirs[k].name
    ensures !Linked(Relocate(dirs, id, parent, name, newPath), k)
  {
    var out := Relocate(dirs, id, parent, name, newPath);
    var p, n := dirs[k].parent, dirs[k].name;
    assert Linked(dirs, k);
    PathShape(dirs, p);
    JoinLonger(DirPath(dirs, parent), name);
    assert out[k].path == newPath + ("/" + n);
    assert out[k].parent == p && out[k].name == n;
    assert out[p].path == dirs[p].path by {
      assert p != id;
    }
    JoinDiffers(dirs[p].path, newPath, n);
  }

  lemma JoinDiffers(p: string, q: string, name: string)
    requires p != "" && p != ROOT && q != ROOT && q != "" && p != q && PlainName(name)
    ensures Join(p, name) != q + ("/" + name)
  {
    assert q + ("/" + name) == Join(q, name);
    if Join(p, name) == Join(q, name) {
      JoinInjective(p, name, q, name);
    }
  }

  /** The second statement hits the moved row when its new path matches the pattern. */
  lemma MovedRowMatched(dirs: Dirs, id: Id, parent: Id, name: string, newPath: string)
    requires Consistent(dirs) && MayRelocate(dirs, id, parent, name, newPath)
    requires LikeUnder(dirs[id].path, newPath)
    requires parent in dirs ==> !LikeUnder(dirs[id].path, dirs[parent].path)
    ensures !Linked(Relocate(dirs, id, parent, name, newPath), id)
  {
    var out := Relocate(dirs, id, parent, name, newPath);
    assert out[id].path == newPath + newPath[|dirs[id].path|..];
    assert |out[id].path| > |newPath|;
  }

  lemma RelocateKeepsUniqueNames(dirs: Dirs, id: Id, parent: Id, name: string, newPath: string)
    requires Consistent(dirs) && MayRelocate(dirs, id, parent, name, newPath)
    ensures UniqueNames(Relocate(dirs, id, parent, name, newPath))
  {
    var out := Relocate(dirs, id, parent, name, newPath);
    forall c | c in dirs ensures !(dirs[c].parent == parent && dirs[c].name == name) {
      assert Linked(dirs, c);
    }
    assert out[id].parent == parent && out[id].name == name;
    assert forall c | c in dirs && c != id :: out[c].parent == dirs[c].parent && out[c].name == dirs[c].name;
  }

  /** A rename or a move keeps the tree consistent exactly when ASCII case folding
      does not drag foreign rows into the prefix swap. */
  lemma RelocateConsistentIff(dirs: Dirs, id: Id, parent: Id, name: string, newPath: string)
    requires Consistent(dirs) && MayRelocate(dirs, id, parent, name, newPath)
    ensures Consistent(Relocate(dirs, id, parent, name, newPath)) <==> NoCaseTwin(dirs, id, newPath)
  {
    var out := Relocate(dirs, id, parent, name, newPath);
    RelocateKeepsUniqueNames(dirs, id, parent, name, newPath);
    if NoCaseTwin(dirs, id, newPath) {
      forall k | k in out ensures Linked(out, k) {
        if k == id {
          MovedRowLinked(dirs, id, parent, name, newPath);
        } else if IsDescendant(dirs[id].path, dirs[k].path) {
          InnerRowLinked(dirs, id, parent, name, newPath, k);
        } else {
          OuterRowLinked(dirs, id, parent, name, newPath, k);
        }
      }
    } else {
      var w := BrokenRow(dirs, id, parent, name, newPath);
    }
  }

  lemma BrokenRow(dirs: Dirs, id: Id, parent: Id, name: string, newPath: string) returns (w: Id)
    requires Consistent(dirs) && MayRelocate(dirs, id, parent, name, newPath) && !NoCaseTwin(dirs, id, newPath)
    ensures w in dirs && !Linked(Relocate(dirs, id, parent, name, newPath), w)
  {
    var was := dirs[id].path;
    if k :| k in dirs && LikeUnder(was, dirs[k].path) && !IsDescendant(was, dirs[k].path) {
      w := TwinBreaks(dirs, id, parent, name, newPath, k);
    } else {
      w := id;
      MovedRowMatched(dirs, id, parent, name, newPath);
    }
  }

  /** The one prefix-swap UPDATE computes what a walk over every descendant would:
      it is the only consistent table with these parents and names. */
  lemma RelocateIsRecompute(dirs: Dirs, id: Id, parent: Id, name: string, newPath: string, recomputed: Dirs)
    requires Consistent(dirs) && MayRelocate(dirs, id, parent, name, newPath) && NoCaseTwin(dirs, id, newPath)
    requires AllLinked(recomputed) && recomputed.Keys == dirs.Keys
    requires forall k | k in dirs && k != id ::
               recomputed[k].parent == dirs[k].parent && recomputed[k].name == dirs[k].name && recomputed[k].msg == dirs[k].msg
    requires recomputed[id].parent == parent && recomputed[id].name == name && recomputed[id].msg == dirs[id].msg
    ensures Relocate(dirs, id, parent, name, newPath) == recomputed
  {
    RelocateConsistentIff(dirs, id, parent, name, newPath);
    RelocateKeepsRest(dirs, id, parent, name, newPath);
    SameTable(Relocate(dirs, id, parent, name, newPath), recomputed);
  }

  lemma RelocateKeepsRest(dirs: Dirs, id: Id, parent: Id, name: string, newPath: string)
    requires id in dirs
    ensures var out := Relocate(dirs, id, parent, name, newPath);
            && out.Keys == dirs.Keys
            && out[id].msg == dirs[id].msg && out[id].parent == parent && out[id].name == name
            && forall k | k in dirs && k != id ::
                 out[k].msg == dirs[k].msg && out[k].parent == dirs[k].parent && out[k].name == dirs[k].name
  {
  }

  lemma SameTable(t: Dirs, u: Dirs)
    requires AllLinked(t) && AllLinked(u) && t.Keys == u.Keys
    requires forall k | k in t :: t[k].parent == u[k].parent && t[k].name == u[k].name && t[k].msg == u[k].msg
    ensures t == u
  {
    forall k | k in t ensures t[k] == u[k] {
      PathsDeterminedAt(t, u, k);
    }
  }

  /** Whatever order SQLite updates the rows in, no rewritten path meets a path still
      stored in another row. */
  lemma SwapNeverCollides(dirs: Dirs, id: Id, parent: Id, name: string, newPath: string, k: Id, other: Id)
    requires Consistent(dirs) && MayRelocate(dirs, id, parent, name, newPath) && NoCaseTwin(dirs, id, newPath)
    requires k in dirs && other in dirs && k != other
    ensures Relocate(dirs, id, parent, name, newPath)[k].path != Relocate(dirs, id, parent, name, newPath)[other].path
    ensures k == id || IsDescendant(dirs[id].path, dirs[k].path)
            ==> Relocate(dirs, id, parent, name, newPath)[k].path != dirs[other].path
  {
    var out := Relocate(dirs, id, parent, name, newPath);
    var was := dirs[id].path;
    RelocateConsistentIff(dirs, id, parent, name, newPath);
    PathsUnique(out);
    SwappedRow(dirs, id, parent, name, newPath, k);
    PathShape(dirs, id);
    PathShape(dirs, k);
    JoinLonger(DirPath(dirs, parent), name);
    if k != id && IsDescendant(was, dirs[k].path) {
      DescendantIsLike(was, dirs[k].path);
      NewPathFree(dirs, newPath, dirs[k].path[|was|..], other);
    }
  }

  lemma NewPathFree(dirs: Dirs, newPath: string, rest: string, other: Id)
    requires AllLinked(dirs) && other in dirs && newPath != "" && newPath != ROOT
    requires forall k | k in dirs :: dirs[k].path != newPath
    requires rest != "" && rest[0] == '/'
    ensures newPath + rest != dirs[other].path
  {
    if newPath + rest == dirs[other].path {
      assert newPath + rest == newPath + "/" + rest[1..];
      assert IsDescendant(newPath, dirs[other].path);
      var a := AncestorRow(dirs, other, newPath);
    }
  }

  /** Two siblings /a and /A differing only in case, the second with a child. */
  predicate TwinTable(dirs: Dirs, a: Id, twin: Id, child: Id) {
    && a != twin && twin != child && a != child && a != "" && twin != "" && child != ""
    && dirs.Keys == {a, twin, child}
    && dirs[a] == Dir("", "a", "/a", 1)
    && dirs[twin] == Dir("", "A", "/A", 2)
    && dirs[child] == Dir(twin, "x", "/A/x", 3)
  }

  lemma TwinTableConsistent(dirs: Dirs, a: Id, twin: Id, child: Id)
    requires TwinTable(dirs, a, twin, child)
    ensures Consistent(dirs)
  {
    assert PlainName("a") && PlainName("A") && PlainName("x");
    assert "/A" + "/" + "x" == "/A/x" && ROOT + "a" == "/a" && ROOT + "A" == "/A";
    assert Linked(dirs, a);
    assert Linked(dirs, twin);
    assert Linked(dirs, child);
  }

  /** Renaming /a to /b rewrites the path of /A's child: the table is left
      inconsistent. */
  lemma CaseTwinExample(dirs: Dirs, a: Id, twin: Id, child: Id)
    requires TwinTable(dirs, a, twin, child)
    ensures Consistent(dirs) && MayRelocate(dirs, a, "", "b", "/b")
    ensures !Consistent(Relocate(dirs, a, "", "b", "/b"))
  {
    TwinTableConsistent(dirs, a, twin, child);
    TwinPaths();
    assert PlainName("b");
    assert MayRelocate(dirs, a, "", "b", "/b");
    assert !NoCaseTwin(dirs, a, "/b") by { assert LikeUnder(dirs[a].path, dirs[child].path); }
    RelocateConsistentIff(dirs, a, "", "b", "/b");
  }

  lemma TwinPaths()
    ensures LikeUnder("/a", "/A/x") && !IsDescendant("/a", "/A/x") && !IsDescendant("/a", ROOT)
    ensures Join(ROOT, "b") == "/b"
  {
    assert "/a" + "/" == "/a/";
    assert "/a/"[1] != "/A/x"[1];
  }

  // ------------------------------------------------------- deletion

  lemma {:induction false} CascadeInside(dirs: Dirs, doomed: set<Id>, root: string)
    requires Consistent(dirs) && root != "" && root != ROOT
    requires forall k | k in doomed :: k in dirs && (dirs[k].path == root || IsDescendant(root, dirs[k].path))
    ensures forall k | k in Cascade(dirs, doomed) :: k in dirs && (dirs[k].path == root || IsDescendant(root, dirs[k].path))
    decreases |dirs.Keys - doomed|
  {
    var next := set k | k in dirs && k !in doomed && dirs[k].parent in doomed;
    forall k | k in next ensures IsDescendant(root, dirs[k].path) {
      assert Linked(dirs, k);
      PathShape(dirs, k);
      DescendantOfJoin(root, DirPath(dirs, dirs[k].parent), dirs[k].name);
    }
    if next != {} {
      var k :| k in next;
      assert k in dirs.Keys - doomed && k !in dirs.Keys - (doomed + next);
      SubsetSize(dirs.Keys - (doomed + next), dirs.Keys - doomed);
      CascadeInside(dirs, doomed + next, root);
    }
  }

  lemma {:induction false} CascadeReaches(dirs: Dirs, id: Id, k: Id)
    requires Consistent(dirs) && id in dirs && k in dirs && IsDescendant(dirs[id].path, dirs[k].path)
    ensures k in Cascade(dirs, {id})
    decreases |dirs[k].path|
  {
    assert Linked(dirs, k);
    PathShape(dirs, id);
    PathShape(dirs, k);
    var p := dirs[k].parent;
    DescendantOfJoin(dirs[id].path, DirPath(dirs, p), dirs[k].name);
    if DirPath(dirs, p) == dirs[id].path {
      PathsUniqueAt(dirs, p, id);
    } else {
      CascadeReaches(dirs, id, p);
    }
  }

  /** Deleting a directory takes exactly the rows whose path lies at or below its own. */
  lemma CascadeIsSubtree(dirs: Dirs, id: Id)
    requires Consistent(dirs) && id in dirs
    ensures Cascade(dirs, {id}) == set k | k in dirs && (k == id || IsDescendant(dirs[id].path, dirs[k].path))
  {
    PathShape(dirs, id);
    CascadeInside(dirs, {id}, dirs[id].path);
    forall k | k in dirs && IsDescendant(dirs[id].path, dirs[k].path) ensures k in Cascade(dirs, {id}) {
      CascadeReaches(dirs, id, k);
    }
    forall k | k in Cascade(dirs, {id}) ensures k == id || IsDescendant(dirs[id].path, dirs[k].path) {
      if dirs[k].path == dirs[id].path { PathsUniqueAt(dirs, k, id); }
    }
  }

  /** The messages collected before a delete are those of the deleted rows exactly
      when no row is a case twin of the subtree. */
  lemma SubtreeRowsAreCascadeIff(dirs: Dirs, id: Id)
    requires Consistent(dirs) && id in dirs
    ensures SubtreeRows(dirs, id) == Cascade(dirs, {id}) <==>
            forall k | k in dirs && LikeUnder(dirs[id].path, dirs[k].path) :: IsDescendant(dirs[id].path, dirs[k].path)
  {
    CascadeIsSubtree(dirs, id);
    PathShape(dirs, id);
    var like, all := SubtreeRows(dirs, id), Cascade(dirs, {id});
    forall k | k in all ensures k in like {
      if k != id { DescendantIsLike(dirs[id].path, dirs[k].path); }
    }
    if like == all {
      forall k | k in dirs && LikeUnder(dirs[id].path, dirs[k].path) ensures IsDescendant(dirs[id].path, dirs[k].path) {
        assert k in like;
        assert k != id;
      }
    }
  }

  /** What a delete leaves is still consistent. */
  lemma DeleteConsistent(dirs: Dirs, id: Id)
    requires Consistent(dirs) && id in dirs
    ensures Consistent(dirs - Cascade(dirs, {id}))
  {
    var left := dirs - Cascade(dirs, {id});
    forall k | k in left ensures Linked(left, k) {
      assert Linked(dirs, k);
    }
  }

  // ------------------------------------------------------- the table itself

  lemma SetRowUnique(dirs: Dirs, id: Id, parent: Id, name: string, newPath: string)
    requires Consistent(dirs) && MayRelocate(dirs, id, parent, name, newPath)
    ensures UniquePaths(SetRow(dirs, id, parent, name, newPath)) && UniqueNames(SetRow(dirs, id, parent, name, newPath))
  {
    PathsUnique(dirs);
    forall c | c in dirs ensures !(dirs[c].parent == parent && dirs[c].name == name) {
      assert Linked(dirs, c);
    }
  }

  /** Both statements of a legitimate rename or move satisfy the unique indexes. */
  lemma RelocateAccepted(dirs: Dirs, id: Id, parent: Id, name: string, newPath: string)
    requires Consistent(dirs) && MayRelocate(dirs, id, parent, name, newPath) && NoCaseTwin(dirs, id, newPath)
    ensures UniquePaths(SetRow(dirs, id, parent, name, newPath)) && UniqueNames(SetRow(dirs, id, parent, name, newPath))
    ensures UniquePaths(Relocate(dirs, id, parent, name, newPath)) && Consistent(Relocate(dirs, id, parent, name, newPath))
  {
    SetRowUnique(dirs, id, parent, name, newPath);
    RelocateConsistentIff(dirs, id, parent, name, newPath);
    PathsUnique(Relocate(dirs, id, parent, name, newPath));
  }

  /** Neither UPDATE of a rename or a move meets a unique index. */
  predicate Accepted(dirs: Dirs, id: Id, parent: Id, name: string, newPath: string)
    requires id in dirs
  {
    && UniquePaths(SetRow(dirs, id, parent, name, newPath)) && UniqueNames(SetRow(dirs, id, parent, name, newPath))
    && UniquePaths(Relocate(dirs, id, parent, name, newPath))
  }

  /** For a legitimate rename or move the first UPDATE never meets an index, and without a
      case twin the second does not either. */
  lemma AcceptedIff(dirs: Dirs, id: Id, parent: Id, name: string, newPath: string)
    requires Consistent(dirs) && MayRelocate(dirs, id, parent, name, newPath)
    ensures Accepted(dirs, id, parent, name, newPath) <==> UniquePaths(Relocate(dirs, id, parent, name, newPath))
    ensures NoCaseTwin(dirs, id, newPath) ==>
              Accepted(dirs, id, parent, name, newPath) && Consistent(Relocate(dirs, id, parent, name, newPath))
  {
    SetRowUnique(dirs, id, parent, name, newPath);
    hide Relocate, SetRow, UniquePaths, UniqueNames, Consistent, MayRelocate, NoCaseTwin;
    if NoCaseTwin(dirs, id, newPath) { RelocateAccepted(dirs, id, parent, name, newPath); }
  }

  /** The dirs table as the database package updates it, one transaction a method. */
  class DirTable {
    var dirs: Dirs

    constructor ()
      ensures dirs == map[] && Consistent(dirs)
    {
      dirs := map[];
    }

    method InsertDir(id: Id, dir: Dir) returns (status: Status)
      modifies this
      ensures status == Done <==> id !in old(dirs) && forall k | k in old(dirs) ::
                old(dirs)[k].path != dir.path && (old(dirs)[k].parent, old(dirs)[k].name) != (dir.parent, dir.name)
      ensures dirs == if status == Done then old(dirs)[id := dir] else old(dirs)
      ensures status == Done && Consistent(old(dirs)) && id != "" && PlainName(dir.name)
              && (dir.parent == "" || dir.parent in old(dirs))
              && dir.path == Join(DirPath(old(dirs), dir.parent), dir.name)
              ==> Consistent(dirs)
    {
      if id in dirs || exists k | k in dirs :: dirs[k].path == dir.path || (dirs[k].parent == dir.parent && dirs[k].name == dir.name) {
        status := Conflict;
      } else {
        if AllLinked(dirs) && id != "" {
          InsertKeepsLinks(dirs, id, dir);
        }
        dirs := dirs[id := dir];
        status := Done;
      }
    }

    /** The shared transaction of RenameDir and MoveDir: two UPDATEs, rolled back when
        either meets a unique index. */
    method Update(id: Id, parent: Id, name: string, newPath: string) returns (status: Status)
      modifies this
      ensures status == Missing <==> id !in old(dirs)
      ensures status == Done <==> id in old(dirs) && Accepted(old(dirs), id, parent, name, newPath)
      ensures status == Done ==> dirs == Relocate(old(dirs), id, parent, name, newPath)
      ensures status != Done ==> dirs == old(dirs)
      ensures Consistent(old(dirs)) && MayRelocate(old(dirs), id, parent, name, newPath) && NoCaseTwin(old(dirs), id, newPath)
              ==> status == Done && Consistent(dirs)
    {
      if id !in dirs {
        return Missing;
      }
      ghost var before := dirs;
      if Consistent(dirs) && MayRelocate(dirs, id, parent, name, newPath) && NoCaseTwin(dirs, id, newPath) {
        RelocateAccepted(dirs, id, parent, name, newPath);
      }
      var rows := SetRow(dirs, id, parent, name, newPath);
      if !UniquePaths(rows) || !UniqueNames(rows) {
        return Conflict;
      }
      rows := SwapPrefix(rows, dirs[id].path, newPath);
      if !UniquePaths(rows) {
        return Conflict;
      }
      dirs := rows;
      status := Done;
    }

    method RenameDir(id: Id, newName: string, newPath: string) returns (status: Status)
      modifies this
      ensures status == Missing <==> id !in old(dirs)
      ensures status == Done ==> dirs == Relocate(old(dirs), id, old(dirs)[id].parent, newName, newPath)
      ensures status != Done ==> dirs == old(dirs)
      ensures Consistent(old(dirs)) && id in old(dirs)
              && MayRelocate(old(dirs), id, old(dirs)[id].parent, newName, newPath) && NoCaseTwin(old(dirs), id, newPath)
              ==> status == Done && Consistent(dirs)
    {
      status := Update(id, if id in dirs then dirs[id].parent else "", newName, newPath);
    }

    method MoveDir(id: Id, newParent: Id, newPath: string) returns (status: Status)
      modifies this
      ensures status == Missing <==> id !in old(dirs)
      ensures status == Done ==> dirs == Relocate(old(dirs), id, newParent, old(dirs)[id].name, newPath)
      ensures status != Done ==> dirs == old(dirs)
      ensures Consistent(old(dirs)) && id in old(dirs)
              && MayRelocate(old(dirs), id, newParent, old(dirs)[id].name, newPath) && NoCaseTwin(old(dirs), id, newPath)
              ==> status == Done && Consistent(dirs)
    {
      status := Update(id, newParent, if id in dirs then dirs[id].name else "", newPath);
    }

    method DeleteDir(id: Id) returns (status: Status)
      modifies this
      ensures status == if id in old(dirs) then Done else Missing
      ensures dirs == if id in old(dirs) then old(dirs) - Cascade(old(dirs), {id}) else old(dirs)
      ensures Consistent(old(dirs)) ==>
                && Consistent(dirs)
                && forall k | k in old(dirs) && id in old(dirs) ::
                     k in dirs <==> k != id && !IsDescendant(old(dirs)[id].path, old(dirs)[k].path)
    {
      if id !in dirs {
        return Missing;
      }
      if Consistent(dirs) {
        CascadeIsSubtree(dirs, id);
        DeleteConsistent(dirs, id);
      }
      dirs := dirs - Cascade(dirs, {id});
      status := Done;
    }
  }

  lemma InsertKeepsLinks(dirs: Dirs, id: Id, dir: Dir)
    requires AllLinked(dirs) && id !in dirs && id != ""
    ensures forall k | k in dirs :: Linked(dirs[id := dir], k)
  {
    forall k | k in dirs ensures Linked(dirs[id := dir], k) {
      assert Linked(dirs, k);
    }
  }
}
