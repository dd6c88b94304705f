/** When sibling names differ in more than ASCII case, LIKE matches a subtree exactly. */
module CaseFold {
  import opened Paths
  import opened Tree

  function FoldAll(s: string): (r: string)
    ensures |r| == |s| && forall k | 0 <= k < |s| :: r[k] == Fold(s[k])
  {
    if s == "" then "" else [Fold(s[0])] + FoldAll(s[1..])
  }

  predicate SiblingsApart(dirs: Dirs) {
    forall a, b | a in dirs && b in dirs && a != b && dirs[a].parent == dirs[b].parent ::
      FoldAll(dirs[a].name) != FoldAll(dirs[b].name)
  }

  lemma FoldRoot(p: string)
    ensures FoldAll(p) == ROOT <==> p == ROOT
  {
    if |p| == 1 { assert p == [p[0]] && FoldAll(p) == [Fold(p[0])]; }
  }

  lemma FoldPlain(name: string)
    requires PlainName(name)
    ensures PlainName(FoldAll(name))
  {
    forall k | 0 <= k < |name| ensures FoldAll(name)[k] != '/' {
      assert name[k] in name;
    }
  }

  lemma FoldConcat(a: string, b: string)
    ensures FoldAll(a + b) == FoldAll(a) + FoldAll(b)
  {
  }

  lemma FoldJoin(p: string, name: string)
    requires PlainName(name) && p != ""
    ensures FoldAll(Join(p, name)) == Join(FoldAll(p), FoldAll(name)) && PlainName(FoldAll(name)) && FoldAll(p) != ""
  {
    FoldRoot(p);
    FoldPlain(name);
    FoldConcat(p + "/", name);
    FoldConcat(p, "/");
    FoldConcat(ROOT, name);
    FoldRoot("/");
    assert FoldAll(p) != "" by { assert |FoldAll(p)| == |p|; }
    hide FoldAll, PlainName;
  }

  /** Paths that differ only in ASCII case are the same path. */
  lemma {:induction false} PathsApart(dirs: Dirs, a: Id, b: Id)
    requires Consistent(dirs) && SiblingsApart(dirs) && a in dirs && b in dirs
    requires FoldAll(dirs[a].path) == FoldAll(dirs[b].path)
    ensures a == b
    decreases |dirs[a].path|
  {
    assert Linked(dirs, a) && Linked(dirs, b);
    PathShape(dirs, a);
    PathShape(dirs, b);
    var p, q := dirs[a].parent, dirs[b].parent;
    FoldJoin(DirPath(dirs, p), dirs[a].name);
    FoldJoin(DirPath(dirs, q), dirs[b].name);
    JoinInjective(FoldAll(DirPath(dirs, p)), FoldAll(dirs[a].name), FoldAll(DirPath(dirs, q)), FoldAll(dirs[b].name));
    if p in dirs { NotRootFolded(dirs, p); }
    if q in dirs { NotRootFolded(dirs, q); }
    if p in dirs && q in dirs {
      PathsApart(dirs, p, q);
    }
  }

  lemma NotRootFolded(dirs: Dirs, id: Id)
    requires AllLinked(dirs) && id in dirs
    ensures FoldAll(dirs[id].path) != FoldAll(ROOT)
  {
    PathShape(dirs, id);
    FoldRoot(dirs[id].path);
    FoldRoot(ROOT);
  }

  /** A LIKE match of the subtree pattern lies in the subtree. */
  lemma LikeIsDescendant(dirs: Dirs, root: Id, k: Id)
    requires Consistent(dirs) && SiblingsApart(dirs) && root in dirs && k in dirs
    requires LikeUnder(dirs[root].path, dirs[k].path)
    ensures IsDescendant(dirs[root].path, dirs[k].path)
  {
    var was, path := dirs[root].path, dirs[k].path;
    var up := path[..|was|];
    PathShape(dirs, root);
    assert path[..|was| + 1] == up + "/";
    assert FoldAll(up) == FoldAll(was);
    NotRootFolded(dirs, root);
    var a := AncestorRow(dirs, k, up);
    PathsApart(dirs, a, root);
  }

  lemma NewNameNotUnder(parent: string, was: string, name: string)
    requires PlainName(name) && PlainName(was)
    ensures !LikeUnder(Join(parent, was), Join(parent, name))
  {
    JoinTail(parent, name);
    var root, path := Join(parent, was), Join(parent, name);
    if |root| < |path| {
      assert |path| - |name| <= |root|;
    }
  }

  /** So a rename in place drags no foreign row along. */
  lemma RenameHasNoTwin(dirs: Dirs, id: Id, name: string)
    requires Consistent(dirs) && SiblingsApart(dirs) && id in dirs && PlainName(name)
    ensures NoCaseTwin(dirs, id, Join(DirPath(dirs, dirs[id].parent), name))
  {
    forall k | k in dirs && LikeUnder(dirs[id].path, dirs[k].path) ensures IsDescendant(dirs[id].path, dirs[k].path) {
      LikeIsDescendant(dirs, id, k);
    }
    assert Linked(dirs, id);
    NewNameNotUnder(DirPath(dirs, dirs[id].parent), dirs[id].name, name);
  }
}
