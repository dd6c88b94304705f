/** Paths of the drive: absolute, slash-separated, no trailing slash
    (internal/drive/path.go). A string is a sequence of Unicode scalar values. */
module Paths {
  import opened Text

  const ROOT: string := "/"

  /** A path component that can be told apart from its neighbours. */
  predicate PlainName(name: string) {
    name != "" && '/' !in name
  }

  /** Extends a clean path by one component. */
  function Join(parent: string, name: string): string {
    if parent == ROOT || parent == "" then ROOT + name else parent + "/" + name
  }

  /** strings.LastIndex(p, "/"): the last position of a slash, or -1. */
  function LastSlash(p: string): (i: int)
    ensures -1 <= i < |p|
    ensures i >= 0 ==> p[i] == '/'
    ensures forall k | i < k < |p| :: p[k] != '/'
  {
    if p == "" then -1
    else if p[|p| - 1] == '/' then |p| - 1
    else LastSlash(p[..|p| - 1])
  }

  /** The containing directory and the final component. */
  function Parent(p: string): (string, string) {
    if p == ROOT || p == "" then (ROOT, "")
    else
      var i := LastSlash(p);
      if i <= 0 then (ROOT, p[1..]) else (p[..i], p[i + 1..])
  }

  /** Whether child lies strictly inside parent. */
  predicate IsDescendant(parent: string, child: string) {
    if parent == ROOT then child != ROOT else parent + "/" <= child
  }

  /** strings.Trim(s, "/"). */
  function TrimSlashes(s: string): (r: string)
    decreases |s|
  {
    if s == "" then ""
    else if s[0] == '/' then TrimSlashes(s[1..])
    else if s[|s| - 1] == '/' then TrimSlashes(s[..|s| - 1])
    else s
  }

  /** The components of a path, none for the root. */
  function SplitPath(p: string): seq<string> {
    var trimmed := TrimSlashes(p);
    if trimmed == "" then [] else SplitOn(trimmed, '/')
  }

  /** Directory names from a path outwards, nearest first. */
  function AncestorNames(dirPath: string): seq<string> {
    Reversed(SplitPath(dirPath))
  }

  function Reversed<T>(s: seq<T>): (r: seq<T>)
    ensures |r| == |s|
    ensures forall k | 0 <= k < |s| :: r[k] == s[|s| - 1 - k]
  {
    if s == [] then [] else Reversed(s[1..]) + [s[0]]
  }

  /** The path reached by walking the given names from the root. */
  function PathOf(names: seq<string>): string {
    if names == [] then ROOT
    else Join(PathOf(names[..|names| - 1]), names[|names| - 1])
  }

  // ---------------------------------------------------------------- lemmas

  lemma JoinLonger(parent: string, name: string)
    requires name != ""
    ensures |Join(parent, name)| > |parent|
    ensures Join(parent, name) != "" && Join(parent, name) != ROOT
  {
    assert |ROOT| == 1;
  }

  lemma LastSlashIs(p: string, i: nat)
    requires i < |p| && p[i] == '/' && forall k | i < k < |p| :: p[k] != '/'
    ensures LastSlash(p) == i
  {
    var j := LastSlash(p);
    assert p[i] == '/';
  }

  /** Everything else lies inside the root, and nothing inside itself or above. */
  lemma InsideRoot(p: string, q: string)
    ensures IsDescendant(ROOT, p) <==> p != ROOT
    ensures IsDescendant(p, q) && p != ROOT ==> |q| > |p| && p <= q && q[|p|] == '/'
    ensures Join(ROOT, p) == "/" + p && Join("", p) == "/" + p
  {
  }

  lemma LastComponent(parent: string, name: string)
    requires parent != "" && PlainName(name)
    ensures var p := Join(parent, name); p[LastSlash(p) + 1..] == name
  {
    hide LastSlash;
    var p, front := Join(parent, name), if parent == ROOT then ROOT else parent + "/";
    assert p == front + name && front[|front| - 1] == '/';
    forall k | |front| - 1 < k < |p| ensures p[k] != '/' { assert p[k] == name[k - |front|]; }
    LastSlashIs(p, |front| - 1);
  }

  /** Parent undoes Join. */
  lemma ParentOfJoin(parent: string, name: string)
    requires parent != "" && PlainName(name)
    ensures Parent(Join(parent, name)) == (parent, name)
  {
    var p := Join(parent, name);
    JoinLonger(parent, name);
    if parent == ROOT {
      LastSlashIs(p, 0);
    } else {
      assert p[|parent|] == '/';
      forall k | |parent| < k < |p| ensures p[k] != '/' {
        assert p[k] == name[k - |parent| - 1];
      }
      LastSlashIs(p, |parent|);
      assert p[..|parent|] == parent && p[|parent| + 1..] == name;
    }
  }

  /** Two different (directory, name) pairs never share a path. */
  lemma JoinInjective(p: string, m: string, q: string, n: string)
    requires p != "" && q != "" && PlainName(m) && PlainName(n)
    requires Join(p, m) == Join(q, n)
    ensures p == q && m == n
  {
    ParentOfJoin(p, m);
    ParentOfJoin(q, n);
  }

  /** No slash lies inside the component that Join adds. */
  lemma JoinTail(parent: string, name: string)
    requires PlainName(name)
    ensures var p := Join(parent, name);
            |name| < |p| && (forall k | |p| - |name| <= k < |p| :: p[k] != '/')
  {
    var p := Join(parent, name);
    forall k | |p| - |name| <= k < |p| ensures p[k] != '/' {
      assert p[k] == name[k - (|p| - |name|)];
    }
  }

  /** Inside a directory means: that directory, or something inside it, is the parent. */
  lemma DescendantOfJoin(dir: string, parent: string, name: string)
    requires dir != "" && dir != ROOT && parent != "" && PlainName(name)
    ensures IsDescendant(dir, Join(parent, name)) <==> dir == parent || IsDescendant(dir, parent)
  {
    var c := Join(parent, name);
    JoinTail(parent, name);
    if IsDescendant(dir, c) {
      assert c[|dir|] == (dir + "/")[|dir|];
      if parent != ROOT {
        assert |dir| <= |parent|;
        assert c[..|parent|] == parent;
        assert dir == c[..|dir|];
        assert parent[..|dir|] == dir;
        if |dir| < |parent| {
          assert parent[|dir|] == c[|dir|];
          assert parent[..|dir| + 1] == dir + "/";
        }
      }
    }
  }

  lemma TrimRooted(s: string)
    requires s != "" && s[0] != '/' && s[|s| - 1] != '/'
    ensures TrimSlashes(s) == s && TrimSlashes("/" + s) == s
  {
    assert ("/" + s)[1..] == s;
  }

  /** A walk of plain names ends in a plain character, after one leading slash. */
  lemma {:induction false} PathOfShape(names: seq<string>)
    requires names != [] && forall n | n in names :: PlainName(n)
    ensures var p := PathOf(names);
            |p| >= 2 && p[0] == '/' && p[1] != '/' && p[|p| - 1] != '/'
  {
    var k := |names| - 1;
    var last := names[k];
    assert PlainName(last);
    JoinTail(PathOf(names[..k]), last);
    if k > 0 {
      PathOfShape(names[..k]);
    } else {
      assert names[..k] == [];
    }
  }

  /** Splitting undoes walking: the components of a clean path are the names on it. */
  lemma {:induction false} SplitOfPath(names: seq<string>)
    requires forall n | n in names :: PlainName(n)
    ensures SplitPath(PathOf(names)) == names
  {
    if names == [] {
      assert "/"[1..] == "";
    } else {
      var k := |names| - 1;
      var last := names[k];
      assert PlainName(last);
      PathOfShape(names);
      if k == 0 {
        assert names == [last] && names[..k] == [];
        assert ("/" + last)[1..] == last;
        SplitRooted("/" + last);
      } else {
        SplitOfPath(names[..k]);
        PathOfShape(names[..k]);
        SplitOfJoin(PathOf(names[..k]), last);
        assert names == names[..k] + [last];
      }
    }
  }

  lemma SplitOfJoin(p: string, name: string)
    requires |p| >= 2 && p[0] == '/' && p[1] != '/' && p[|p| - 1] != '/' && PlainName(name)
    ensures SplitPath(Join(p, name)) == SplitPath(p) + [name]
  {
    var j := Join(p, name);
    JoinTail(p, name);
    SplitRooted(p);
    SplitRooted(j);
    assert j[1..] == p[1..] + "/" + name;
    SplitLast(p[1..], '/', name);
  }

  lemma SplitRooted(p: string)
    requires |p| >= 2 && p[0] == '/' && p[1] != '/' && p[|p| - 1] != '/'
    ensures SplitPath(p) == SplitOn(p[1..], '/')
  {
    assert p == "/" + p[1..];
    TrimRooted(p[1..]);
  }
}
