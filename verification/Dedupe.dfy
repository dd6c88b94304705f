/** Making the paths and file names of a rebuilt tree distinct, and the order in which
    its rows are written back (internal/indexer/indexer.go). */
module Dedupe {
  import opened BuildTree
  import opened Decimal
  import opened Order
  import opened Paths
  import opened Tree

  function Depth(dirs: Dirs, id: Id): nat
    requires id in dirs
  {
    |SplitPath(dirs[id].path)|
  }

  /** Shallowest first; within a depth, the oldest id first. */
  predicate Before(dirs: Dirs, a: Id, b: Id)
    requires a in dirs && b in dirs
  {
    Depth(dirs, a) < Depth(dirs, b) || (Depth(dirs, a) == Depth(dirs, b) && Less(a, b))
  }

  ghost predicate IsListing(dirs: Dirs, ids: seq<Id>) {
    && (forall id :: id in ids <==> id in dirs)
    && (forall i, j | 0 <= i < j < |ids| :: Before(dirs, ids[i], ids[j]))
  }

  predicate IsFirst(dirs: Dirs, s: set<Id>, m: Id)
    requires s <= dirs.Keys
  {
    m in s && forall k | k in s && k != m :: Before(dirs, m, k)
  }

  lemma {:induction false} FirstExists(dirs: Dirs, s: set<Id>)
    requires s != {} && s <= dirs.Keys
    ensures exists m :: IsFirst(dirs, s, m)
    decreases |s|
  {
    var x :| x in s;
    var rest := s - {x};
    if rest == {} {
      assert s == {x};
      assert IsFirst(dirs, s, x);
    } else {
      FirstExists(dirs, rest);
      var m :| IsFirst(dirs, rest, m);
      LessTotal(x, m);
      if Before(dirs, m, x) {
        assert IsFirst(dirs, s, m);
      } else {
        forall k | k in s && k != x ensures Before(dirs, x, k) {
          if k != m { BeforeTransitive(dirs, x, m, k); }
        }
        assert IsFirst(dirs, s, x);
      }
    }
  }

  lemma BeforeTransitive(dirs: Dirs, a: Id, b: Id, c: Id)
    requires a in dirs && b in dirs && c in dirs && Before(dirs, a, b) && Before(dirs, b, c)
    ensures Before(dirs, a, c)
  {
    if Less(a, b) && Less(b, c) { LessTransitive(a, b, c); }
  }

  /** sort.Slice on the ids. */
  method SortIds(dirs: Dirs) returns (ids: seq<Id>)
    ensures IsListing(dirs, ids)
  {
    ids := [];
    var rest := dirs.Keys;
    while rest != {}
      invariant rest <= dirs.Keys
      invariant forall id :: id in ids <==> id in dirs && id !in rest
      invariant forall i, j | 0 <= i < j < |ids| :: Before(dirs, ids[i], ids[j])
      invariant forall i, k | 0 <= i < |ids| && k in rest :: Before(dirs, ids[i], k)
      decreases rest
    {
      FirstExists(dirs, rest);
      var m :| m in rest && IsFirst(dirs, rest, m);
      ids := ids + [m];
      rest := rest - {m};
    }
  }

  // ------------------------------------------------- the suffix search

  function Numbered(name: string, n: nat): string {
    name + " (" + Itoa(n) + ")"
  }

  /** The n-th name tried: the plain name first, then numbered ones from 2. */
  function Variant(name: string, n: nat): string {
    if n <= 1 then name else Numbered(name, n)
  }

  lemma VariantInjective(name: string, m: nat, n: nat)
    requires m >= 1 && n >= 1 && Variant(name, m) == Variant(name, n)
    ensures m == n
  {
    assert m > 1 ==> |Variant(name, m)| > |name|;
    assert n > 1 ==> |Variant(name, n)| > |name|;
    if m > 1 && n > 1 {
      var s, t := Itoa(m), Itoa(n);
      assert Numbered(name, m)[|name| + 2..|name| + 2 + |s|] == s;
      assert |s| == |t|;
      assert Numbered(name, n)[|name| + 2..|name| + 2 + |t|] == t;
      ItoaInjective(m, n);
    }
  }

  lemma VariantPlain(name: string, n: nat)
    requires PlainName(name)
    ensures PlainName(Variant(name, n))
  {
    if n > 1 {
      var v := Numbered(name, n);
      forall k | 0 <= k < |v| ensures v[k] != '/' {
        var s := Itoa(n);
        assert AllDigits(s);
        if |name| + 2 <= k < |name| + 2 + |s| { assert v[k] == s[k - |name| - 2]; assert v[k] in s; }
      }
    }
  }

  lemma JoinSameParent(parent: string, m: string, n: string)
    requires Join(parent, m) == Join(parent, n)
    ensures m == n
  {
    var k := |Join(parent, m)| - |m|;
    assert Join(parent, m)[|Join(parent, m)| - |m|..] == m;
    assert Join(parent, n)[|Join(parent, n)| - |n|..] == n;
  }

  /** The least n whose variant is not taken; the search stops because every probe
      that fails uses up another taken path. */
  method FreeVariant(parent: string, name: string, taken: set<string>) returns (n: nat)
    ensures n >= 1 && Join(parent, Variant(name, n)) !in taken
    ensures forall k | 1 <= k < n :: Join(parent, Variant(name, k)) in taken
  {
    n := 1;
    ghost var left := taken;
    while Join(parent, Variant(name, n)) in taken
      invariant n >= 1 && left <= taken
      invariant forall k | 1 <= k < n :: Join(parent, Variant(name, k)) in taken
      invariant forall k | k >= n && Join(parent, Variant(name, k)) in taken :: Join(parent, Variant(name, k)) in left
      decreases |left|
    {
      var path := Join(parent, Variant(name, n));
      forall k | k > n && Join(parent, Variant(name, k)) in taken ensures Join(parent, Variant(name, k)) in left - {path} {
        if Join(parent, Variant(name, k)) == path {
          JoinSameParent(parent, Variant(name, k), Variant(name, n));
          VariantInjective(name, k, n);
        }
      }
      left := left - {path};
      n := n + 1;
    }
  }

  // ------------------------------------------------- dedupePaths

  lemma DepthOfChild(dirs: Dirs, id: Id)
    requires AllLinked(dirs) && id in dirs && dirs[id].parent in dirs
    ensures Depth(dirs, dirs[id].parent) < Depth(dirs, id)
  {
    StoredPathIsWalk(dirs, id);
    StoredPathIsWalk(dirs, dirs[id].parent);
    SplitOfPath(NamesTo(dirs, id));
    SplitOfPath(NamesTo(dirs, dirs[id].parent));
    assert dirs[id].parent != "";
    PathShape(dirs, id);
  }

  /** A parent precedes its children in the listing. */
  lemma ParentListedFirst(dirs: Dirs, ids: seq<Id>, i: nat)
    requires AllLinked(dirs) && IsListing(dirs, ids) && i < |ids|
    ensures dirs[ids[i]].parent == "" || dirs[ids[i]].parent in ids[..i]
  {
    var id := ids[i];
    assert id in dirs;
    assert Linked(dirs, id);
    var p := dirs[id].parent;
    if p != "" {
      assert p in ids;
      var j :| 0 <= j < |ids| && ids[j] == p;
      DepthOfChild(dirs, id);
      assert j != i;
      assert j > i ==> Before(dirs, ids[i], ids[j]);
      assert ids[..i][j] == p;
    }
  }

  /** Where the next row goes: under its parent's final path, or at the root. */
  function FinalParent(final: map<Id, string>, parent: Id): string {
    if parent != "" && parent in final then final[parent] else ROOT
  }

  /** The rows settled so far have their final paths; the others are as they were. */
  ghost predicate Settled(dirs: Dirs, rows: Dirs, final: map<Id, string>) {
    && rows.Keys == dirs.Keys && final.Keys <= dirs.Keys
    && (forall k | k in dirs :: rows[k].parent == dirs[k].parent && rows[k].msg == dirs[k].msg)
    && (forall k | k in dirs && k !in final :: rows[k] == dirs[k])
    && (forall k | k in final :: rows[k].path == final[k])
  }

  ghost predicate SettledNames(dirs: Dirs, rows: Dirs) {
    forall k | k in dirs :: k in rows && exists n :: n >= 1 && rows[k].name == Variant(dirs[k].name, n)
  }

  /** The taken paths are the final ones, each of one directory. */
  ghost predicate Taken(final: map<Id, string>, taken: set<string>) {
    && (forall k | k in final :: final[k] in taken)
    && (forall p | p in taken :: exists k :: k in final && final[k] == p)
    && (forall a, b | a in final && b in final && final[a] == final[b] :: a == b)
  }

  /** Settled rows whose parents are settled too form linked paths. */
  ghost predicate SettledLinks(rows: Dirs, final: map<Id, string>) {
    forall k | k in final :: k in rows && Linked(rows, k) && (rows[k].parent == "" || rows[k].parent in final)
  }

  lemma TakeOne(final: map<Id, string>, taken: set<string>, id: Id, path: string)
    requires Taken(final, taken) && id !in final && path !in taken
    ensures Taken(final[id := path], taken + {path})
  {
    var final', taken' := final[id := path], taken + {path};
    forall p | p in taken' ensures exists k :: k in final' && final'[k] == p {
      if p == path {
        assert final'[id] == p;
      } else {
        var k :| k in final && final[k] == p;
        assert final'[k] == p;
      }
    }
  }

  lemma NameOne(dirs: Dirs, rows: Dirs, id: Id, n: nat, path: string)
    requires SettledNames(dirs, rows) && id in dirs && n >= 1
    ensures SettledNames(dirs, rows[id := dirs[id].(name := Variant(dirs[id].name, n), path := path)])
  {
    var rows' := rows[id := dirs[id].(name := Variant(dirs[id].name, n), path := path)];
    forall k | k in dirs ensures exists m :: m >= 1 && rows'[k].name == Variant(dirs[k].name, m) {
      if k != id { assert rows'[k] == rows[k]; }
    }
  }

  lemma StillLinked(rows: Dirs, id: Id, row: Dir, k: Id)
    requires k in rows && k != id && Linked(rows, k) && rows[k].parent != id
    ensures Linked(rows[id := row], k)
  {
    assert DirPath(rows[id := row], rows[k].parent) == DirPath(rows, rows[k].parent);
  }

  lemma LinkedName(dirs: Dirs, id: Id)
    requires AllLinked(dirs) && id in dirs
    ensures PlainName(dirs[id].name) && id != "" && "" !in dirs
  {
    assert Linked(dirs, id);
  }

  lemma NewRowLinked(dirs: Dirs, rows: Dirs, final: map<Id, string>, id: Id, n: nat)
    requires Settled(dirs, rows, final) && id in dirs && id !in final && "" !in dirs && PlainName(dirs[id].name)
    requires dirs[id].parent == "" || dirs[id].parent in final
    ensures var name := Variant(dirs[id].name, n);
            var path := Join(FinalParent(final, dirs[id].parent), name);
            Linked(rows[id := dirs[id].(name := name, path := path)], id)
  {
    VariantPlain(dirs[id].name, n);
  }

  lemma LinkOne(rows: Dirs, final: map<Id, string>, id: Id, row: Dir, path: string)
    requires SettledLinks(rows, final) && id != "" && id !in final
    requires row.parent == "" || row.parent in final
    requires Linked(rows[id := row], id)
    ensures SettledLinks(rows[id := row], final[id := path])
  {
    hide Linked;
    forall k | k in final ensures Linked(rows[id := row], k) {
      StillLinked(rows, id, row, k);
    }
  }

  /** A row that keeps an already distinct path keeps its name. */
  lemma KeepOne(dirs: Dirs, final: map<Id, string>, taken: set<string>, id: Id)
    requires Settled(dirs, dirs, final) && Taken(final, taken) && AllLinked(dirs) && UniquePaths(dirs)
    requires id in dirs && id !in final && (dirs[id].parent == "" || dirs[id].parent in final)
    ensures Join(FinalParent(final, dirs[id].parent), dirs[id].name) == dirs[id].path
    ensures dirs[id].path !in taken
  {
    assert Linked(dirs, id);
  }

  /** A table with one row renamed to its n-th variant under a parent path. */
  function Resettled(dirs: Dirs, rows: Dirs, id: Id, n: nat, parentPath: string): Dirs
    requires id in dirs
  {
    var name := Variant(dirs[id].name, n);
    rows[id := dirs[id].(name := name, path := Join(parentPath, name))]
  }

  lemma KeepRow(dirs: Dirs, final: map<Id, string>, taken: set<string>, id: Id, n: nat)
    requires Settled(dirs, dirs, final) && Taken(final, taken) && AllLinked(dirs) && UniquePaths(dirs)
    requires id in dirs && id !in final && (dirs[id].parent == "" || dirs[id].parent in final)
    requires n >= 1 && forall k | 1 <= k < n :: Join(FinalParent(final, dirs[id].parent), Variant(dirs[id].name, k)) in taken
    ensures Resettled(dirs, dirs, id, n, FinalParent(final, dirs[id].parent)) == dirs
  {
    KeepOne(dirs, final, taken, id);
    assert Variant(dirs[id].name, 1) == dirs[id].name;
    assert n == 1;
  }

  /** What the loop of dedupePaths has achieved after the ids in done. */
  ghost predicate Progress(dirs: Dirs, done: seq<Id>, rows: Dirs, final: map<Id, string>, taken: set<string>) {
    && (forall k :: k in final <==> k in done)
    && Settled(dirs, rows, final) && SettledNames(dirs, rows) && Taken(final, taken)
    && (AllLinked(dirs) ==> SettledLinks(rows, final))
    && (AllLinked(dirs) && UniquePaths(dirs) ==> rows == dirs)
  }

  lemma ProgressOne(dirs: Dirs, done: seq<Id>, rows: Dirs, final: map<Id, string>, taken: set<string>, id: Id, n: nat)
    requires Progress(dirs, done, rows, final, taken) && id in dirs && id !in done
    requires AllLinked(dirs) ==> dirs[id].parent == "" || dirs[id].parent in done
    requires var at := FinalParent(final, dirs[id].parent);
             && n >= 1 && Join(at, Variant(dirs[id].name, n)) !in taken
             && forall k | 1 <= k < n :: Join(at, Variant(dirs[id].name, k)) in taken
    ensures var at := FinalParent(final, dirs[id].parent);
            var path := Join(at, Variant(dirs[id].name, n));
            Progress(dirs, done + [id], Resettled(dirs, rows, id, n, at), final[id := path], taken + {path})
  {
    hide AllLinked, UniquePaths, SettledLinks, Taken, SettledNames;
    var at := FinalParent(final, dirs[id].parent);
    var path := Join(at, Variant(dirs[id].name, n));
    TakeOne(final, taken, id, path);
    NameOne(dirs, rows, id, n, path);
    if AllLinked(dirs) {
      LinkedName(dirs, id);
      NewRowLinked(dirs, rows, final, id, n);
      LinkOne(rows, final, id, dirs[id].(name := Variant(dirs[id].name, n), path := path), path);
      if UniquePaths(dirs) {
        KeepRow(dirs, final, taken, id, n);
      }
    }
  }

  lemma ProgressStart(dirs: Dirs)
    ensures Progress(dirs, [], dirs, map[], {})
  {
    assert forall k | k in dirs :: dirs[k].name == Variant(dirs[k].name, 1);
  }

  lemma ProgressEnd(dirs: Dirs, ids: seq<Id>, rows: Dirs, final: map<Id, string>, taken: set<string>)
    requires Progress(dirs, ids, rows, final, taken) && IsListing(dirs, ids)
    ensures rows.Keys == dirs.Keys && UniquePaths(rows)
    ensures forall k | k in dirs :: rows[k].parent == dirs[k].parent && rows[k].msg == dirs[k].msg
    ensures SettledNames(dirs, rows)
    ensures AllLinked(dirs) ==> Consistent(rows)
    ensures AllLinked(dirs) && UniquePaths(dirs) ==> rows == dirs
  {
    if AllLinked(dirs) {
      SettledConsistent(rows, final);
    }
  }

  /** A directory loses its plain name only to one that comes before it: closer to the root,
      or as deep and with a lower id. */
  ghost predicate OldestKeepsName(dirs: Dirs, rows: Dirs)
    requires dirs.Keys <= rows.Keys
  {
    forall id | id in dirs ::
      || rows[id].name == dirs[id].name
      || exists k :: k in dirs && rows[k].path == Join(DirPath(rows, dirs[id].parent), dirs[id].name)
                     && (|| |SplitPath(dirs[k].path)| < |SplitPath(dirs[id].path)|
                         || (|SplitPath(dirs[k].path)| == |SplitPath(dirs[id].path)| && Less(k, id)))
  }

  ghost predicate NameLost(dirs: Dirs, rows: Dirs, done: seq<Id>, id: Id)
    requires id in dirs
  {
    exists k :: k in done && k in rows && rows[k].path == Join(DirPath(rows, dirs[id].parent), dirs[id].name)
  }

  /** The same for the ids settled so far. */
  ghost predicate NamesKept(dirs: Dirs, ids: seq<Id>, i: nat, rows: Dirs) {
    && i <= |ids|
    && forall a | 0 <= a < i && ids[a] in dirs ::
         ids[a] in rows && (rows[ids[a]].name == dirs[ids[a]].name || NameLost(dirs, rows, ids[..a], ids[a]))
  }

  /** Settling one more row leaves what the earlier ones have met. */
  lemma NameStaysLost(dirs: Dirs, ids: seq<Id>, i: nat, rows: Dirs, row: Dir, a: nat)
    requires AllLinked(dirs) && IsListing(dirs, ids) && a < i < |ids| && ids[a] in dirs && NameLost(dirs, rows, ids[..a], ids[a])
    ensures NameLost(dirs, rows[ids[i] := row], ids[..a], ids[a])
  {
    var more := rows[ids[i] := row];
    ListedOnce(dirs, ids, a);
    ListedOnce(dirs, ids, i);
    ParentListedFirst(dirs, ids, a);
    assert forall x | x in ids[..a] :: x in ids[..i];
    hide IsListing, AllLinked, Join;
    var k :| k in ids[..a] && k in rows && rows[k].path == Join(DirPath(rows, dirs[ids[a]].parent), dirs[ids[a]].name);
    assert more[k] == rows[k] && DirPath(more, dirs[ids[a]].parent) == DirPath(rows, dirs[ids[a]].parent);
  }

  lemma NamesKeptNext(dirs: Dirs, ids: seq<Id>, i: nat, rows: Dirs, final: map<Id, string>, taken: set<string>, n: nat)
    requires AllLinked(dirs) && IsListing(dirs, ids) && i < |ids| && ids[i] in dirs && NamesKept(dirs, ids, i, rows)
    requires Progress(dirs, ids[..i], rows, final, taken) && n >= 1
    requires forall k | 1 <= k < n :: Join(FinalParent(final, dirs[ids[i]].parent), Variant(dirs[ids[i]].name, k)) in taken
    ensures NamesKept(dirs, ids, i + 1, Resettled(dirs, rows, ids[i], n, FinalParent(final, dirs[ids[i]].parent)))
  {
    var id := ids[i];
    var at := FinalParent(final, dirs[id].parent);
    var more := Resettled(dirs, rows, id, n, at);
    var row := more[id];
    assert more == rows[id := row] && row.name == Variant(dirs[id].name, n);
    NewNameLost(dirs, ids, i, rows, row, final, taken, n);
    hide Progress, AllLinked, NameLost, IsListing, Variant, Resettled, FinalParent;
    forall a | 0 <= a < i + 1 && ids[a] in dirs
      ensures ids[a] in more && (more[ids[a]].name == dirs[ids[a]].name || NameLost(dirs, more, ids[..a], ids[a]))
    {
      if a < i {
        OtherThan(dirs, ids, a, i);
        if NameLost(dirs, rows, ids[..a], ids[a]) { NameStaysLost(dirs, ids, i, rows, row, a); }
      }
    }
  }

  lemma OtherThan(dirs: Dirs, ids: seq<Id>, a: nat, i: nat)
    requires IsListing(dirs, ids) && a < i < |ids|
    ensures ids[a] != ids[i]
  {
    ListedOnce(dirs, ids, i);
    assert ids[..i][a] == ids[a];
  }

  lemma NewNameLost(dirs: Dirs, ids: seq<Id>, i: nat, rows: Dirs, row: Dir, final: map<Id, string>, taken: set<string>, n: nat)
    requires AllLinked(dirs) && IsListing(dirs, ids) && i < |ids| && ids[i] in dirs && Progress(dirs, ids[..i], rows, final, taken)
    requires n >= 1 && row.name == Variant(dirs[ids[i]].name, n)
    requires forall k | 1 <= k < n :: Join(FinalParent(final, dirs[ids[i]].parent), Variant(dirs[ids[i]].name, k)) in taken
    ensures row.name == dirs[ids[i]].name || NameLost(dirs, rows[ids[i] := row], ids[..i], ids[i])
  {
    var id, more := ids[i], rows[ids[i] := row];
    PlainVariant(dirs[id].name);
    if n > 1 {
      PlainTaken(dirs, ids[..i], rows, final, taken, id);
      var k :| k in final && k in rows && rows[k].path == Join(FinalParent(final, dirs[id].parent), dirs[id].name);
      ListedOnce(dirs, ids, i);
      ParentListedFirst(dirs, ids, i);
      SettledParent(dirs, ids[..i], rows, final, taken, id, row);
      hide Progress, AllLinked, IsListing, FinalParent, Variant, Join;
      assert k in ids[..i] && more[k] == rows[k];
    }
  }

  lemma SettledParent(dirs: Dirs, done: seq<Id>, rows: Dirs, final: map<Id, string>, taken: set<string>, id: Id, row: Dir)
    requires Progress(dirs, done, rows, final, taken) && id in dirs && id !in done && "" !in dirs
    requires dirs[id].parent == "" || dirs[id].parent in done
    ensures DirPath(rows[id := row], dirs[id].parent) == FinalParent(final, dirs[id].parent)
    ensures forall k :: k in final <==> k in done
  {
    hide SettledNames, SettledLinks, Taken;
  }

  lemma PlainVariant(name: string)
    ensures Variant(name, 1) == name
  {
  }

  lemma PlainTaken(dirs: Dirs, done: seq<Id>, rows: Dirs, final: map<Id, string>, taken: set<string>, id: Id)
    requires Progress(dirs, done, rows, final, taken) && id in dirs
    requires Join(FinalParent(final, dirs[id].parent), Variant(dirs[id].name, 1)) in taken
    ensures exists k :: k in final && k in rows && rows[k].path == Join(FinalParent(final, dirs[id].parent), dirs[id].name)
  {
    PlainVariant(dirs[id].name);
    hide SettledNames, SettledLinks, Variant;
  }

  lemma OldestFirst(dirs: Dirs, ids: seq<Id>, rows: Dirs)
    requires IsListing(dirs, ids) && rows.Keys == dirs.Keys && NamesKept(dirs, ids, |ids|, rows)
    ensures OldestKeepsName(dirs, rows)
  {
    forall id | id in dirs && rows[id].name != dirs[id].name
      ensures exists k :: k in dirs && rows[k].path == Join(DirPath(rows, dirs[id].parent), dirs[id].name)
                          && (|| |SplitPath(dirs[k].path)| < |SplitPath(dirs[id].path)|
                              || (|SplitPath(dirs[k].path)| == |SplitPath(dirs[id].path)| && Less(k, id)))
    {
      assert id in ids;
      var a :| 0 <= a < |ids| && ids[a] == id;
      var k :| k in ids[..a] && k in rows && rows[k].path == Join(DirPath(rows, dirs[id].parent), dirs[id].name);
      var b :| 0 <= b < a && ids[b] == k;
      assert Before(dirs, ids[b], ids[a]);
    }
  }

  /** What the loop of dedupePaths has achieved after i of the ids. */
  ghost predicate Deduped(dirs: Dirs, ids: seq<Id>, i: nat, rows: Dirs, final: map<Id, string>, taken: set<string>) {
    && i <= |ids| && IsListing(dirs, ids) && Progress(dirs, ids[..i], rows, final, taken)
    && (AllLinked(dirs) ==> NamesKept(dirs, ids, i, rows))
  }

  lemma DedupeOne(dirs: Dirs, ids: seq<Id>, i: nat, rows: Dirs, final: map<Id, string>, taken: set<string>, n: nat)
    requires Deduped(dirs, ids, i, rows, final, taken) && i < |ids| && ids[i] in dirs
    requires var at := FinalParent(final, dirs[ids[i]].parent);
             && n >= 1 && Join(at, Variant(dirs[ids[i]].name, n)) !in taken
             && forall k | 1 <= k < n :: Join(at, Variant(dirs[ids[i]].name, k)) in taken
    ensures var at := FinalParent(final, dirs[ids[i]].parent);
            var path := Join(at, Variant(dirs[ids[i]].name, n));
            Deduped(dirs, ids, i + 1, Resettled(dirs, rows, ids[i], n, at), final[ids[i] := path], taken + {path})
  {
    hide Progress, NamesKept, IsListing, AllLinked, Resettled, FinalParent, Variant, Join;
    ListedOnce(dirs, ids, i);
    if AllLinked(dirs) {
      ParentListedFirst(dirs, ids, i);
      NamesKeptNext(dirs, ids, i, rows, final, taken, n);
    }
    assert ids[..i + 1] == ids[..i] + [ids[i]];
    ProgressOne(dirs, ids[..i], rows, final, taken, ids[i], n);
  }

  lemma DedupeEnds(dirs: Dirs, ids: seq<Id>, rows: Dirs, final: map<Id, string>, taken: set<string>)
    requires Deduped(dirs, ids, |ids|, rows, final, taken)
    ensures rows.Keys == dirs.Keys && UniquePaths(rows)
    ensures forall k | k in dirs :: rows[k].parent == dirs[k].parent && rows[k].msg == dirs[k].msg
    ensures SettledNames(dirs, rows)
    ensures AllLinked(dirs) ==> Consistent(rows)
    ensures AllLinked(dirs) && UniquePaths(dirs) ==> rows == dirs
    ensures AllLinked(dirs) ==> OldestKeepsName(dirs, rows)
  {
    assert ids[..|ids|] == ids;
    hide Progress, NamesKept, IsListing, AllLinked, UniquePaths, SettledNames, Consistent, OldestKeepsName;
    ProgressEnd(dirs, ids, rows, final, taken);
    if AllLinked(dirs) { OldestFirst(dirs, ids, rows); }
  }

  /** dedupePaths: all paths come out distinct, each directory keeps its parent and sits
      at that parent's final path under its own final name, which is the captioned name
      or a numbered variant of it; a tree that was already distinct is left alone. */
  method DedupePaths(dirs: Dirs) returns (rows: Dirs)
    ensures rows.Keys == dirs.Keys && UniquePaths(rows)
    ensures forall k | k in dirs :: rows[k].parent == dirs[k].parent && rows[k].msg == dirs[k].msg
    ensures SettledNames(dirs, rows)
    ensures AllLinked(dirs) ==> Consistent(rows)
    ensures AllLinked(dirs) && UniquePaths(dirs) ==> rows == dirs
    ensures AllLinked(dirs) ==> OldestKeepsName(dirs, rows)
  {
    var ids := SortIds(dirs);
    var final: map<Id, string> := map[];
    var taken: set<string> := {};
    rows := dirs;
    ProgressStart(dirs);
    assert ids[..0] == [] && Deduped(dirs, ids, 0, rows, final, taken);
    hide *;
    for i := 0 to |ids|
      invariant Deduped(dirs, ids, i, rows, final, taken)
    {
      var id := ids[i];
      DedupedListing(dirs, ids, i, rows, final, taken);
      var at := FinalParent(final, dirs[id].parent);
      var n := FreeVariant(at, dirs[id].name, taken);
      DedupeOne(dirs, ids, i, rows, final, taken, n);
      var path := Join(at, Variant(dirs[id].name, n));
      taken := taken + {path};
      final := final[id := path];
      rows := Resettled(dirs, rows, id, n, at);
    }
    DedupeEnds(dirs, ids, rows, final, taken);
  }

  lemma DedupedListing(dirs: Dirs, ids: seq<Id>, i: nat, rows: Dirs, final: map<Id, string>, taken: set<string>)
    requires Deduped(dirs, ids, i, rows, final, taken) && i < |ids|
    ensures ids[i] in dirs
  {
    hide Progress, NamesKept;
    assert ids[i] in ids;
  }

  lemma ListedOnce(dirs: Dirs, ids: seq<Id>, i: nat)
    requires IsListing(dirs, ids) && i < |ids|
    ensures ids[i] in dirs && ids[i] !in ids[..i]
  {
    assert ids[i] in ids;
    forall j | 0 <= j < i ensures ids[j] != ids[i] {
      assert Before(dirs, ids[j], ids[i]);
      LessIrreflexive(ids[i]);
    }
  }

  lemma SettledConsistent(rows: Dirs, final: map<Id, string>)
    requires SettledLinks(rows, final) && final.Keys == rows.Keys && "" !in rows && UniquePaths(rows)
    ensures Consistent(rows)
  {
    forall a, b | a in rows && b in rows && rows[a].parent == rows[b].parent && rows[a].name == rows[b].name ensures a == b {
      assert Linked(rows, a) && Linked(rows, b);
    }
  }

  // ------------------------------------------------- dedupeFileNames

  /** What a file row needs for its name to be settled. */
  datatype Named = Named(id: Id, dir: Id, name: string)

  predicate DistinctNames(files: seq<Named>) {
    forall i, j | 0 <= i < j < |files| :: (files[i].dir, files[i].name) != (files[j].dir, files[j].name)
  }

  /** The key of a taken name, dirID + "/" + name. */
  function NameKey(dir: Id, name: string): string {
    dir + "/" + name
  }

  lemma NameKeyInjective(d: Id, m: string, e: Id, n: string)
    requires '/' !in d && '/' !in e && NameKey(d, m) == NameKey(e, n)
    ensures d == e && m == n
  {
    var k, l := NameKey(d, m), NameKey(e, n);
    assert k[|d|] == '/' && l[|e|] == '/';
    assert forall i | 0 <= i < |d| :: k[i] == d[i] && d[i] != '/';
    assert forall i | 0 <= i < |e| :: l[i] == e[i] && e[i] != '/';
    assert k[..|d|] == d && l[..|e|] == e;
    assert k[|d| + 1..] == m && l[|e| + 1..] == n;
  }

  /** A free number from 2 up, as in FreeVariant. */
  method FreeNumber(dir: Id, name: string, taken: set<string>) returns (n: nat)
    ensures n >= 2 && NameKey(dir, Numbered(name, n)) !in taken
  {
    n := 2;
    ghost var left := taken;
    while NameKey(dir, Numbered(name, n)) in taken
      invariant n >= 2 && left <= taken
      invariant forall k | k >= n && NameKey(dir, Numbered(name, k)) in taken :: NameKey(dir, Numbered(name, k)) in left
      decreases |left|
    {
      var key := NameKey(dir, Numbered(name, n));
      forall k | k > n && NameKey(dir, Numbered(name, k)) in taken ensures NameKey(dir, Numbered(name, k)) in left - {key} {
        if NameKey(dir, Numbered(name, k)) == key {
          assert NameKey(dir, Numbered(name, k))[|dir| + 1..] == Numbered(name, k);
          assert key[|dir| + 1..] == Numbered(name, n);
          assert Variant(name, k) == Variant(name, n);
          VariantInjective(name, k, n);
        }
      }
      left := left - {key};
      n := n + 1;
    }
  }

  /** A row after dedupeFileNames: its name, or its name with a number from 2 up. */
  ghost predicate Renamed(was: Named, now: Named) {
    now.id == was.id && now.dir == was.dir && (now.name == was.name || exists n :: n >= 2 && now.name == Numbered(was.name, n))
  }

  function Keys(files: seq<Named>): set<string> {
    set k | 0 <= k < |files| :: NameKey(files[k].dir, files[k].name)
  }

  lemma KeyFree(files: seq<Named>, f: Named)
    requires DistinctNames(files) && NameKey(f.dir, f.name) !in Keys(files)
    ensures DistinctNames(files + [f]) && Keys(files + [f]) == Keys(files) + {NameKey(f.dir, f.name)}
  {
    forall k | 0 <= k < |files| ensures !(files[k].dir == f.dir && files[k].name == f.name) {
      assert NameKey(files[k].dir, files[k].name) in Keys(files);
    }
    forall s | s in Keys(files) ensures s in Keys(files + [f]) {
      var k :| 0 <= k < |files| && NameKey(files[k].dir, files[k].name) == s;
      assert (files + [f])[k] == files[k];
    }
    assert (files + [f])[|files|] == f;
  }

  lemma NumberedIsRenamed(f: Named)
    ensures Renamed(f, f) && forall n | n >= 2 :: Renamed(f, f.(name := Numbered(f.name, n)))
  {
  }

  /** Distinct names have distinct keys, since no directory id contains a slash. */
  lemma KeyTaken(files: seq<Named>, i: nat)
    requires forall f | f in files :: '/' !in f.dir
    requires i < |files| && NameKey(files[i].dir, files[i].name) in Keys(files[..i])
    ensures !DistinctNames(files)
  {
    var k :| 0 <= k < i && NameKey(files[..i][k].dir, files[..i][k].name) == NameKey(files[i].dir, files[i].name);
    assert files[k] in files && files[i] in files;
    NameKeyInjective(files[k].dir, files[k].name, files[i].dir, files[i].name);
  }

  /** The rows before i have their final names, the others their own. */
  ghost predicate NamedUpTo(files: seq<Named>, out: seq<Named>, i: nat) {
    |out| == |files| && forall k | 0 <= k < |files| :: Renamed(files[k], out[k]) && (k >= i ==> out[k] == files[k])
  }

  lemma NameNext(files: seq<Named>, out: seq<Named>, i: nat, row: Named)
    requires NamedUpTo(files, out, i) && i < |files| && Renamed(files[i], row)
    ensures NamedUpTo(files, out[i := row], i + 1) && out[i := row][..i + 1] == out[..i] + [row]
    ensures out == files && row == files[i] ==> out[i := row] == files
  {
    hide Renamed;
  }

  /** dedupeFileNames over the rows in id order: names come out distinct in every
      directory, and names that were distinct already stay as they are. */
  method DedupeFileNames(files: seq<Named>) returns (out: seq<Named>)
    requires forall f | f in files :: '/' !in f.dir
    ensures |out| == |files| && DistinctNames(out)
    ensures forall i | 0 <= i < |files| :: Renamed(files[i], out[i])
    ensures DistinctNames(files) ==> out == files
    ensures forall i | 0 <= i < |files| && out[i].name != files[i].name ::
              exists j :: 0 <= j < i && out[j].dir == files[i].dir && out[j].name == files[i].name
  {
    out := files;
    var taken: set<string> := {};
    assert NamedUpTo(files, out, 0);
    assert files[..0] == [] && Keys([]) == {};
    hide DistinctNames, NamedUpTo, Renamed, Keys, NameKey, TakenBefore;
    for i := 0 to |files|
      invariant NamedUpTo(files, out, i) && |out| == |files|
      invariant taken == Keys(out[..i]) && DistinctNames(out[..i])
      invariant DistinctNames(files) ==> out == files
      invariant forall a | 0 <= a < i && out[a].name != files[a].name :: TakenBefore(out, a, files[a])
    {
      var row := files[i];
      NumberedIsRenamed(row);
      if NameKey(row.dir, row.name) in taken {
        KeyTakenBefore(files, out, i);
        if out == files { KeyTaken(files, i); }
        var n := FreeNumber(row.dir, row.name, taken);
        row := row.(name := Numbered(row.name, n));
      }
      KeyFree(out[..i], row);
      NameNext(files, out, i, row);
      TakenStays(files, out, i, row);
      out := out[i := row];
      taken := taken + {NameKey(row.dir, row.name)};
    }
    assert out[..|files|] == out;
    AllNamed(files, out);
    TakenMeans(files, out);
  }

  /** An earlier row of the same directory bears the name. */
  ghost predicate TakenBefore(out: seq<Named>, i: nat, row: Named)
    requires i <= |out|
  {
    exists j :: 0 <= j < i && out[j].dir == row.dir && out[j].name == row.name
  }

  lemma TakenMeans(files: seq<Named>, out: seq<Named>)
    requires |out| == |files| && forall a | 0 <= a < |files| && out[a].name != files[a].name :: TakenBefore(out, a, files[a])
    ensures forall i | 0 <= i < |files| && out[i].name != files[i].name ::
              exists j :: 0 <= j < i && out[j].dir == files[i].dir && out[j].name == files[i].name
  {
  }

  lemma KeyTakenBefore(files: seq<Named>, out: seq<Named>, i: nat)
    requires NamedUpTo(files, out, i) && i < |files| && forall f | f in files :: '/' !in f.dir
    requires NameKey(files[i].dir, files[i].name) in Keys(out[..i])
    ensures TakenBefore(out, i, files[i])
  {
    var k :| 0 <= k < i && NameKey(out[..i][k].dir, out[..i][k].name) == NameKey(files[i].dir, files[i].name);
    assert Renamed(files[k], out[k]) && files[k] in files && files[i] in files;
    NameKeyInjective(out[k].dir, out[k].name, files[i].dir, files[i].name);
  }

  lemma TakenStays(files: seq<Named>, out: seq<Named>, i: nat, row: Named)
    requires |out| == |files| && i < |files| && (row.name != files[i].name ==> TakenBefore(out, i, files[i]))
    requires forall a | 0 <= a < i && out[a].name != files[a].name :: TakenBefore(out, a, files[a])
    ensures forall a | 0 <= a < i + 1 && out[i := row][a].name != files[a].name :: TakenBefore(out[i := row], a, files[a])
  {
    var next := out[i := row];
    forall a | 0 <= a < i + 1 && next[a].name != files[a].name ensures TakenBefore(next, a, files[a]) {
      var j :| 0 <= j < a && out[j].dir == files[a].dir && out[j].name == files[a].name;
      assert next[j] == out[j];
    }
  }

  lemma AllNamed(files: seq<Named>, out: seq<Named>)
    requires NamedUpTo(files, out, |files|)
    ensures |out| == |files| && forall i | 0 <= i < |files| :: Renamed(files[i], out[i])
  {
    hide Renamed;
  }

  // ------------------------------------------------- replace

  /** The write-back order: by path length, then by path. */
  ghost predicate IsWriteOrder(dirs: Dirs, ids: seq<Id>) {
    && (forall id :: id in ids <==> id in dirs)
    && (forall i, j | 0 <= i < j < |ids| :: ids[i] != ids[j])
    && (forall i, j | 0 <= i < j < |ids| :: |dirs[ids[i]].path| <= |dirs[ids[j]].path|)
  }

  /** What INSERT requires of a row: a fresh key, an existing parent, a free path and a
      free name. */
  predicate Insertable(table: Dirs, id: Id, row: Dir) {
    && id !in table
    && (row.parent == "" || row.parent in table)
    && forall k | k in table :: table[k].path != row.path && (table[k].parent, table[k].name) != (row.parent, row.name)
  }

  lemma ShortestExists(dirs: Dirs, rest: set<Id>)
    requires rest != {} && rest <= dirs.Keys
    ensures exists m :: m in rest && forall k | k in rest :: |dirs[m].path| <= |dirs[k].path|
    decreases |rest|
  {
    var x :| x in rest;
    if k :| k in rest && |dirs[k].path| < |dirs[x].path| {
      var shorter := set y | y in rest && |dirs[y].path| < |dirs[x].path|;
      assert k in shorter && x !in shorter && shorter < rest;
      SubsetSize(shorter, rest);
      ShortestExists(dirs, shorter);
    }
  }

  /** replace's sort; rows of equally long paths come in some order. */
  method WriteOrder(dirs: Dirs) returns (ids: seq<Id>)
    ensures IsWriteOrder(dirs, ids)
  {
    ids := [];
    var rest := dirs.Keys;
    while rest != {}
      invariant rest <= dirs.Keys
      invariant forall id :: id in ids <==> id in dirs && id !in rest
      invariant forall i, j | 0 <= i < j < |ids| :: ids[i] != ids[j] && |dirs[ids[i]].path| <= |dirs[ids[j]].path|
      invariant forall i, k | 0 <= i < |ids| && k in rest :: |dirs[ids[i]].path| <= |dirs[k].path|
      decreases rest
    {
      ShortestExists(dirs, rest);
      var m :| m in rest && forall k | k in rest :: |dirs[m].path| <= |dirs[k].path|;
      ids := ids + [m];
      rest := rest - {m};
    }
  }

  /** Replaying the inserts in that order, the foreign key on parent_id and the unique
      indexes hold at every step of a consistent table, so all of it is written back. */
  method InsertAll(dirs: Dirs, ordered: seq<Id>) returns (table: Dirs, ok: bool)
    requires IsWriteOrder(dirs, ordered)
    ensures ok ==> table == dirs && UniquePaths(dirs) && UniqueNames(dirs)
    ensures ok ==> forall id | id in dirs :: dirs[id].parent == "" || dirs[id].parent in dirs
    ensures Consistent(dirs) ==> ok
  {
    hide *;
    table, ok := map[], true;
    NothingWritten(dirs, ordered);
    for i := 0 to |ordered|
      invariant ok && Written(dirs, table, ordered[..i]) && Indexed(table)
    {
      var id := ordered[i];
      OrderedOnce(dirs, ordered, i);
      if Consistent(dirs) {
        ParentWritten(dirs, ordered, i);
        NowInsertable(dirs, table, ordered[..i], id);
      }
      if !Insertable(table, id, dirs[id]) {
        ok := false;
        return;
      }
      WriteOne(dirs, table, ordered, i);
      InsertIndexed(table, id, dirs[id]);
      table := table[id := dirs[id]];
    }
    WrittenAll(dirs, table, ordered);
    IndexedMeans(table);
  }

  lemma IndexedMeans(table: Dirs)
    requires Indexed(table)
    ensures UniquePaths(table) && UniqueNames(table) && forall id | id in table :: table[id].parent == "" || table[id].parent in table
  {
  }

  /** What the foreign key and the unique indexes say of a table. */
  ghost predicate Indexed(table: Dirs) {
    UniquePaths(table) && UniqueNames(table) && forall id | id in table :: table[id].parent == "" || table[id].parent in table
  }

  lemma InsertIndexed(table: Dirs, id: Id, row: Dir)
    requires Indexed(table) && Insertable(table, id, row)
    ensures Indexed(table[id := row])
  {
  }

  lemma OrderedOnce(dirs: Dirs, ids: seq<Id>, i: nat)
    requires IsWriteOrder(dirs, ids) && i < |ids|
    ensures ids[i] in dirs && ids[i] !in ids[..i]
  {
    assert ids[i] in ids;
  }

  ghost predicate Written(dirs: Dirs, table: Dirs, done: seq<Id>) {
    && (forall k :: k in table <==> k in done)
    && (forall k | k in table :: k in dirs && table[k] == dirs[k])
  }

  lemma WrittenAll(dirs: Dirs, table: Dirs, ordered: seq<Id>)
    requires IsWriteOrder(dirs, ordered) && Written(dirs, table, ordered[..|ordered|])
    ensures table == dirs
  {
    assert ordered[..|ordered|] == ordered;
  }

  lemma NothingWritten(dirs: Dirs, ordered: seq<Id>)
    ensures Written(dirs, map[], ordered[..0]) && Indexed(map[])
  {
  }

  lemma WriteOne(dirs: Dirs, table: Dirs, ids: seq<Id>, i: nat)
    requires i < |ids| && Written(dirs, table, ids[..i]) && ids[i] in dirs && ids[i] !in ids[..i]
    ensures Written(dirs, table[ids[i] := dirs[ids[i]]], ids[..i + 1])
  {
    assert ids[..i + 1] == ids[..i] + [ids[i]];
  }

  lemma NowInsertable(dirs: Dirs, table: Dirs, done: seq<Id>, id: Id)
    requires Consistent(dirs) && Written(dirs, table, done) && id in dirs && id !in done
    requires dirs[id].parent == "" || dirs[id].parent in done
    ensures Insertable(table, id, dirs[id])
  {
    NextInsertable(dirs, table, id);
    hide Consistent, Insertable;
  }

  lemma NextInsertable(dirs: Dirs, table: Dirs, id: Id)
    requires Consistent(dirs) && id in dirs && id !in table
    requires forall k | k in table :: k in dirs && table[k] == dirs[k]
    requires dirs[id].parent == "" || dirs[id].parent in table
    ensures Insertable(table, id, dirs[id])
  {
    PathsUnique(dirs);
  }

  lemma ParentWritten(dirs: Dirs, ids: seq<Id>, i: nat)
    requires Consistent(dirs) && IsWriteOrder(dirs, ids) && i < |ids|
    ensures ids[i] in dirs && ids[i] !in ids[..i]
    ensures dirs[ids[i]].parent == "" || dirs[ids[i]].parent in ids[..i]
  {
    assert ids[i] in ids;
    var p := dirs[ids[i]].parent;
    assert Linked(dirs, ids[i]);
    PathShape(dirs, ids[i]);
    if p != "" {
      assert p in ids;
      var j :| 0 <= j < |ids| && ids[j] == p;
      assert ids[..i][j] == p;
    }
  }
}
