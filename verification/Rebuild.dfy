/** Rebuilding the index from the channel (internal/indexer/indexer.go), and why that
    loses nothing: an intact channel rebuilds the index's own rows. */
module Rebuild {
  import opened BuildTree
  import opened Channel
  import opened Dedupe
  import opened Drive
  import opened DriveSteps
  import opened Order
  import opened Paths
  import opened TagCodec
  import opened Text
  import opened Tree

  datatype Index = Index(dirs: Dirs, files: Files, segs: Segs)

  function RecordsFound(found: map<Id, DirFound>): Records {
    map id | id in found :: DirRec(found[id].rec.parent, found[id].rec.name, found[id].msg)
  }

  /** The row buildFiles makes of a file record. */
  function RowOf(f: FileFound, dirs: Dirs): File {
    File(if f.rec.parent != "" && f.rec.parent in dirs then f.rec.parent else "", f.rec.name,
         f.rec.totalSize, f.rec.segmentSize, f.rec.segCount,
         if |f.segments| == f.rec.segCount then Complete else Broken, f.rec.owner)
  }

  function RowsOf(found: map<Id, FileFound>, dirs: Dirs): Files {
    map id | id in found :: RowOf(found[id], dirs)
  }

  /** The segment rows are those of the records, no more and no fewer. */
  ghost predicate SegsAre(found: map<Id, FileFound>, segs: Segs) {
    forall f, i :: SegIs(found, segs, f, i)
  }

  predicate SegIs(found: map<Id, FileFound>, segs: Segs, f: Id, i: int) {
    if f in found && i in found[f].segments
    then (f, i) in segs && segs[(f, i)] == Seg(found[f].segments[i].size, found[f].segments[i].msg)
    else (f, i) !in segs
  }

  /** An unknown owner becomes NULL. */
  function Owned(users: set<Id>, file: File): File {
    if file.owner in users then file else file.(owner := "")
  }

  predicate UniqueFileNames(files: Files) {
    forall f, g | f in files && g in files && files[f].dir == files[g].dir && files[f].name == files[g].name :: f == g
  }

  // ------------------------------------------------------------ buildFiles

  function BrokenOnes(files: Files): set<Id> {
    set id | id in files && files[id].status == Broken
  }

  /** buildFiles, the two map iterations in any order. */
  method BuildFiles(found: map<Id, FileFound>, dirs: Dirs) returns (files: Files, segs: Segs, broken: nat)
    ensures files == RowsOf(found, dirs) && SegsAre(found, segs)
    ensures broken == |BrokenOnes(files)|
  {
    files, segs, broken := map[], map[], 0;
    var rest := found.Keys;
    assert Without(found, rest) == map[];
    while rest != {}
      invariant rest <= found.Keys
      invariant files == RowsOf(Without(found, rest), dirs) && SegsAre(Without(found, rest), segs)
      invariant broken == |BrokenOnes(files)|
      decreases rest
    {
      var id :| id in rest;
      var row := RowOf(found[id], dirs);
      hide *;
      OneMore(found, rest, id, dirs);
      OneMoreBroken(files, id, row);
      broken := broken + if row.status == Broken then 1 else 0;
      segs := AddSegments(Without(found, rest), id, found[id], segs);
      files := files[id := row];
      rest := rest - {id};
    }
    assert Without(found, {}) == found;
  }

  function Without(found: map<Id, FileFound>, rest: set<Id>): map<Id, FileFound> {
    map id | id in found && id !in rest :: found[id]
  }

  lemma OneMore(found: map<Id, FileFound>, rest: set<Id>, id: Id, dirs: Dirs)
    requires id in rest && rest <= found.Keys
    ensures Without(found, rest - {id}) == Without(found, rest)[id := found[id]]
    ensures RowsOf(Without(found, rest - {id}), dirs) == RowsOf(Without(found, rest), dirs)[id := RowOf(found[id], dirs)]
    ensures id !in RowsOf(Without(found, rest), dirs) && id !in Without(found, rest)
  {
    hide RowOf;
  }

  lemma OneMoreBroken(files: Files, id: Id, row: File)
    requires id !in files
    ensures |BrokenOnes(files[id := row])| == |BrokenOnes(files)| + if row.status == Broken then 1 else 0
  {
    assert BrokenOnes(files[id := row]) == if row.status == Broken then BrokenOnes(files) + {id} else BrokenOnes(files);
  }

  method AddSegments(ghost done: map<Id, FileFound>, id: Id, f: FileFound, segs: Segs) returns (out: Segs)
    requires id !in done && SegsAre(done, segs)
    ensures SegsAre(done[id := f], out)
  {
    out := segs;
    var rest := f.segments.Items;
    forall i: int ensures (id, i) !in segs { assert SegIs(done, segs, id, i); }
    while rest != {}
      invariant rest <= f.segments.Items
      invariant forall g, i | g != id :: SegIs(done, out, g, i)
      invariant forall i :: if i in f.segments && (i, f.segments[i]) !in rest
                            then (id, i) in out && out[(id, i)] == Seg(f.segments[i].size, f.segments[i].msg)
                            else (id, i) !in out
      decreases rest
    {
      var item :| item in rest;
      ghost var was := out;
      out := out[(id, item.0) := Seg(item.1.size, item.1.msg)];
      rest := rest - {item};
      forall g, i | g != id ensures SegIs(done, out, g, i) { assert SegIs(done, was, g, i); }
    }
    ghost var more := done[id := f];
    forall g, i ensures SegIs(more, out, g, i) {
      if g != id { assert SegIs(done, out, g, i); }
    }
  }

  /** The rows of the files in id order, as far as names go. */
  ghost predicate IsFileListing(files: Files, listed: seq<Named>) {
    && (forall i | 0 <= i < |listed| :: IsRow(files, listed[i]))
    && (forall i, j | 0 <= i < j < |listed| :: listed[i].id != listed[j].id)
    && (forall i, j | 0 <= i < j < |listed| :: Less(listed[i].id, listed[j].id))
    && (forall id | id in files :: exists i :: 0 <= i < |listed| && listed[i].id == id)
  }

  predicate IsRow(files: Files, f: Named) {
    f.id in files && f == Named(f.id, files[f.id].dir, files[f.id].name)
  }

  method ListFiles(files: Files) returns (out: seq<Named>)
    ensures IsFileListing(files, out)
  {
    out := [];
    var rest := files.Keys;
    while rest != {}
      invariant rest <= files.Keys
      invariant forall i | 0 <= i < |out| :: IsRow(files, out[i]) && out[i].id !in rest
      invariant forall i, j | 0 <= i < j < |out| :: out[i].id != out[j].id
      invariant forall i, j | 0 <= i < j < |out| :: Less(out[i].id, out[j].id)
      invariant forall i, k | 0 <= i < |out| && k in rest :: Less(out[i].id, k)
      invariant forall id | id in files && id !in rest :: exists i :: 0 <= i < |out| && out[i].id == id
      decreases rest
    {
      LowestExists(rest);
      var m :| IsLowest(rest, m);
      ghost var was := out;
      out := out + [Named(m, files[m].dir, files[m].name)];
      rest := rest - {m};
      assert out[|was|].id == m;
      forall id | id in files && id !in rest ensures exists i :: 0 <= i < |out| && out[i].id == id {
        if id != m {
          var i :| 0 <= i < |was| && was[i].id == id;
          assert out[i].id == id;
        }
      }
    }
  }

  /** After dedupeFileNames: only names have changed, and only to make them distinct. */
  ghost predicate NamesDeduped(files: Files, out: Files) {
    && out.Keys == files.Keys && UniqueFileNames(out)
    && (forall id | id in files ::
          && out[id] == files[id].(name := out[id].name)
          && (out[id].name == files[id].name || exists n :: n >= 2 && out[id].name == Numbered(files[id].name, n)))
    && (UniqueFileNames(files) ==> out == files)
  }

  method DedupeNames(files: Files) returns (out: Files)
    requires forall id | id in files :: '/' !in files[id].dir
    ensures NamesDeduped(files, out)
  {
    var listed := ListFiles(files);
    assert forall f | f in listed :: '/' !in f.dir by {
      forall f | f in listed ensures '/' !in f.dir { assert IsRow(files, f); }
    }
    ListedUnique(files, listed);
    hide *;
    var renamed := DedupeFileNames(listed);
    out := Assign(files, listed, renamed);
    AssignedRows(files, listed, renamed, out);
    AssignedUnique(files, listed, renamed, out);
  }

  ghost predicate Assigned(files: Files, listed: seq<Named>, renamed: seq<Named>, out: Files) {
    && |renamed| == |listed| && IsFileListing(files, listed)
    && out.Keys == files.Keys
    && forall k | 0 <= k < |listed| ::
         Renamed(listed[k], renamed[k]) && out[listed[k].id] == files[listed[k].id].(name := renamed[k].name)
  }

  method Assign(files: Files, listed: seq<Named>, renamed: seq<Named>) returns (out: Files)
    requires IsFileListing(files, listed) && |renamed| == |listed|
    requires forall k | 0 <= k < |listed| :: Renamed(listed[k], renamed[k])
    ensures Assigned(files, listed, renamed, out)
  {
    out := map[];
    hide Renamed, Less;
    for i := 0 to |listed|
      invariant out.Keys == set k | 0 <= k < i :: listed[k].id
      invariant forall k | 0 <= k < i :: out[listed[k].id] == files[listed[k].id].(name := renamed[k].name)
    {
      assert IsRow(files, listed[i]);
      out := out[listed[i].id := files[listed[i].id].(name := renamed[i].name)];
    }
    forall k | 0 <= k < |listed| ensures listed[k].id in files { assert IsRow(files, listed[k]); }
  }

  lemma AssignedRows(files: Files, listed: seq<Named>, renamed: seq<Named>, out: Files)
    requires Assigned(files, listed, renamed, out)
    ensures out.Keys == files.Keys
    ensures forall id | id in files ::
              && out[id] == files[id].(name := out[id].name)
              && (out[id].name == files[id].name || exists n :: n >= 2 && out[id].name == Numbered(files[id].name, n))
    ensures renamed == listed ==> out == files
  {
    hide Less, Numbered;
    forall id | id in files
      ensures id in out && out[id] == files[id].(name := out[id].name)
      ensures out[id].name == files[id].name || exists n :: n >= 2 && out[id].name == Numbered(files[id].name, n)
      ensures renamed == listed ==> out[id] == files[id]
    {
      var k :| 0 <= k < |listed| && listed[k].id == id;
      assert Renamed(listed[k], renamed[k]) && IsRow(files, listed[k]);
    }
  }

  lemma AssignedUnique(files: Files, listed: seq<Named>, renamed: seq<Named>, out: Files)
    requires Assigned(files, listed, renamed, out) && DistinctNames(renamed)
    ensures UniqueFileNames(out)
  {
    hide DistinctNames;
    forall f, g | f in out && g in out && out[f].dir == out[g].dir && out[f].name == out[g].name ensures f == g {
      var j := AssignedFrom(files, listed, renamed, out, f);
      var k := AssignedFrom(files, listed, renamed, out, g);
      hide Assigned;
      SamePlace(renamed, j, k);
    }
  }

  lemma SamePlace(renamed: seq<Named>, j: nat, k: nat)
    requires DistinctNames(renamed) && j < |renamed| && k < |renamed|
    requires renamed[j].dir == renamed[k].dir && renamed[j].name == renamed[k].name
    ensures j == k
  {
  }

  /** Where a row of the outcome has its name from. */
  lemma AssignedFrom(files: Files, listed: seq<Named>, renamed: seq<Named>, out: Files, f: Id) returns (j: nat)
    requires Assigned(files, listed, renamed, out) && f in out
    ensures j < |listed| == |renamed| && listed[j].id == f
    ensures renamed[j].dir == out[f].dir && renamed[j].name == out[f].name
  {
    hide Less, Numbered;
    j :| 0 <= j < |listed| && listed[j].id == f;
    assert Renamed(listed[j], renamed[j]) && IsRow(files, listed[j]);
  }

  lemma ListedUnique(files: Files, listed: seq<Named>)
    requires IsFileListing(files, listed)
    ensures UniqueFileNames(files) ==> DistinctNames(listed)
  {
    hide Less;
    if UniqueFileNames(files) {
      forall i, j | 0 <= i < j < |listed| ensures (listed[i].dir, listed[i].name) != (listed[j].dir, listed[j].name) {
        assert IsRow(files, listed[i]) && IsRow(files, listed[j]);
      }
    }
  }

  // ------------------------------------------------------------ the whole rebuild

  /** Every caption that decodes names a valid id, a valid parent and a name. */
  ghost predicate SoundlyFound(found: Scanned) {
    && (forall id | id in found.dirs :: id != "" && found.dirs[id].rec.name != "")
    && (forall id | id in found.files :: '/' !in found.files[id].rec.parent)
  }

  lemma RecordSound(msgs: Msgs, m: nat)
    requires RecordIn(msgs, m).Some?
    ensures var r := RecordIn(msgs, m).value; r.id != "" && r.name != "" && '/' !in r.parent
  {
    DecodedSound(msgs[m].caption);
    IdHasNoSlash(RecordIn(msgs, m).value.id);
    if RecordIn(msgs, m).value.parent != "" { IdHasNoSlash(RecordIn(msgs, m).value.parent); }
  }

  lemma FoundSound(msgs: Msgs, found: Scanned)
    requires DirsScanned(msgs, found.dirs) && FilesScanned(msgs, found.files)
    ensures SoundlyFound(found)
    ensures WellFormed(RecordsFound(found.dirs))
  {
    hide RecordIn, MsgScanned, SegScanned;
    forall id | id in found.dirs ensures id != "" && found.dirs[id].rec.name != "" {
      RecordSound(msgs, found.dirs[id].msg);
    }
    forall id | id in found.files ensures '/' !in found.files[id].rec.parent {
      var m: nat :| IsNewest(msgs, m, id, found.files[id].rec);
      RecordSound(msgs, m);
    }
  }

  lemma RowDirs(found: Scanned, dirs: Dirs)
    requires SoundlyFound(found)
    ensures forall id | id in RowsOf(found.files, dirs) :: '/' !in RowsOf(found.files, dirs)[id].dir
  {
  }

  /** What a rebuild makes of what the scan found. Only rows whose names are not plain
      can make the write fail. */
  ghost predicate IsOutcome(found: Scanned, users: set<Id>, index: Option<Index>) {
    var tree := Rebuilt(RecordsFound(found.dirs));
    if index.None? then !AllLinked(tree)
    else
      && IsDedupedTree(tree, index.value.dirs)
      && SegsAre(found.files, index.value.segs)
      && exists named: Files :: NamesDeduped(RowsOf(found.files, index.value.dirs), named)
                                && index.value.files == (map id | id in named :: Owned(users, named[id]))
  }

  ghost predicate IsDedupedTree(tree: Dirs, rows: Dirs) {
    && rows.Keys == tree.Keys && UniquePaths(rows) && SettledNames(tree, rows)
    && (forall k | k in tree :: rows[k].parent == tree[k].parent && rows[k].msg == tree[k].msg)
    && (AllLinked(tree) ==> Consistent(rows))
    && (AllLinked(tree) && UniquePaths(tree) ==> rows == tree)
  }

  lemma IsDeduped(tree: Dirs, rows: Dirs)
    requires rows.Keys == tree.Keys && UniquePaths(rows) && SettledNames(tree, rows)
    requires forall k | k in tree :: rows[k].parent == tree[k].parent && rows[k].msg == tree[k].msg
    requires AllLinked(tree) ==> Consistent(rows)
    requires AllLinked(tree) && UniquePaths(tree) ==> rows == tree
    ensures IsDedupedTree(tree, rows)
  {
  }

  /** What a rebuilt file row has from its newest record and its segments. */
  ghost predicate TellsRecord(f: FileFound, users: set<Id>, dirs: Dirs, row: File) {
    && row.size == f.rec.totalSize && row.segmentSize == f.rec.segmentSize && row.segmentCount == f.rec.segCount
    && (row.status == Complete <==> |f.segments| == f.rec.segCount) && (row.status == Complete || row.status == Broken)
    && (row.owner == "" || row.owner in users) && (f.rec.owner in users ==> row.owner == f.rec.owner)
    && (row.dir == "" || row.dir in dirs) && (f.rec.parent != "" && f.rec.parent in dirs ==> row.dir == f.rec.parent)
    && (row.dir != "" ==> row.dir == f.rec.parent) && (row.owner != "" ==> row.owner == f.rec.owner)
    && (row.name == f.rec.name || exists n :: n >= 2 && row.name == Numbered(f.rec.name, n))
  }

  lemma RowTells(f: FileFound, users: set<Id>, dirs: Dirs, name: string)
    requires name == f.rec.name || exists n :: n >= 2 && name == Numbered(f.rec.name, n)
    ensures TellsRecord(f, users, dirs, Owned(users, RowOf(f, dirs).(name := name)))
  {
    hide Numbered;
  }

  lemma RowsTellRecords(found: Scanned, users: set<Id>, index: Option<Index>)
    requires IsOutcome(found, users, index) && index.Some?
    ensures index.value.files.Keys == found.files.Keys
    ensures forall f | f in found.files :: TellsRecord(found.files[f], users, index.value.dirs, index.value.files[f])
  {
    hide IsDedupedTree, SegsAre, UniqueFileNames, Numbered, Rebuilt;
    var dirs := index.value.dirs;
    var named: Files :| NamesDeduped(RowsOf(found.files, dirs), named)
                        && index.value.files == map id | id in named :: Owned(users, named[id]);
    forall f | f in found.files ensures f in index.value.files && TellsRecord(found.files[f], users, dirs, index.value.files[f]) {
      var name := named[f].name;
      assert named[f] == RowOf(found.files[f], dirs).(name := name);
      assert name == found.files[f].rec.name || exists n :: n >= 2 && name == Numbered(found.files[f].rec.name, n);
      hide RowOf, Owned, TellsRecord, NamesDeduped, RowsOf;
      RowTells(found.files[f], users, dirs, name);
    }
  }

  /** replace and ReplaceIndex: all rows in one transaction, or None and no change. */
  method Replace(dirs: Dirs, files: Files, segs: Segs, users: set<Id>) returns (index: Option<Index>)
    ensures index.None? ==> !Consistent(dirs)
    ensures index.Some? ==> UniquePaths(dirs) && UniqueNames(dirs)
    ensures index.Some? ==> forall id | id in dirs :: dirs[id].parent == "" || dirs[id].parent in dirs
    ensures index.Some? ==> index.value == Index(dirs, map id | id in files :: Owned(users, files[id]), segs)
    ensures index.Some? ==> forall f | f in files ::
              index.value.files[f] == if files[f].owner in users then files[f] else files[f].(owner := "")
  {
    hide *;
    var ordered := WriteOrder(dirs);
    var table, ok := InsertAll(dirs, ordered);
    if !ok {
      return None;
    }
    index := Some(Index(table, map id | id in files :: Owned(users, files[id]), segs));
    forall f | f in files { OwnedIs(users, files[f]); }
  }

  lemma OwnedIs(users: set<Id>, file: File)
    ensures Owned(users, file) == if file.owner in users then file else file.(owner := "")
  {
  }

  lemma OutcomeIs(found: Scanned, users: set<Id>, dirs: Dirs, named: Files, segs: Segs, index: Option<Index>)
    requires IsDedupedTree(Rebuilt(RecordsFound(found.dirs)), dirs)
    requires SegsAre(found.files, segs) && NamesDeduped(RowsOf(found.files, dirs), named)
    requires index.None? ==> !Consistent(dirs)
    requires index.Some? ==> index.value == Index(dirs, map id | id in named :: Owned(users, named[id]), segs)
    ensures IsOutcome(found, users, index)
  {
    hide Rebuilt, UniquePaths, SettledNames, NamesDeduped, SegsAre, AllLinked, Owned;
  }

  /** rebuild: scan, buildTree, buildFiles and one transaction that replaces the index. */
  method RebuildIndex(msgs: Msgs, history: seq<nat>, users: set<Id>) returns (index: Option<Index>, ghost found: Scanned)
    requires IsHistory(msgs, history)
    ensures DirsScanned(msgs, found.dirs) && FilesScanned(msgs, found.files)
    ensures IsOutcome(found, users, index)
    ensures index.Some? ==>
              && index.value.files.Keys == found.files.Keys
              && forall f | f in found.files :: TellsRecord(found.files[f], users, index.value.dirs, index.value.files[f])
  {
    hide *;
    var scanned := Channel.Scan(msgs, history);
    found := scanned;
    FoundSound(msgs, scanned);
    var tree := Build(RecordsFound(scanned.dirs));
    var dirs := DedupePaths(tree);
    IsDeduped(tree, dirs);
    var files, segs, broken := BuildFiles(scanned.files, dirs);
    RowDirs(scanned, dirs);
    var named := DedupeNames(files);
    index := Replace(dirs, named, segs, users);
    OutcomeIs(scanned, users, dirs, named, segs, index);
    if index.Some? { RowsTellRecords(found, users, index); }
  }

  /** Whatever is missing from the channel, records whose names are plain are all written
      back: every directory once in a consistent tree, every file once, in a directory that
      exists or at the root, no two under the same name. */
  lemma RebuildSucceeds(found: Scanned, users: set<Id>, index: Option<Index>)
    requires WellFormed(RecordsFound(found.dirs)) && ReservedIdFree(RecordsFound(found.dirs))
    requires forall id | id in found.dirs :: PlainName(found.dirs[id].rec.name)
    requires IsOutcome(found, users, index)
    ensures index.Some? && Consistent(index.value.dirs)
    ensures found.dirs.Keys <= index.value.dirs.Keys <= found.dirs.Keys + {RECOVERED_ROOT_ID}
    ensures index.value.files.Keys == found.files.Keys && UniqueFileNames(index.value.files)
    ensures forall f | f in index.value.files :: index.value.files[f].dir == "" || index.value.files[f].dir in index.value.dirs
  {
    var recs := RecordsFound(found.dirs);
    assert recs.Keys == found.dirs.Keys && forall id | id in recs :: PlainName(recs[id].name);
    RebuiltLinked(recs);
    OneRowPerRecord(recs);
    hide Rebuilt, Unplaced, NamesDeduped, AllLinked, Consistent, UniquePaths, SettledNames, RecordsFound;
    var named: Files :| NamesDeduped(RowsOf(found.files, index.value.dirs), named)
                        && index.value.files == map id | id in named :: Owned(users, named[id]);
    DedupedFiles(found.files, index.value.dirs, users, named);
  }

  lemma InKnownDirs(found: map<Id, FileFound>, dirs: Dirs, named: Files)
    requires NamesDeduped(RowsOf(found, dirs), named)
    ensures named.Keys == found.Keys && UniqueFileNames(named)
    ensures forall f | f in named :: named[f].dir == "" || named[f].dir in dirs
  {
    forall f | f in named ensures named[f].dir == "" || named[f].dir in dirs {
      assert named[f] == RowsOf(found, dirs)[f].(name := named[f].name);
    }
    hide UniqueFileNames;
  }

  lemma DedupedFiles(found: map<Id, FileFound>, dirs: Dirs, users: set<Id>, named: Files)
    requires NamesDeduped(RowsOf(found, dirs), named)
    ensures var files: Files := map id | id in named :: Owned(users, named[id]);
            && files.Keys == found.Keys && UniqueFileNames(files)
            && forall f | f in files :: files[f].dir == "" || files[f].dir in dirs
  {
    var files: Files := map id | id in named :: Owned(users, named[id]);
    InKnownDirs(found, dirs, named);
    hide NamesDeduped, RowsOf;
    forall f | f in files ensures files[f].dir == named[f].dir && files[f].name == named[f].name {}
    hide Owned;
  }
}
