/** The claim the design rests on: the index is a cache. While channel and index are in
    step, a rebuild reproduces the index from the captions alone
    (internal/indexer/indexer.go:8-10). */
module Recovery {
  import opened BuildTree
  import opened Channel
  import opened Dedupe
  import opened Drive
  import opened DriveRuns
  import opened DriveSteps
  import opened Legible
  import opened Paths
  import opened Rebuild
  import opened TagCodec
  import opened Text
  import opened Tree
  import Utf8

  ghost predicate HasLanded(segs: Segs, f: Id) {
    exists i :: (f, i) in segs
  }

  /** What captions can tell of the files: those with a landed segment, whole or broken. */
  ghost function Recoverable(s: State): Files {
    map f | f in s.files && HasLanded(s.segs, f) ::
      s.files[f].(status := if Landed(s.segs, f, s.files[f].segmentCount) then Complete else Broken)
  }

  lemma FoundDirs(s: State, found: map<Id, DirFound>)
    requires DirMsgsOk(s.msgs, s.dirs) && DirsScanned(s.msgs, found)
    ensures RecordsFound(found) == RecordsOf(s.dirs)
  {
    forall id | id in s.dirs ensures id in found {
      DirMsgInMsgs(s.msgs, s.dirs, id);
      assert IsDirMsg(s.msgs, s.dirs[id].msg, id);
    }
    forall id | id in found
      ensures id in s.dirs && DirRec(found[id].rec.parent, found[id].rec.name, found[id].msg) == RecordsOf(s.dirs)[id]
    {
      assert IsDirMsg(s.msgs, found[id].msg, id);
      DirMsgInMsgs(s.msgs, s.dirs, id);
    }
  }

  /** The scan finds exactly the landed segments, each in its current message. */
  lemma FoundSeg(s: State, found: map<Id, FileFound>, f: Id, i: int)
    requires SegMsgsOk(s.msgs, s.files, s.segs) && FilesScanned(s.msgs, found)
    ensures (f, i) in s.segs <==> f in found && i in found[f].segments
    ensures (f, i) in s.segs ==> s.segs[(f, i)] == Seg(found[f].segments[i].size, found[f].segments[i].msg)
  {
    hide RecordIn;
    if (f, i) in s.segs {
      SegMsgInMsgs(s.msgs, s.files, s.segs, (f, i));
      assert MsgScanned(s.msgs, found, s.segs[(f, i)].msg, f);
    }
    if f in found && i in found[f].segments {
      assert SegScanned(s.msgs, found[f].segments[i], f, i);
      assert FileMsgOk(s.msgs, s.segs, found[f].segments[i].msg, f);
    }
  }

  /** The newest message of a file is a current one, so it tells the file's row. */
  lemma FoundRec(s: State, found: map<Id, FileFound>, f: Id)
    requires SegMsgsOk(s.msgs, s.files, s.segs) && FilesScanned(s.msgs, found) && f in found
    ensures f in s.files && HasLanded(s.segs, f)
    ensures Matches(found[f].rec, f, s.files[f], found[f].rec.segIndex)
  {
    hide RecordIn;
    var m: nat :| IsNewest(s.msgs, m, f, found[f].rec);
    assert FileMsgOk(s.msgs, s.segs, m, f);
    SegMsgInMsgs(s.msgs, s.files, s.segs, (f, found[f].rec.segIndex));
    assert IsFileMsg(s.msgs, s.segs[(f, found[f].rec.segIndex)].msg, f);
  }

  function UpTo(n: nat): (r: set<int>)
    ensures forall i :: i in r <==> 1 <= i <= n
    ensures |r| == n
  {
    if n == 0 then {} else UpTo(n - 1) + {n}
  }

  /** Counting distinct segments tells whether all have landed. */
  lemma AllLandedIffCount(segs: set<int>, n: nat)
    requires forall i | i in segs :: 1 <= i <= n
    ensures |segs| == n <==> forall i | 1 <= i <= n :: i in segs
  {
    assert segs <= UpTo(n);
    if segs < UpTo(n) {
      SubsetSize(segs, UpTo(n));
    } else {
      assert segs == UpTo(n);
      assert forall i | 1 <= i <= n :: i in UpTo(n);
    }
  }

  lemma FoundStatus(s: State, found: map<Id, FileFound>, f: Id)
    requires SegMsgsOk(s.msgs, s.files, s.segs) && FilesScanned(s.msgs, found) && f in found && f in s.files
    requires s.files[f].segmentCount >= 0
    ensures |found[f].segments| == s.files[f].segmentCount <==> Landed(s.segs, f, s.files[f].segmentCount)
  {
    forall i ensures (f, i) in s.segs <==> i in found[f].segments { FoundSeg(s, found, f, i); }
    forall i | i in found[f].segments ensures 1 <= i <= s.files[f].segmentCount {
      SegMsgInMsgs(s.msgs, s.files, s.segs, (f, i));
    }
    hide SegMsgsOk, FilesScanned;
    AllLandedIffCount(found[f].segments.Keys, s.files[f].segmentCount);
  }

  lemma FoundRow(s: State, found: map<Id, FileFound>, f: Id)
    requires FilesOk(s.dirs, s.users, s.files) && SegMsgsOk(s.msgs, s.files, s.segs) && FilesScanned(s.msgs, found)
    ensures f in found <==> f in Recoverable(s)
    ensures f in found ==> RowOf(found[f], s.dirs) == Recoverable(s)[f] && Owned(s.users, Recoverable(s)[f]) == Recoverable(s)[f]
  {
    if f in found {
      FoundRec(s, found, f);
      assert FileOk(s.dirs, s.users, f, s.files[f]);
      FoundStatus(s, found, f);
    } else if f in Recoverable(s) {
      var i :| (f, i) in s.segs;
      FoundSeg(s, found, f, i);
    }
  }

  lemma FoundFiles(s: State, found: map<Id, FileFound>)
    requires FilesOk(s.dirs, s.users, s.files) && SegMsgsOk(s.msgs, s.files, s.segs) && FilesScanned(s.msgs, found)
    ensures RowsOf(found, s.dirs) == Recoverable(s)
    ensures UniqueFileNames(Recoverable(s))
    ensures (map f | f in Recoverable(s) :: Owned(s.users, Recoverable(s)[f])) == Recoverable(s)
  {
    forall f
      ensures f in found <==> f in Recoverable(s)
      ensures f in found ==> RowOf(found[f], s.dirs) == Recoverable(s)[f] && Owned(s.users, Recoverable(s)[f]) == Recoverable(s)[f]
    {
      FoundRow(s, found, f);
    }
    RecoverableNames(s);
    hide *;
    SameRows(found, s.dirs, s.users, Recoverable(s));
  }

  lemma SameRows(found: map<Id, FileFound>, dirs: Dirs, users: set<Id>, files: Files)
    requires forall f :: f in found <==> f in files
    requires forall f | f in found :: RowOf(found[f], dirs) == files[f] && Owned(users, files[f]) == files[f]
    ensures RowsOf(found, dirs) == files && (map f | f in files :: Owned(users, files[f])) == files
  {
    hide RowOf, Owned;
  }

  lemma RecoverableNames(s: State)
    requires FilesOk(s.dirs, s.users, s.files)
    ensures UniqueFileNames(Recoverable(s))
  {
    var files := Recoverable(s);
    forall f | f in files ensures f in s.files && files[f].dir == s.files[f].dir && files[f].name == s.files[f].name {}
    hide Recoverable, FileOk;
  }

  lemma FoundSegs(s: State, found: map<Id, FileFound>, segs: Segs)
    requires SegMsgsOk(s.msgs, s.files, s.segs) && FilesScanned(s.msgs, found) && SegsAre(found, segs)
    ensures segs == s.segs
  {
    forall f, i ensures (f, i) in segs <==> (f, i) in s.segs {
      assert SegIs(found, segs, f, i);
      FoundSeg(s, found, f, i);
    }
    forall f, i | (f, i) in segs ensures segs[(f, i)] == s.segs[(f, i)] {
      assert SegIs(found, segs, f, i);
      FoundSeg(s, found, f, i);
    }
    hide *;
    assert forall k | k in segs :: k == (k.0, k.1);
    assert forall k | k in s.segs :: k == (k.0, k.1);
  }

  /** In any state the drive can reach, whatever else people wrote to the channel, a
      rebuild yields the index's own directories and segments, and its own files but for
      those of which nothing was ever sent. */
  lemma RebuildReproduces(s: State, found: Scanned, index: Option<Index>)
    requires Inv(s) && DirsScanned(s.msgs, found.dirs) && FilesScanned(s.msgs, found.files)
    requires IsOutcome(found, s.users, index)
    ensures index == Some(Index(s.dirs, Recoverable(s), s.segs))
  {
    InvParts(s);
    hide *;
    FoundDirs(s, found.dirs);
    IntactRecordsRebuild(s.dirs);
    PathsUnique(s.dirs);
    FoundFiles(s, found.files);
    FoundSegs(s, found.files, index.value.segs);
  }

  /** A complete file comes back as it is. */
  lemma CompleteFilesRecovered(s: State, f: Id)
    requires Inv(s) && f in s.files && s.files[f].status == Complete
    ensures f in Recoverable(s) && Recoverable(s)[f] == s.files[f]
  {
    assert FileOk(s.dirs, s.users, f, s.files[f]);
    assert (f, 1) in s.segs;
  }

  /** The whole story: start from a channel with nothing but people's messages, run the
      drive, lose the index, rebuild. */
  lemma AnyRunRecovers(cls: CharClasses, msgs: Msgs, next: nat, users: set<Id>, steps: seq<Step>, found: Scanned, index: Option<Index>)
    requires Sane(cls) && NextOk(msgs, next) && forall m | m in msgs :: !DecodeCaption(msgs[m].caption).Ok?
    requires IsRun(cls, State(msgs, next, map[], map[], map[], users), steps)
    requires AllClean(cls, State(msgs, next, map[], map[], map[], users), steps)
    requires var s := AfterRun(cls, State(msgs, next, map[], map[], map[], users), steps);
             DirsScanned(s.msgs, found.dirs) && FilesScanned(s.msgs, found.files) && IsOutcome(found, s.users, index)
    ensures var s := AfterRun(cls, State(msgs, next, map[], map[], map[], users), steps);
            index == Some(Index(s.dirs, Recoverable(s), s.segs))
  {
    var start := State(msgs, next, map[], map[], map[], users);
    hide *;
    NewDriveOk(msgs, next, users);
    RunKeepsInv(cls, start, steps);
    RebuildReproduces(AfterRun(cls, start, steps), found, index);
  }

  // ------------------------------------------------------------ going on after a rebuild

  /** The drive after its index was rebuilt. */
  ghost function Rebuilding(s: State): State {
    s.(files := Recoverable(s))
  }

  /** What a rebuild leaves is in step again. */
  lemma RebuiltInStep(s: State)
    requires Inv(s)
    ensures Inv(Rebuilding(s))
  {
    InvParts(s);
    var files := Recoverable(s);
    hide Inv, TreeOk, DirMsgsOk, SegMsgsOk, NextOk;
    forall f | f in files ensures FileOk(s.dirs, s.users, f, files[f]) {
      assert FileOk(s.dirs, s.users, f, s.files[f]);
    }
    RecoverableNames(s);
    forall k | k in s.segs ensures k.0 in files && files[k.0] == s.files[k.0].(status := files[k.0].status) {
      SegMsgInMsgs(s.msgs, s.files, s.segs, k);
      assert k == (k.0, k.1);
    }
    OtherStatus(s.msgs, s.files, files, s.segs);
    hide FileOk;
    InvFrom(Rebuilding(s));
  }

  /** Captions do not tell a file's status. */
  lemma OtherStatus(msgs: Msgs, files: Files, files': Files, segs: Segs)
    requires SegMsgsOk(msgs, files, segs)
    requires forall k | k in segs :: k.0 in files && k.0 in files' && files'[k.0] == files[k.0].(status := files'[k.0].status)
    ensures SegMsgsOk(msgs, files', segs)
  {
    hide RecordIn;
    forall f, i | (f, i) in segs ensures SegOk(msgs, files', segs, f, i) {
      assert SegOk(msgs, files, segs, f, i) && (f, i).0 == f;
    }
  }

  /** Runs of clean steps with a rebuild between each two. */
  ghost predicate IsHistoryOf(cls: CharClasses, s: State, runs: seq<seq<Step>>)
    decreases |runs|
  {
    runs == [] || (IsRun(cls, s, runs[0]) && AllClean(cls, s, runs[0])
                   && IsHistoryOf(cls, Rebuilding(AfterRun(cls, s, runs[0])), runs[1..]))
  }

  ghost function AfterHistory(cls: CharClasses, s: State, runs: seq<seq<Step>>): State
    requires IsHistoryOf(cls, s, runs)
    decreases |runs|
  {
    if runs == [] then s else AfterHistory(cls, Rebuilding(AfterRun(cls, s, runs[0])), runs[1..])
  }

  lemma {:induction false} HistoryInStep(cls: CharClasses, s: State, runs: seq<seq<Step>>)
    requires Inv(s) && Sane(cls) && IsHistoryOf(cls, s, runs)
    ensures Inv(AfterHistory(cls, s, runs))
    decreases |runs|
  {
    if runs != [] {
      var t := AfterRun(cls, s, runs[0]);
      assert IsHistoryOf(cls, Rebuilding(t), runs[1..]);
      hide Inv, IsRun, AllClean, AfterRun, Rebuilding, Sane;
      RunKeepsInv(cls, s, runs[0]);
      RebuiltInStep(t);
      HistoryInStep(cls, Rebuilding(t), runs[1..]);
    }
  }

  /** The index may be lost and rebuilt any number of times: the next rebuild is as good. */
  lemma AnyHistoryRecovers(cls: CharClasses, start: State, runs: seq<seq<Step>>, found: Scanned, index: Option<Index>)
    requires Sane(cls) && Inv(start) && IsHistoryOf(cls, start, runs)
    requires var s := AfterHistory(cls, start, runs);
             DirsScanned(s.msgs, found.dirs) && FilesScanned(s.msgs, found.files) && IsOutcome(found, s.users, index)
    ensures var s := AfterHistory(cls, start, runs); index == Some(Index(s.dirs, Recoverable(s), s.segs))
  {
    hide *;
    HistoryInStep(cls, start, runs);
    RebuildReproduces(AfterHistory(cls, start, runs), found, index);
  }

  // ------------------------------------------------------------ captions that do not read back

  /** After sending a segment a rebuild can only be right if the segment's caption reads as
      one of this file, with its index, count and sizes; the name, the directory and the
      owner it tells are all that a rebuild may replace. */
  lemma RecoveredCaptionTells(cls: CharClasses, s: State, f: Id, i: int, size: nat, found: Scanned, index: Option<Index>)
    requires Inv(s) && Enabled(s, PutSegment(f, i, size))
    requires var t := Apply(cls, s, PutSegment(f, i, size));
             && DirsScanned(t.msgs, found.dirs) && FilesScanned(t.msgs, found.files) && IsOutcome(found, t.users, index)
             && index == Some(Index(t.dirs, Recoverable(t), t.segs))
    ensures var read := DecodeCaption(FileCaption(cls, s.dirs, f, s.files[f], i));
            && read.Ok? && read.rec.kind == KindFile && read.rec.id == f && read.rec.segIndex == i
            && read.rec.segCount == s.files[f].segmentCount
            && read.rec.totalSize == s.files[f].size && read.rec.segmentSize == s.files[f].segmentSize
  {
    hide TreeOk, FilesOk, DirMsgsOk, SegMsgsOk, StatusOk, FileCaption, DecodeCaption, IsOutcome, FilesScanned, DirsScanned;
    var t := Apply(cls, s, PutSegment(f, i, size));
    PutSegmentIs(cls, s, f, i, size);
    hide Apply;
    assert f in t.files && t.files[f] == s.files[f] && (f, i) in t.segs && t.segs[(f, i)].msg == s.next && f in Recoverable(t);
    assert forall m | m in t.msgs :: m <= s.next;
    assert RecordIn(t.msgs, s.next) == match DecodeCaption(FileCaption(cls, s.dirs, f, s.files[f], i)) case Ok(rec) => Some(rec) case _ => None;
    assert Recoverable(t)[f].size == s.files[f].size && Recoverable(t)[f].segmentSize == s.files[f].segmentSize
           && Recoverable(t)[f].segmentCount == s.files[f].segmentCount;
    hide *;
    OutcomeSegs(found, t.users, index.value);
    FoundLast(t.msgs, found, t.segs, f, i, s.next);
    RowOfFound(found, t.users, index.value, f);
  }

  lemma OutcomeSegs(found: Scanned, users: set<Id>, index: Index)
    requires IsOutcome(found, users, Some(index))
    ensures SegsAre(found.files, index.segs)
  {
    hide Rebuilt, RecordsFound, IsDedupedTree, SegsAre, NamesDeduped, Owned, RowsOf;
  }

  /** When a segment's row is found in the channel's last message, that message is of this
      segment, and the file's record is what it says. */
  lemma FoundLast(msgs: Msgs, found: Scanned, segs: Segs, f: Id, i: int, last: nat)
    requires FilesScanned(msgs, found.files) && SegsAre(found.files, segs) && forall m | m in msgs :: m <= last
    requires (f, i) in segs && segs[(f, i)].msg == last
    ensures f in found.files && RecordIn(msgs, last) == Some(found.files[f].rec)
    ensures found.files[f].rec.kind == KindFile && found.files[f].rec.id == f && found.files[f].rec.segIndex == i
  {
    hide RecordIn;
    assert SegIs(found.files, segs, f, i);
    assert SegScanned(msgs, found.files[f].segments[i], f, i);
    var m: nat :| IsNewest(msgs, m, f, found.files[f].rec);
    FileMsgIn(msgs, m, f);
  }

  lemma RowOfFound(found: Scanned, users: set<Id>, index: Index, f: Id)
    requires IsOutcome(found, users, Some(index)) && f in index.files
    ensures f in found.files
    ensures index.files[f].size == found.files[f].rec.totalSize && index.files[f].segmentSize == found.files[f].rec.segmentSize
    ensures index.files[f].segmentCount == found.files[f].rec.segCount
  {
    hide Rebuilt, RecordsFound, IsDedupedTree, SegsAre, NamesDeduped, Owned, RowsOf;
    var named: Files :| NamesDeduped(RowsOf(found.files, index.dirs), named)
                        && index.files == (map id | id in named :: Owned(users, named[id]));
    assert f in named && index.files[f] == Owned(users, named[f]);
    NamedRow(found.files, index.dirs, named, users, f);
  }

  lemma NamedRow(found: map<Id, FileFound>, dirs: Dirs, named: Files, users: set<Id>, f: Id)
    requires NamesDeduped(RowsOf(found, dirs), named) && f in named
    ensures f in found
    ensures var row := Owned(users, named[f]);
            && row.size == found[f].rec.totalSize && row.segmentSize == found[f].rec.segmentSize
            && row.segmentCount == found[f].rec.segCount
  {
    assert f in RowsOf(found, dirs);
    assert named[f] == RowsOf(found, dirs)[f].(name := named[f].name);
  }

  /** An unclean delete is seen by the next rebuild: a message of the deleted file is
      left, and the file comes back. */
  lemma UncleanDeleteReturns(cls: CharClasses, s: State, f: Id, found: Scanned)
    requires Enabled(s, DeleteFile(f)) && Inv(s)
    requires FilesScanned(Apply(cls, s, DeleteFile(f)).msgs, found.files)
    ensures f in found.files <==> !SentOnce(s, {f})
  {
    InvParts(s);
    DeleteFileIs(cls, s, f);
    FileRows(s, f);
    var msgs := FileMessages(s.segs, f);
    if !SentOnce(s, {f}) {
      var m :| m in s.msgs && IsSuperseded(s, m, {f});
      hide *;
      SupersededStays(s, msgs, {}, {f}, m);
      SupersededFound(s, s.msgs - msgs, f, m, found);
    } else {
      hide *;
      StepDeleteFileIff(cls, s, f);
      InvParts(Apply(cls, s, DeleteFile(f)));
      GoneFile(Apply(cls, s, DeleteFile(f)), f, found);
    }
  }

  lemma SupersededFound(s: State, left: Msgs, f: Id, m: nat, found: Scanned)
    requires IsSuperseded(s, m, {f}) && IsFileMsg(left, m, RecordIn(s.msgs, m).value.id) && FilesScanned(left, found.files)
    ensures f in found.files
  {
    hide RecordIn;
    assert MsgScanned(left, found.files, m, f);
  }

  lemma GoneFile(t: State, f: Id, found: Scanned)
    requires SegMsgsOk(t.msgs, t.files, t.segs) && FilesScanned(t.msgs, found.files) && f !in t.files
    ensures f !in found.files
  {
    if f in found.files { FoundRec(t, found.files, f); }
  }

  /** A file below a top folder whose tag is dir: once sent, it is a directory to every
      rebuild, and no file. */
  lemma FileBelowDirLost(cls: CharClasses, s: State, f: Id, size: nat, found: Scanned, index: Option<Index>)
    requires Inv(s) && Sane(cls) && Enabled(s, PutSegment(f, 1, size)) && forall k | k in s.segs :: k.0 != f
    requires s.files[f].dir in s.dirs && s.dirs[s.files[f].dir].parent == ""
    requires SanitizeTag(cls, s.dirs[s.files[f].dir].name) == "dir" && !IsMarkerLine(s.files[f].name)
    requires var t := Apply(cls, s, PutSegment(f, 1, size));
             DirsScanned(t.msgs, found.dirs) && FilesScanned(t.msgs, found.files) && IsOutcome(found, t.users, index)
    ensures f !in found.files && f in found.dirs && found.dirs[f].rec.name == s.files[f].name
    ensures index.Some? ==> f !in index.value.files
  {
    hide TreeOk, DirMsgsOk, SegMsgsOk, StatusOk, FileCaption, DecodeCaption, IsOutcome, FilesScanned, DirsScanned, SanitizeTag, IsMarkerLine, Sane;
    var t, d := Apply(cls, s, PutSegment(f, 1, size)), s.files[f].dir;
    var caption := FileCaption(cls, s.dirs, f, s.files[f], 1);
    assert f in s.files && 1 <= s.files[f].segmentCount;
    InvParts(s);
    assert FileOk(s.dirs, s.users, f, s.files[f]);
    PutSegmentIs(cls, s, f, 1, size);
    assert t.msgs.Keys == s.msgs.Keys + {s.next} && t.msgs[s.next].caption == caption && s.next !in s.msgs;
    assert forall m | m in s.msgs :: t.msgs[m] == s.msgs[m];
    hide *;
    CaptionOfDir(cls, s, f);
    NextIsNew(s, t.msgs);
    var rec := DecodeCaption(caption).rec;
    DirInstead(s, t.msgs, f, rec, found);
    if index.Some? && f in index.value.files { RowOfFound(found, t.users, index.value, f); }
  }

  lemma CaptionOfDir(cls: CharClasses, s: State, f: Id)
    requires TreeOk(s.dirs) && Sane(cls) && f in s.files && FileOk(s.dirs, s.users, f, s.files[f]) && 1 <= s.files[f].segmentCount
    requires s.files[f].dir in s.dirs && s.dirs[s.files[f].dir].parent == ""
    requires SanitizeTag(cls, s.dirs[s.files[f].dir].name) == "dir" && !IsMarkerLine(s.files[f].name)
    ensures var read := DecodeCaption(FileCaption(cls, s.dirs, f, s.files[f], 1));
            read.Ok? && read.rec.kind == KindDir && read.rec.id == f && read.rec.name == s.files[f].name
  {
    var d, r := s.files[f].dir, CaptionRecord(s.dirs, f, s.files[f], 1);
    CaptionRecordValid(s.dirs, s.users, f, s.files[f], 1);
    PathShape(s.dirs, d);
    OneAncestor(s.dirs, d);
    hide TreeOk, FileOk, Sane, SanitizeTag, IsMarkerLine, DecodeCaption, EncodeFile, AncestorNames, ValidFile;
    FolderDirMakesDirectory(cls, r, s.dirs[d].name);
  }

  lemma NextIsNew(s: State, msgs: Msgs)
    requires NextOk(s.msgs, s.next) && msgs.Keys == s.msgs.Keys + {s.next} && forall m | m in s.msgs :: msgs[m] == s.msgs[m]
    ensures forall m: nat | m != s.next :: RecordIn(msgs, m) == RecordIn(s.msgs, m)
    ensures forall m | m in msgs :: m <= s.next
  {
    hide DecodeCaption;
  }

  lemma OneAncestor(dirs: Dirs, d: Id)
    requires TreeOk(dirs) && d in dirs && dirs[d].parent == "" && d != ""
    ensures AncestorNames(DirPath(dirs, d)) == [dirs[d].name]
  {
    PathOneLine(dirs, d);
    NearestFirst(DirPath(dirs, d));
    assert Linked(dirs, d);
    assert NamesTo(dirs, "") == [];
    assert NamesTo(dirs, d) == [dirs[d].name];
    assert Reversed([dirs[d].name]) == [dirs[d].name];
  }

  lemma DirInstead(s: State, msgs: Msgs, f: Id, rec: Record, found: Scanned)
    requires SegMsgsOk(s.msgs, s.files, s.segs) && forall k | k in s.segs :: k.0 != f
    requires RecordIn(msgs, s.next) == Some(rec) && rec.kind == KindDir && rec.id == f
    requires forall m: nat | m != s.next :: RecordIn(msgs, m) == RecordIn(s.msgs, m)
    requires forall m | m in msgs :: m <= s.next
    requires DirsScanned(msgs, found.dirs) && FilesScanned(msgs, found.files)
    ensures f !in found.files && f in found.dirs && found.dirs[f].rec == rec
  {
    hide RecordIn, SegMsgsOk, DirsScanned, MsgScanned, SegScanned;
    NoFileMessage(s, f);
    LastDir(msgs, f, s.next, rec, found);
    forall m: nat ensures !IsFileMsg(msgs, m, f) {
      assert IsFileMsg(msgs, m, f) ==> m == s.next || IsFileMsg(s.msgs, m, f);
    }
  }

  lemma LastDir(msgs: Msgs, f: Id, last: nat, rec: Record, found: Scanned)
    requires RecordIn(msgs, last) == Some(rec) && rec.kind == KindDir && rec.id == f && forall m | m in msgs :: m <= last
    requires DirsScanned(msgs, found.dirs)
    ensures f in found.dirs && found.dirs[f].rec == rec
  {
    hide DecodeCaption;
    assert IsDirMsg(msgs, last, f);
    assert IsDirMsg(msgs, found.dirs[f].msg, f);
  }

  lemma NoFileMessage(s: State, f: Id)
    requires SegMsgsOk(s.msgs, s.files, s.segs) && forall k | k in s.segs :: k.0 != f
    ensures forall m: nat :: !IsFileMsg(s.msgs, m, f)
  {
    hide RecordIn;
    assert forall i: int :: (f, i).0 == f;
  }

  /** Make a folder called dir on a new drive, begin a file in it, send its only segment. */
  function DirRun(d: Id, f: Id, file: File, size: nat): seq<Step> {
    [CreateDir(d, "", "dir"), InsertFile(f, file), PutSegment(f, 1, size)]
  }

  const NEW_DRIVE: State := State(map[], 1, map[], map[], map[], {})

  lemma DirRunIs(cls: CharClasses, d: Id, f: Id, file: File, size: nat)
    requires ValidID(d) && ValidID(f) && NameAllowed(file.name) && file.dir == d && file.segmentCount == 1 && file.status == Pending
    requires file.size == size <= MAX_INT64 && 0 < file.segmentSize <= MAX_INT64 && file.owner == ""
    ensures Enabled(NEW_DRIVE, CreateDir(d, "", "dir"))
    ensures var s1 := Apply(cls, NEW_DRIVE, CreateDir(d, "", "dir"));
            && d in s1.dirs && s1.dirs[d].parent == "" && s1.dirs[d].name == "dir" && s1.files == map[] && s1.segs == map[]
            && Enabled(s1, InsertFile(f, file))
            && var s2 := Apply(cls, s1, InsertFile(f, file));
            && s2.dirs == s1.dirs && s2.files == map[f := file] && s2.segs == map[]
            && Enabled(s2, PutSegment(f, 1, size))
            && IsRun(cls, NEW_DRIVE, DirRun(d, f, file, size))
            && AfterRun(cls, NEW_DRIVE, DirRun(d, f, file, size)) == Apply(cls, s2, PutSegment(f, 1, size))
  {
    hide DirCaption, FileCaption, ValidID, DecodeCaption;
    assert NameAllowed("dir") by { assert Utf8.Encode("dir") == Utf8.CharBytes('d') + (Utf8.CharBytes('i') + (Utf8.CharBytes('r') + [])); }
    var s1 := Apply(cls, NEW_DRIVE, CreateDir(d, "", "dir"));
    var s2 := Apply(cls, s1, InsertFile(f, file));
    hide Enabled, Apply;
    ThreeSteps(cls, NEW_DRIVE, CreateDir(d, "", "dir"), InsertFile(f, file), PutSegment(f, 1, size));
  }

  lemma ThreeSteps(cls: CharClasses, s: State, a: Step, b: Step, c: Step)
    requires Enabled(s, a) && Enabled(Apply(cls, s, a), b) && Enabled(Apply(cls, Apply(cls, s, a), b), c)
    ensures IsRun(cls, s, [a, b, c])
    ensures AfterRun(cls, s, [a, b, c]) == Apply(cls, Apply(cls, Apply(cls, s, a), b), c)
  {
    hide Enabled, Apply;
    OneStep(cls, Apply(cls, Apply(cls, s, a), b), c);
    assert [a, b, c][1..] == [b, c] && [b, c][1..] == [c];
  }

  /** A run without a mistake of anybody's, after which a rebuild has lost the file. */
  lemma FolderNamedDirLosesFile(cls: CharClasses, d: Id, f: Id, file: File, size: nat, found: Scanned, index: Option<Index>)
    requires ValidID(d) && ValidID(f) && NameAllowed(file.name) && file.dir == d && file.segmentCount == 1 && file.status == Pending
    requires file.size == size <= MAX_INT64 && 0 < file.segmentSize <= MAX_INT64 && file.owner == ""
    requires Sane(cls) && SanitizeTag(cls, "dir") == "dir" && !IsMarkerLine(file.name)
    requires IsRun(cls, NEW_DRIVE, DirRun(d, f, file, size))
    requires var t := AfterRun(cls, NEW_DRIVE, DirRun(d, f, file, size));
             DirsScanned(t.msgs, found.dirs) && FilesScanned(t.msgs, found.files) && IsOutcome(found, t.users, index)
    ensures f in AfterRun(cls, NEW_DRIVE, DirRun(d, f, file, size)).files
    ensures f !in found.files && f in found.dirs && (index.Some? ==> f !in index.value.files)
  {
    DirRunIs(cls, d, f, file, size);
    var s1 := Apply(cls, NEW_DRIVE, CreateDir(d, "", "dir"));
    var s2 := Apply(cls, s1, InsertFile(f, file));
    NewDriveOk(map[], 1, {});
    hide Enabled, Inv, DecodeCaption, SanitizeTag, IsMarkerLine, Sane, ValidID, NameAllowed, DirsScanned, FilesScanned, IsOutcome, IsRun, AfterRun;
    StepCreateDir(cls, NEW_DRIVE, d, "", "dir");
    StepInsertFile(cls, s1, f, file);
    FileBelowDirLost(cls, s2, f, size, found, index);
    PutSegmentIs(cls, s2, f, 1, size);
  }
}
