/** Deletions, and whole runs: after any run of the drive's steps the channel tells
    exactly what the index holds (internal/drive/ops.go). */
module DriveRuns {
  import opened Channel
  import opened Drive
  import opened DriveSteps
  import opened Paths
  import opened TagCodec
  import opened Text
  import opened Tree

  // ------------------------------------------------------------ deletions

  /** The state left when the given messages, directories and files are gone. */
  function Removed(s: State, msgs: set<nat>, dirs: set<Id>, files: set<Id>): State {
    s.(msgs := s.msgs - msgs, dirs := s.dirs - dirs, files := s.files - files, segs := WithoutFiles(s.segs, files))
  }

  /** Exactly the messages that rows of the removed directories and files point at. */
  predicate RowMessages(s: State, msgs: set<nat>, dirs: set<Id>, files: set<Id>) {
    && (forall id | id in dirs && id in s.dirs :: s.dirs[id].msg in msgs)
    && (forall k | k in s.segs && k.0 in files :: s.segs[k].msg in msgs)
    && (forall m | m in msgs ::
          || (exists id :: id in dirs && id in s.dirs && s.dirs[id].msg == m)
          || (exists k :: k in s.segs && k.0 in files && s.segs[k].msg == m))
  }

  /** What a removed message said: something about a removed row. */
  lemma RemovedSays(s: State, msgs: set<nat>, dirs: set<Id>, files: set<Id>, m: nat)
    requires DirMsgsOk(s.msgs, s.dirs) && SegMsgsOk(s.msgs, s.files, s.segs) && RowMessages(s, msgs, dirs, files)
    requires m in msgs
    ensures RecordIn(s.msgs, m).Some?
    ensures var r := RecordIn(s.msgs, m).value;
            || (r.kind == KindDir && r.id in dirs)
            || (r.kind == KindFile && r.id in files && (r.id, r.segIndex) in s.segs && s.segs[(r.id, r.segIndex)].msg == m)
  {
    hide RecordIn;
    if id :| id in dirs && id in s.dirs && s.dirs[id].msg == m {
      DirMsgInMsgs(s.msgs, s.dirs, id);
    } else {
      var k :| k in s.segs && k.0 in files && s.segs[k].msg == m;
      SegMsgInMsgs(s.msgs, s.files, s.segs, k);
      assert k == (k.0, k.1);
    }
  }

  lemma RemovalDirs(s: State, msgs: set<nat>, dirs: set<Id>, files: set<Id>)
    requires DirMsgsOk(s.msgs, s.dirs) && SegMsgsOk(s.msgs, s.files, s.segs) && RowMessages(s, msgs, dirs, files)
    ensures DirMsgsOk(s.msgs - msgs, s.dirs - dirs)
  {
    var left := s.msgs - msgs;
    forall m: nat ensures RecordIn(left, m) == if m in msgs then None else RecordIn(s.msgs, m) {
      RemovedMsg(s.msgs, msgs, m);
    }
    hide RecordIn, RowMessages;
    forall k | k in s.dirs - dirs ensures RecordIn(left, s.dirs[k].msg) == Some(DirRecord(k, s.dirs[k])) {
      DirMsgInMsgs(s.msgs, s.dirs, k);
      if s.dirs[k].msg in msgs {
        RemovedSays(s, msgs, dirs, files, s.dirs[k].msg);
      }
    }
    forall m: nat, k | IsDirMsg(left, m, k) ensures k in s.dirs - dirs && s.dirs[k].msg == m {
      assert IsDirMsg(s.msgs, m, k);
    }
  }

  lemma SegMessageGone(s: State, msgs: set<nat>, dirs: set<Id>, files: set<Id>, k: (Id, int))
    requires RowMessages(s, msgs, dirs, files)
    ensures k in s.segs && k.0 in files ==> s.segs[k].msg in msgs
  {
  }

  lemma RemovalSegs(s: State, msgs: set<nat>, dirs: set<Id>, files: set<Id>)
    requires DirMsgsOk(s.msgs, s.dirs) && SegMsgsOk(s.msgs, s.files, s.segs) && RowMessages(s, msgs, dirs, files)
    requires SentOnce(s, files)
    ensures SegMsgsOk(s.msgs - msgs, s.files - files, WithoutFiles(s.segs, files))
  {
    var left := s.msgs - msgs;
    var segs := WithoutFiles(s.segs, files);
    forall m: nat ensures RecordIn(left, m) == if m in msgs then None else RecordIn(s.msgs, m) {
      RemovedMsg(s.msgs, msgs, m);
    }
    hide RecordIn, RowMessages;
    forall f, i | (f, i) in segs ensures SegOk(left, s.files - files, segs, f, i) {
      SegMsgInMsgs(s.msgs, s.files, s.segs, (f, i));
      if s.segs[(f, i)].msg in msgs {
        RemovedSays(s, msgs, dirs, files, s.segs[(f, i)].msg);
      }
    }
    LeftMsgsOk(s, msgs, dirs, files);
    hide SegOk, IsFileMsg, FileMsgOk, WithoutFiles, SentOnce;
  }

  lemma LeftMsgsOk(s: State, msgs: set<nat>, dirs: set<Id>, files: set<Id>)
    requires SegMsgsOk(s.msgs, s.files, s.segs) && RowMessages(s, msgs, dirs, files) && SentOnce(s, files)
    requires forall m: nat :: RecordIn(s.msgs - msgs, m) == if m in msgs then None else RecordIn(s.msgs, m)
    ensures forall m: nat, f | IsFileMsg(s.msgs - msgs, m, f) :: FileMsgOk(s.msgs - msgs, WithoutFiles(s.segs, files), m, f)
  {
    hide RecordIn, RowMessages;
    forall m: nat, f | IsFileMsg(s.msgs - msgs, m, f) ensures FileMsgOk(s.msgs - msgs, WithoutFiles(s.segs, files), m, f) {
      assert IsFileMsg(s.msgs, m, f);
      assert FileMsgOk(s.msgs, s.segs, m, f);
      FileMsgIn(s.msgs, m, f);
      assert !IsSuperseded(s, m, files);
      SegMessageGone(s, msgs, dirs, files, (f, RecordIn(s.msgs, m).value.segIndex));
    }
  }

  lemma FileMsgIn(msgs: Msgs, m: nat, f: Id)
    requires IsFileMsg(msgs, m, f)
    ensures m in msgs
  {
  }

  /** An older copy of a deleted segment stays in the channel. */
  lemma SupersededStays(s: State, msgs: set<nat>, dirs: set<Id>, files: set<Id>, m: nat)
    requires DirMsgsOk(s.msgs, s.dirs) && SegMsgsOk(s.msgs, s.files, s.segs) && RowMessages(s, msgs, dirs, files)
    requires IsSuperseded(s, m, files)
    ensures IsFileMsg(s.msgs - msgs, m, RecordIn(s.msgs, m).value.id)
    ensures !SegMsgsOk(s.msgs - msgs, s.files - files, WithoutFiles(s.segs, files))
  {
    RemovedMsg(s.msgs, msgs, m);
    if m in msgs {
      RemovedSays(s, msgs, dirs, files, m);
    }
    var f := RecordIn(s.msgs, m).value.id;
    assert IsFileMsg(s.msgs - msgs, m, f);
    assert !FileMsgOk(s.msgs - msgs, WithoutFiles(s.segs, files), m, f);
  }

  /** Removing rows together with their messages keeps the channel and the index in step
      exactly when none of the removed files has an older copy of a segment left. */
  lemma RemovalIff(s: State, msgs: set<nat>, dirs: set<Id>, files: set<Id>)
    requires Inv(s) && RowMessages(s, msgs, dirs, files) && TreeOk(s.dirs - dirs)
    requires forall f | f in s.files && s.files[f].dir in dirs :: f in files
    ensures Inv(Removed(s, msgs, dirs, files)) <==> SentOnce(s, files)
  {
    InvParts(s);
    if SentOnce(s, files) {
      RemovalDirs(s, msgs, dirs, files);
      RemovalSegs(s, msgs, dirs, files);
      RemovalRest(s, msgs, dirs, files);
      hide TreeOk, FilesOk, DirMsgsOk, SegMsgsOk, StatusOk, NextOk, RowMessages;
      InvFrom(Removed(s, msgs, dirs, files));
    } else {
      var m :| m in s.msgs && IsSuperseded(s, m, files);
      SupersededStays(s, msgs, dirs, files, m);
    }
  }

  lemma RemovalRest(s: State, msgs: set<nat>, dirs: set<Id>, files: set<Id>)
    requires FilesOk(s.dirs, s.users, s.files) && StatusOk(s.files, s.segs) && NextOk(s.msgs, s.next)
    requires forall f | f in s.files && s.files[f].dir in dirs :: f in files
    ensures FilesOk(s.dirs - dirs, s.users, s.files - files)
    ensures StatusOk(s.files - files, WithoutFiles(s.segs, files)) && NextOk(s.msgs - msgs, s.next)
  {
    forall f | f in s.files - files ensures FileOk(s.dirs - dirs, s.users, f, s.files[f]) {
      assert FileOk(s.dirs, s.users, f, s.files[f]);
    }
    hide FileOk;
  }

  lemma StepDeleteFileIff(cls: CharClasses, s: State, f: Id)
    requires Enabled(s, DeleteFile(f)) && Inv(s)
    ensures Inv(Apply(cls, s, DeleteFile(f))) <==> SentOnce(s, {f})
  {
    InvParts(s);
    hide *;
    DeleteFileIs(cls, s, f);
    FileRows(s, f);
    RemovalIff(s, FileMessages(s.segs, f), {}, {f});
  }

  lemma DeleteFileIs(cls: CharClasses, s: State, f: Id)
    requires Enabled(s, DeleteFile(f))
    ensures Apply(cls, s, DeleteFile(f)) == Removed(s, FileMessages(s.segs, f), {}, {f}) && s.dirs - {} == s.dirs
  {
  }

  lemma FileRows(s: State, f: Id)
    ensures RowMessages(s, FileMessages(s.segs, f), {}, {f})
  {
  }

  lemma StepDeleteDirIff(cls: CharClasses, s: State, id: Id)
    requires Enabled(s, DeleteDir(id)) && Inv(s)
    ensures Inv(Apply(cls, s, DeleteDir(id))) <==> Clean(cls, s, DeleteDir(id))
  {
    assert id in s.dirs;
    InvParts(s);
    assert Consistent(s.dirs);
    hide *;
    DeleteDirCleanWhen(cls, s, id);
    if SubtreeRows(s.dirs, id) == Cascade(s.dirs, {id}) {
      DeleteDirIs(cls, s, id);
      DeletedTree(s, id);
      DeleteAlone(s, Cascade(s.dirs, {id}));
    } else {
      DeleteDragsForeign(cls, s, id);
    }
  }

  lemma DeleteDirCleanWhen(cls: CharClasses, s: State, id: Id)
    requires Consistent(s.dirs) && id in s.dirs
    ensures Clean(cls, s, DeleteDir(id)) <==>
            SubtreeRows(s.dirs, id) == Cascade(s.dirs, {id}) && SentOnce(s, FilesUnder(s.files, Cascade(s.dirs, {id})))
  {
    SubtreeRowsAreCascadeIff(s.dirs, id);
    hide SentOnce, Consistent, Cascade, SubtreeRows, LikeUnder, IsDescendant;
  }

  lemma DeletedTree(s: State, id: Id)
    requires TreeOk(s.dirs) && id in s.dirs
    ensures TreeOk(s.dirs - Cascade(s.dirs, {id}))
  {
    DeleteConsistent(s.dirs, id);
    hide Consistent, Cascade, NameAllowed;
  }

  /** A case twin taken for part of the subtree loses its message and keeps its row. */
  lemma DeleteDragsForeign(cls: CharClasses, s: State, id: Id)
    requires Consistent(s.dirs) && id in s.dirs && SubtreeRows(s.dirs, id) != Cascade(s.dirs, {id})
    ensures !Inv(Apply(cls, s, DeleteDir(id)))
  {
    SubtreeRowsAreCascadeIff(s.dirs, id);
    CascadeIsSubtree(s.dirs, id);
    var k :| k in s.dirs && LikeUnder(s.dirs[id].path, s.dirs[k].path) && !IsDescendant(s.dirs[id].path, s.dirs[k].path);
    assert k != id;
    var t := Apply(cls, s, DeleteDir(id));
    assert s.dirs[k].msg !in t.msgs;
    assert k in t.dirs && t.dirs[k].msg == s.dirs[k].msg;
    hide *;
    MissingDirMsg(t, k);
  }

  lemma MissingDirMsg(t: State, k: Id)
    requires k in t.dirs && t.dirs[k].msg !in t.msgs
    ensures !Inv(t)
  {
    assert !DirMsgTells(t.msgs, t.dirs, k);
  }

  lemma DeleteAlone(s: State, gone: set<Id>)
    requires Inv(s) && TreeOk(s.dirs - gone)
    ensures Inv(Removed(s, MessagesOf(s, gone), gone, FilesUnder(s.files, gone))) <==> SentOnce(s, FilesUnder(s.files, gone))
  {
    InvParts(s);
    hide *;
    SegsHaveFiles(s);
    RemovalIff(s, MessagesOf(s, gone), gone, FilesUnder(s.files, gone));
  }

  lemma SegsHaveFiles(s: State)
    requires SegMsgsOk(s.msgs, s.files, s.segs)
    ensures forall k | k in s.segs :: k.0 in s.files
  {
    forall k | k in s.segs ensures k.0 in s.files {
      SegMsgInMsgs(s.msgs, s.files, s.segs, k);
    }
  }

  /** The messages that SubtreeMessages finds for these directories. */
  function MessagesOf(s: State, rows: set<Id>): set<nat> {
    (set d | d in rows && d in s.dirs :: s.dirs[d].msg) + MessagesUnder(s.files, s.segs, rows)
  }

  lemma DeleteDirIs(cls: CharClasses, s: State, id: Id)
    requires id in s.dirs && SubtreeRows(s.dirs, id) == Cascade(s.dirs, {id})
    ensures var gone := Cascade(s.dirs, {id});
            Apply(cls, s, DeleteDir(id)) == Removed(s, MessagesOf(s, gone), gone, FilesUnder(s.files, gone))
  {
  }

  // ------------------------------------------------------------ every step, every run

  lemma StepRelocateIff(cls: CharClasses, s: State, id: Id, parent: Id, name: string)
    requires Inv(s) && Enabled(s, RelocateDir(id, parent, name))
    ensures Inv(Apply(cls, s, RelocateDir(id, parent, name))) <==> NoCaseTwin(s.dirs, id, NewPath(s, parent, name))
  {
    var path := NewPath(s, parent, name);
    var t := Apply(cls, s, RelocateDir(id, parent, name));
    assert t.dirs == Relocate(s.dirs, id, parent, name, path);
    assert Consistent(s.dirs) && MayRelocate(s.dirs, id, parent, name, path) && id in s.dirs;
    hide *;
    if NoCaseTwin(s.dirs, id, path) {
      StepRelocateDir(cls, s, id, parent, name);
    } else {
      RelocateConsistentIff(s.dirs, id, parent, name, path);
    }
  }

  /** A current message that does not tell its row. */
  lemma Untold(t: State, f: Id, i: int)
    requires (f, i) in t.segs && f in t.files
    requires match RecordIn(t.msgs, t.segs[(f, i)].msg)
             case None => true
             case Some(rec) => !Matches(rec, f, t.files[f], i)
    ensures !Inv(t)
  {
    assert !SegOk(t.msgs, t.files, t.segs, f, i);
  }

  /** Sending a segment keeps everything in step exactly when its caption reads back. */
  lemma StepPutIff(cls: CharClasses, s: State, f: Id, i: int, size: nat)
    requires Inv(s) && Sane(cls) && Enabled(s, PutSegment(f, i, size))
    ensures Inv(Apply(cls, s, PutSegment(f, i, size))) <==> Readable(cls, s.dirs, f, s.files[f], i)
  {
    if Readable(cls, s.dirs, f, s.files[f], i) {
      StepPutSegment(cls, s, f, i, size);
    } else {
      var t := Apply(cls, s, PutSegment(f, i, size));
      InvParts(s);
      PutSegmentIs(cls, s, f, i, size);
      FileCaptionTellsIff(cls, s.dirs, s.users, f, s.files[f], i);
      assert RecordIn(t.msgs, s.next) == match DecodeCaption(FileCaption(cls, s.dirs, f, s.files[f], i)) case Ok(rec) => Some(rec) case _ => None;
      hide Inv, Readable, FileCaption, DecodeCaption, RecordIn, Matches;
      Untold(t, f, i);
    }
  }

  /** Rewriting a file's captions does exactly when all the new ones read back. */
  lemma RewriteIff(cls: CharClasses, s: State, f: Id, file: File)
    requires Inv(s) && Sane(cls) && f in s.files && FileOk(s.dirs, s.users, f, file)
    requires file.segmentCount == s.files[f].segmentCount && file.status == s.files[f].status
    requires NameFree(s.files, f, file.dir, file.name)
    ensures Inv(s.(files := s.files[f := file], msgs := Rewritten(cls, s.msgs, s.dirs, s.segs, f, file)))
            <==> AllReadable(cls, s, f, file)
  {
    if AllReadable(cls, s, f, file) {
      hide *;
      StepRewrite(cls, s, f, file);
    } else {
      var i :| (f, i) in s.segs && !Readable(cls, s.dirs, f, file, i);
      InvParts(s);
      SegMsgInMsgs(s.msgs, s.files, s.segs, (f, i));
      FileCaptionTellsIff(cls, s.dirs, s.users, f, file, i);
      hide Inv, Readable, FileCaption, DecodeCaption;
      RewrittenCurrent(cls, s, f, file, i);
      Untold(s.(files := s.files[f := file], msgs := Rewritten(cls, s.msgs, s.dirs, s.segs, f, file)), f, i);
    }
  }

  lemma RewrittenCurrent(cls: CharClasses, s: State, f: Id, file: File, i: int)
    requires Inv(s) && (f, i) in s.segs
    ensures RecordIn(Rewritten(cls, s.msgs, s.dirs, s.segs, f, file), s.segs[(f, i)].msg)
            == match DecodeCaption(FileCaption(cls, s.dirs, f, file, i)) case Ok(rec) => Some(rec) case _ => None
  {
    var m := s.segs[(f, i)].msg;
    assert SegOk(s.msgs, s.files, s.segs, f, i) && m in FileMessages(s.segs, f);
    CurrentIs(s, m, f);
    hide DecodeCaption, FileCaption, Inv, LastIndex, FileMessages;
  }

  lemma StepPlaceIff(cls: CharClasses, s: State, f: Id, dir: Id, name: string)
    requires Inv(s) && Sane(cls) && Enabled(s, PlaceFile(f, dir, name))
    ensures Inv(Apply(cls, s, PlaceFile(f, dir, name))) <==> AllReadable(cls, s, f, s.files[f].(dir := dir, name := name))
  {
    var file := s.files[f].(dir := dir, name := name);
    assert FileOk(s.dirs, s.users, f, s.files[f]);
    assert FileOk(s.dirs, s.users, f, file);
    assert Apply(cls, s, PlaceFile(f, dir, name))
        == s.(files := s.files[f := file], msgs := Rewritten(cls, s.msgs, s.dirs, s.segs, f, file));
    hide Inv, FileOk, Apply, Rewritten, AllReadable;
    RewriteIff(cls, s, f, file);
  }

  lemma StepRefreshIff(cls: CharClasses, s: State, f: Id)
    requires Inv(s) && Sane(cls) && Enabled(s, RefreshCaptions(f))
    ensures Inv(Apply(cls, s, RefreshCaptions(f))) <==> AllReadable(cls, s, f, s.files[f])
  {
    var file := s.files[f];
    assert FileOk(s.dirs, s.users, f, file) && NameFree(s.files, f, file.dir, file.name);
    assert s.files[f := file] == s.files;
    hide Inv, FileOk, Rewritten, AllReadable;
    RewriteIff(cls, s, f, file);
  }

  /** Each step keeps the channel and the index in step, exactly when it is clean. */
  lemma StepKeepsInvIff(cls: CharClasses, s: State, step: Step)
    requires Inv(s) && Sane(cls) && Enabled(s, step)
    ensures Inv(Apply(cls, s, step)) <==> Clean(cls, s, step)
  {
    hide Inv, Readable, AllReadable;
    match step
    case HumanMessage(caption, doc) => StepHumanMessage(s, caption, doc);
    case CreateDir(id, parent, name) => StepCreateDir(cls, s, id, parent, name);
    case RelocateDir(id, parent, name) => StepRelocateIff(cls, s, id, parent, name);
    case InsertFile(f, file) => StepInsertFile(cls, s, f, file);
    case SetFileSize(f, size, count) => StepSetFileSize(cls, s, f, size, count);
    case PutSegment(f, i, size) => StepPutIff(cls, s, f, i, size);
    case CompleteFile(f) => StepCompleteFile(cls, s, f);
    case PlaceFile(f, dir, name) => StepPlaceIff(cls, s, f, dir, name);
    case RefreshCaptions(f) => StepRefreshIff(cls, s, f);
    case DeleteFile(f) => StepDeleteFileIff(cls, s, f);
    case DeleteDir(id) => StepDeleteDirIff(cls, s, id);
  }

  /** A run: each step enabled in the state it meets. */
  predicate IsRun(cls: CharClasses, s: State, steps: seq<Step>)
    decreases |steps|
  {
    steps == [] || (Enabled(s, steps[0]) && IsRun(cls, Apply(cls, s, steps[0]), steps[1..]))
  }

  function AfterRun(cls: CharClasses, s: State, steps: seq<Step>): State
    requires IsRun(cls, s, steps)
    decreases |steps|
  {
    if steps == [] then s else AfterRun(cls, Apply(cls, s, steps[0]), steps[1..])
  }

  ghost predicate AllClean(cls: CharClasses, s: State, steps: seq<Step>)
    requires IsRun(cls, s, steps)
    decreases |steps|
  {
    steps == [] || (Clean(cls, s, steps[0]) && AllClean(cls, Apply(cls, s, steps[0]), steps[1..]))
  }

  lemma {:induction false} RunAppend(cls: CharClasses, s: State, run: seq<Step>, more: seq<Step>)
    requires IsRun(cls, s, run) && IsRun(cls, AfterRun(cls, s, run), more)
    ensures IsRun(cls, s, run + more) && AfterRun(cls, s, run + more) == AfterRun(cls, AfterRun(cls, s, run), more)
    ensures AllClean(cls, s, run + more) <==> AllClean(cls, s, run) && AllClean(cls, AfterRun(cls, s, run), more)
    decreases |run|
  {
    hide Enabled, Apply, Clean;
    if run == [] {
      assert run + more == more;
    } else {
      assert (run + more)[0] == run[0] && (run + more)[1..] == run[1..] + more;
      RunAppend(cls, Apply(cls, s, run[0]), run[1..], more);
    }
  }

  lemma OneStep(cls: CharClasses, s: State, step: Step)
    requires Enabled(s, step)
    ensures IsRun(cls, s, [step]) && AfterRun(cls, s, [step]) == Apply(cls, s, step)
    ensures AllClean(cls, s, [step]) <==> Clean(cls, s, step)
  {
    hide Enabled, Apply, Clean;
    assert [step][1..] == [];
  }

  /** Before anything is stored: no rows, and messages that only people wrote. */
  lemma NewDriveOk(msgs: Msgs, next: nat, users: set<Id>)
    requires NextOk(msgs, next) && forall m | m in msgs :: !DecodeCaption(msgs[m].caption).Ok?
    ensures Inv(State(msgs, next, map[], map[], map[], users))
  {
    hide DecodeCaption;
    assert forall m: nat :: RecordIn(msgs, m) == None;
  }

  lemma {:induction false} RunKeepsInv(cls: CharClasses, s: State, steps: seq<Step>)
    requires Inv(s) && Sane(cls) && IsRun(cls, s, steps) && AllClean(cls, s, steps)
    ensures Inv(AfterRun(cls, s, steps))
    decreases |steps|
  {
    if steps != [] {
      StepKeepsInvIff(cls, s, steps[0]);
      hide Inv, Enabled, Apply, Clean;
      RunKeepsInv(cls, Apply(cls, s, steps[0]), steps[1..]);
    }
  }
}
