/** The mutations of the drive, each with its Telegram and its index half, and what they
    keep (internal/drive/ops.go, drive.go, upload.go; internal/database/tree.go). */
module DriveSteps {
  import opened Channel
  import opened Drive
  import opened Paths
  import opened TagCodec
  import opened Text
  import opened Tree

  datatype Step =
    | HumanMessage(caption: string, doc: Option<nat>)
    | CreateDir(id: Id, parent: Id, name: string)
    | RelocateDir(id: Id, parent: Id, name: string)
    | InsertFile(f: Id, file: File)
    | SetFileSize(f: Id, size: nat, count: nat)
    | PutSegment(f: Id, i: int, size: nat)
    | CompleteFile(f: Id)
    | PlaceFile(f: Id, dir: Id, name: string)
    | RefreshCaptions(f: Id)
    | DeleteFile(f: Id)
    | DeleteDir(id: Id)

  // ------------------------------------------------------------ Telegram's half

  function Edited(msgs: Msgs, m: nat, caption: string): Msgs {
    if m in msgs then msgs[m := Msg(caption, msgs[m].doc)] else msgs
  }

  /** k is the last of f's segments whose row points at m. */
  predicate IsLast(segs: Segs, f: Id, m: nat, k: (Id, int)) {
    && k in segs && k.0 == f && segs[k].msg == m
    && forall j | j in segs && j.0 == f && segs[j].msg == m :: j.1 <= k.1
  }

  lemma {:induction false} LastExists(segs: Segs, f: Id, m: nat)
    requires m in FileMessages(segs, f)
    ensures exists k :: IsLast(segs, f, m, k)
    decreases |segs|
  {
    var k :| k in segs && k.0 == f && segs[k].msg == m;
    if m in FileMessages(segs - {k}, f) {
      LastExists(segs - {k}, f, m);
      var j :| IsLast(segs - {k}, f, m, j);
      assert IsLast(segs, f, m, if k.1 > j.1 then k else j);
    } else {
      assert forall j | j in segs && j.0 == f && segs[j].msg == m :: j in segs - {k} ==> segs[j].msg in FileMessages(segs - {k}, f);
      assert IsLast(segs, f, m, k);
    }
  }

  function LastIndex(segs: Segs, f: Id, m: nat): (i: int)
    requires m in FileMessages(segs, f)
    ensures (f, i) in segs && segs[(f, i)].msg == m
  {
    LastExists(segs, f, m);
    var k :| k in segs && IsLast(segs, f, m, k);
    k.1
  }

  /** rewriteFileCaptions: every segment's current message gets a fresh caption. */
  function Rewritten(cls: CharClasses, msgs: Msgs, dirs: Dirs, segs: Segs, f: Id, file: File): Msgs {
    map m | m in msgs ::
      if m in FileMessages(segs, f) then Msg(FileCaption(cls, dirs, f, file, LastIndex(segs, f, m)), msgs[m].doc)
      else msgs[m]
  }

  /** m is the message that the row of some segment of f points at. */
  predicate IsCurrent(msgs: Msgs, segs: Segs, m: nat, f: Id) {
    IsFileMsg(msgs, m, f) && (f, RecordIn(msgs, m).value.segIndex) in segs
    && segs[(f, RecordIn(msgs, m).value.segIndex)].msg == m
  }

  /** FileMessages. */
  function FileMessages(segs: Segs, f: Id): set<nat> {
    set k | k in segs && k.0 == f :: segs[k].msg
  }

  /** The messages of every segment of every file in the given directories. */
  function MessagesUnder(files: Files, segs: Segs, rows: set<Id>): set<nat> {
    set k | k in segs && k.0 in files && files[k.0].dir in rows :: segs[k].msg
  }

  // ------------------------------------------------------------ the transitions

  function FilesUnder(files: Files, rows: set<Id>): set<Id> {
    set f | f in files && files[f].dir in rows
  }

  function WithoutFiles(segs: Segs, gone: set<Id>): Segs {
    map k | k in segs && k.0 !in gone :: segs[k]
  }

  function NewDir(s: State, parent: Id, name: string): Dir {
    Dir(parent, name, Join(DirPath(s.dirs, parent), name), s.next)
  }

  function NewPath(s: State, parent: Id, name: string): string {
    Join(DirPath(s.dirs, parent), name)
  }

  predicate NameFree(files: Files, f: Id, dir: Id, name: string) {
    forall g | g in files && files[g].dir == dir && files[g].name == name :: g == f
  }

  /** What the operation has checked before it takes this step. */
  predicate Enabled(s: State, step: Step) {
    match step
    case HumanMessage(caption, _) => !DecodeCaption(caption).Ok?
    case CreateDir(id, parent, name) =>
      && ValidID(id) && id !in s.dirs && NameAllowed(name)
      && (parent == "" || parent in s.dirs)
      && forall k | k in s.dirs :: s.dirs[k].path != NewPath(s, parent, name)
    case RelocateDir(id, parent, name) =>
      && NameAllowed(name)
      && MayRelocate(s.dirs, id, parent, name, NewPath(s, parent, name))
    case InsertFile(f, file) =>
      && f !in s.files && FileOk(s.dirs, s.users, f, file) && file.status == Pending
      && NameFree(s.files, f, file.dir, file.name)
    case SetFileSize(f, size, count) =>
      && f in s.files && s.files[f].status == Pending && (forall k | k in s.segs :: k.0 != f)
      && size <= MAX_INT64 && 1 <= count <= MAX_INT64
    case PutSegment(f, i, size) => f in s.files && 1 <= i <= s.files[f].segmentCount
    case CompleteFile(f) => f in s.files && Landed(s.segs, f, s.files[f].segmentCount)
    case PlaceFile(f, dir, name) =>
      && f in s.files && NameAllowed(name) && (dir == "" || dir in s.dirs) && NameFree(s.files, f, dir, name)
    case RefreshCaptions(f) => f in s.files
    case DeleteFile(f) => f in s.files
    case DeleteDir(id) => id in s.dirs
  }

  function Apply(cls: CharClasses, s: State, step: Step): State
    requires Enabled(s, step)
  {
    match step
    case HumanMessage(caption, doc) => s.(msgs := s.msgs[s.next := Msg(caption, doc)], next := s.next + 1)
    case CreateDir(id, parent, name) =>
      var d := NewDir(s, parent, name);
      s.(msgs := s.msgs[s.next := Msg(DirCaption(id, d), None)], next := s.next + 1, dirs := s.dirs[id := d])
    case RelocateDir(id, parent, name) =>
      var dirs := Relocate(s.dirs, id, parent, name, NewPath(s, parent, name));
      s.(dirs := dirs, msgs := Edited(s.msgs, s.dirs[id].msg, DirCaption(id, dirs[id])))
    case InsertFile(f, file) => s.(files := s.files[f := file])
    case SetFileSize(f, size, count) => s.(files := s.files[f := s.files[f].(size := size, segmentCount := count)])
    case PutSegment(f, i, size) =>
      var doc := if size == 0 && s.files[f].size == 0 then None else Some(size);
      s.(msgs := s.msgs[s.next := Msg(FileCaption(cls, s.dirs, f, s.files[f], i), doc)], next := s.next + 1,
         segs := s.segs[(f, i) := Seg(size, s.next)])
    case CompleteFile(f) => s.(files := s.files[f := s.files[f].(status := Complete)])
    case PlaceFile(f, dir, name) =>
      var file := s.files[f].(dir := dir, name := name);
      s.(files := s.files[f := file], msgs := Rewritten(cls, s.msgs, s.dirs, s.segs, f, file))
    case RefreshCaptions(f) => s.(msgs := Rewritten(cls, s.msgs, s.dirs, s.segs, f, s.files[f]))
    case DeleteFile(f) =>
      s.(msgs := s.msgs - FileMessages(s.segs, f), files := s.files - {f}, segs := WithoutFiles(s.segs, {f}))
    case DeleteDir(id) =>
      var rows, gone := SubtreeRows(s.dirs, id), Cascade(s.dirs, {id});
      s.(msgs := s.msgs - (set d | d in rows && d in s.dirs :: s.dirs[d].msg) - MessagesUnder(s.files, s.segs, rows),
         dirs := s.dirs - gone, files := s.files - FilesUnder(s.files, gone),
         segs := WithoutFiles(s.segs, FilesUnder(s.files, gone)))
  }

  /** A message of one of the files that a newer upload of the same segment replaced. */
  predicate IsSuperseded(s: State, m: nat, gone: set<Id>) {
    var r := RecordIn(s.msgs, m);
    && r.Some? && r.value.kind == KindFile && r.value.id in gone
    && (r.value.id, r.value.segIndex) in s.segs && m < s.segs[(r.value.id, r.value.segIndex)].msg
  }

  /** No segment of these files was ever sent twice. */
  predicate SentOnce(s: State, gone: set<Id>) {
    forall m | m in s.msgs :: !IsSuperseded(s, m, gone)
  }

  /** The files a step deletes. */
  function Deleted(s: State, step: Step): set<Id> {
    match step
    case DeleteFile(f) => {f}
    case DeleteDir(id) => if id in s.dirs then FilesUnder(s.files, Cascade(s.dirs, {id})) else {}
    case _ => {}
  }

  /** What a step makes of one file's row: it goes exactly when the step deletes it or its
      subtree; its owner and segment size never change, its size and count only before the
      first segment is sent, its place and name only in a rename or move. */
  lemma FileAfter(cls: CharClasses, s: State, step: Step, f: Id)
    requires Enabled(s, step) && f in s.files
    ensures var x := Apply(cls, s, step);
            && (f !in x.files <==> (step.DeleteFile? && step.f == f) || (step.DeleteDir? && s.files[f].dir in Cascade(s.dirs, {step.id})))
            && (f in x.files ==>
                  var was, now := s.files[f], x.files[f];
                  && now.owner == was.owner && now.segmentSize == was.segmentSize
                  && (if step.PlaceFile? && step.f == f then now.dir == step.dir && now.name == step.name
                      else now.dir == was.dir && now.name == was.name)
                  && (if step.SetFileSize? && step.f == f then now.size == step.size && now.segmentCount == step.count
                      else now.size == was.size && now.segmentCount == was.segmentCount)
                  && now.status == if step.CompleteFile? && step.f == f then Complete else was.status)
  {
  }

  /** A segment's row goes with its file, and is written only when the segment is sent; a
      file's row appears only when it is inserted. */
  lemma RowsAfter(cls: CharClasses, s: State, step: Step, k: (Id, int))
    requires Enabled(s, step)
    ensures var x := Apply(cls, s, step);
            && (k in s.segs && !(step.PutSegment? && k == (step.f, step.i)) ==>
                  (k in x.segs <==> k.0 !in Deleted(s, step)) && (k in x.segs ==> x.segs[k] == s.segs[k]))
            && (k !in s.segs ==> (k in x.segs <==> step.PutSegment? && k == (step.f, step.i)))
            && (step.PutSegment? ==> x.segs[(step.f, step.i)] == Seg(step.size, s.next) && s.next in x.msgs)
            && (k.0 !in s.files ==> (k.0 in x.files <==> step.InsertFile? && step.f == k.0))
            && (step.InsertFile? ==> x.files[step.f] == step.file)
  {
  }

  /** A message is deleted only when a file or a directory is, and none of the deleted rows'
      messages is left; people's messages and new ones are added to what there is. */
  lemma MessagesAfter(cls: CharClasses, s: State, step: Step, m: nat)
    requires Enabled(s, step) && m != s.next
    ensures var x := Apply(cls, s, step);
            && (m in x.msgs ==> m in s.msgs && x.msgs[m].doc == s.msgs[m].doc)
            && (m in s.msgs && !step.DeleteFile? && !step.DeleteDir? ==> m in x.msgs)
            && (m in s.msgs && step.DeleteFile? ==> (m !in x.msgs <==> exists k :: k in s.segs && k.0 == step.f && s.segs[k].msg == m))
            && (step.HumanMessage? || step.CreateDir? || step.PutSegment? ==>
                  s.next in x.msgs && x.next == s.next + 1 && (m in s.msgs ==> x.msgs[m] == s.msgs[m]))
            && (step.HumanMessage? ==> x.msgs[s.next] == Msg(step.caption, step.doc))
  {
  }

  /** What an operation would have to check, and does not: that the captions it writes read
      back, although folder names become tags, that ASCII case folding drags no foreign row
      into a subtree, and that a deleted file left no older copy of a segment behind. */
  ghost predicate Clean(cls: CharClasses, s: State, step: Step) {
    match step
    case RelocateDir(id, parent, name) => id in s.dirs ==> NoCaseTwin(s.dirs, id, NewPath(s, parent, name))
    case PutSegment(f, i, _) => f in s.files ==> Readable(cls, s.dirs, f, s.files[f], i)
    case PlaceFile(f, dir, name) => f in s.files ==> AllReadable(cls, s, f, s.files[f].(dir := dir, name := name))
    case RefreshCaptions(f) => f in s.files ==> AllReadable(cls, s, f, s.files[f])
    case DeleteFile(f) => SentOnce(s, {f})
    case DeleteDir(id) => id in s.dirs ==> SubtreeAlone(s.dirs, id) && SentOnce(s, Deleted(s, step))
    case _ => true
  }

  /** So would the captions of all landed segments of the file. */
  ghost predicate AllReadable(cls: CharClasses, s: State, f: Id, file: File) {
    forall i | (f, i) in s.segs :: Readable(cls, s.dirs, f, file, i)
  }

  /** No row outside the subtree of a directory is taken for part of it. */
  predicate SubtreeAlone(dirs: Dirs, id: Id)
    requires id in dirs
  {
    forall k | k in dirs && LikeUnder(dirs[id].path, dirs[k].path) :: IsDescendant(dirs[id].path, dirs[k].path)
  }

  // ------------------------------------------------------------ messages

  lemma AppendedMsg(msgs: Msgs, next: nat, msg: Msg, m: nat)
    requires NextOk(msgs, next)
    ensures NextOk(msgs[next := msg], next + 1) && next !in msgs
    ensures m != next ==> RecordIn(msgs[next := msg], m) == RecordIn(msgs, m)
    ensures m == next ==> RecordIn(msgs[next := msg], m) == match DecodeCaption(msg.caption) case Ok(rec) => Some(rec) case _ => None
  {
  }

  lemma RemovedMsg(msgs: Msgs, gone: set<nat>, m: nat)
    ensures RecordIn(msgs - gone, m) == if m in gone then None else RecordIn(msgs, m)
  {
  }

  /** The same messages, as far as records go, tell of the same directories. */
  lemma DirMsgsSame(msgs: Msgs, msgs': Msgs, dirs: Dirs)
    requires DirMsgsOk(msgs, dirs)
    requires forall m: nat, id | IsDirMsg(msgs', m, id) :: IsDirMsg(msgs, m, id)
    requires forall id | id in dirs :: RecordIn(msgs', dirs[id].msg) == RecordIn(msgs, dirs[id].msg)
    ensures DirMsgsOk(msgs', dirs)
  {
    hide RecordIn;
    forall id | id in dirs ensures DirMsgTells(msgs', dirs, id) {
      assert DirMsgTells(msgs, dirs, id);
    }
  }

  // ------------------------------------------------------------ each step

  lemma StepHumanMessage(s: State, caption: string, doc: Option<nat>)
    requires Inv(s) && !DecodeCaption(caption).Ok?
    ensures Inv(s.(msgs := s.msgs[s.next := Msg(caption, doc)], next := s.next + 1))
  {
    var msgs := s.msgs[s.next := Msg(caption, doc)];
    forall m: nat ensures RecordIn(msgs, m) == RecordIn(s.msgs, m) && NextOk(msgs, s.next + 1) {
      AppendedMsg(s.msgs, s.next, Msg(caption, doc), m);
    }
    SameRecords(s, msgs, s.next + 1);
  }

  /** Only records matter, and the sizes of the documents that rows point at. */
  lemma SameRecords(s: State, msgs: Msgs, next: nat)
    requires Inv(s) && NextOk(msgs, next)
    requires forall m: nat :: RecordIn(msgs, m) == RecordIn(s.msgs, m)
    requires forall m | m in s.msgs :: m in msgs && msgs[m].doc == s.msgs[m].doc
    ensures Inv(s.(msgs := msgs, next := next))
  {
    InvParts(s);
    hide RecordIn, TreeOk, FilesOk, StatusOk, NextOk, Inv, DirMsgsOk, DirRecord;
    assert forall m: nat, id :: IsDirMsg(msgs, m, id) <==> IsDirMsg(s.msgs, m, id);
    DirMsgsSame(s.msgs, msgs, s.dirs);
    assert forall m: nat, f :: IsFileMsg(msgs, m, f) <==> IsFileMsg(s.msgs, m, f);
    forall k | k in s.segs ensures s.segs[k].msg in s.msgs {
      SegMsgInMsgs(s.msgs, s.files, s.segs, k);
    }
    hide SegMsgsOk, IsFileMsg, IsDirMsg;
    SegMsgsKept(s.msgs, msgs, s.files, s.segs);
    InvFrom(s.(msgs := msgs, next := next));
  }

  /** Row messages that still say the same, and no new file messages, keep the segments
      sound. */
  lemma SegMsgsKept(msgs: Msgs, msgs': Msgs, files: Files, segs: Segs)
    requires SegMsgsOk(msgs, files, segs)
    requires forall m: nat, f | IsFileMsg(msgs', m, f) :: IsFileMsg(msgs, m, f) && RecordIn(msgs', m) == RecordIn(msgs, m)
    requires forall k | k in segs ::
               && segs[k].msg in msgs' && RecordIn(msgs', segs[k].msg) == RecordIn(msgs, segs[k].msg)
               && (segs[k].msg in msgs ==> msgs'[segs[k].msg].doc == msgs[segs[k].msg].doc)
    ensures SegMsgsOk(msgs', files, segs)
  {
    hide RecordIn;
    forall f, i | (f, i) in segs ensures SegOk(msgs', files, segs, f, i) {
      assert SegOk(msgs, files, segs, f, i);
    }
    forall m: nat, f | IsFileMsg(msgs', m, f) ensures FileMsgOk(msgs', segs, m, f) {
      assert FileMsgOk(msgs, segs, m, f);
    }
  }

  lemma SegMsgInMsgs(msgs: Msgs, files: Files, segs: Segs, k: (Id, int))
    requires SegMsgsOk(msgs, files, segs) && k in segs
    ensures segs[k].msg in msgs && RecordIn(msgs, segs[k].msg).Some?
    ensures k.0 in files && 1 <= k.1 <= files[k.0].segmentCount
    ensures Matches(RecordIn(msgs, segs[k].msg).value, k.0, files[k.0], k.1)
    ensures segs[k].size == DocSize(msgs[segs[k].msg])
  {
    assert SegOk(msgs, files, segs, k.0, k.1);
  }

  lemma DirMsgInMsgs(msgs: Msgs, dirs: Dirs, id: Id)
    requires DirMsgsOk(msgs, dirs) && id in dirs
    ensures dirs[id].msg in msgs && RecordIn(msgs, dirs[id].msg) == Some(DirRecord(id, dirs[id]))
  {
    assert DirMsgTells(msgs, dirs, id);
  }

  lemma InvParts(s: State)
    requires Inv(s)
    ensures TreeOk(s.dirs) && FilesOk(s.dirs, s.users, s.files) && DirMsgsOk(s.msgs, s.dirs)
    ensures SegMsgsOk(s.msgs, s.files, s.segs) && StatusOk(s.files, s.segs) && NextOk(s.msgs, s.next)
  {
  }

  lemma InvFrom(s: State)
    requires TreeOk(s.dirs) && FilesOk(s.dirs, s.users, s.files) && DirMsgsOk(s.msgs, s.dirs)
    requires SegMsgsOk(s.msgs, s.files, s.segs) && StatusOk(s.files, s.segs) && NextOk(s.msgs, s.next)
    ensures Inv(s)
  {
  }

  // -- directories

  lemma NewDirTree(s: State, id: Id, parent: Id, name: string)
    requires TreeOk(s.dirs) && Enabled(s, CreateDir(id, parent, name))
    ensures TreeOk(s.dirs[id := NewDir(s, parent, name)])
  {
    var d := NewDir(s, parent, name);
    AllowedIsEncodable(name);
    assert id != "";
    NewDirLinked(s.dirs, id, d);
    NewDirName(s.dirs, id, d);
    hide Linked, NameAllowed, ValidID, UniqueNames;
  }

  lemma NewDirLinked(dirs: Dirs, id: Id, d: Dir)
    requires AllLinked(dirs) && id !in dirs && id != "" && PlainName(d.name)
    requires (d.parent == "" || d.parent in dirs) && d.path == Join(DirPath(dirs, d.parent), d.name)
    ensures AllLinked(dirs[id := d])
  {
    InsertKeepsLinks(dirs, id, d);
    assert Linked(dirs[id := d], id);
    hide Linked;
  }

  lemma NewDirName(dirs: Dirs, id: Id, d: Dir)
    requires Consistent(dirs) && id !in dirs && d.path == Join(DirPath(dirs, d.parent), d.name)
    requires forall k | k in dirs :: dirs[k].path != d.path
    ensures UniqueNames(dirs[id := d])
  {
    forall k | k in dirs ensures !(dirs[k].parent == d.parent && dirs[k].name == d.name) {
      assert Linked(dirs, k);
    }
  }

  lemma StepCreateDir(cls: CharClasses, s: State, id: Id, parent: Id, name: string)
    requires Inv(s) && Enabled(s, CreateDir(id, parent, name))
    ensures Inv(Apply(cls, s, CreateDir(id, parent, name)))
  {
    var d := NewDir(s, parent, name);
    var dirs := s.dirs[id := d];
    var msg := Msg(DirCaption(id, d), None);
    var msgs := s.msgs[s.next := msg];
    assert Apply(cls, s, CreateDir(id, parent, name)) == s.(msgs := msgs, next := s.next + 1, dirs := dirs);
    assert id !in s.dirs && d.msg == s.next;
    InvParts(s);
    hide *;
    NewDirTree(s, id, parent, name);
    NewDirMsg(s, dirs, id);
    NewDirMsgs(s, msgs, id, d);
    WiderTree(s.dirs, dirs, s.users, s.files);
    InvFrom(s.(msgs := msgs, next := s.next + 1, dirs := dirs));
  }

  lemma NewDirMsg(s: State, dirs: Dirs, id: Id)
    requires TreeOk(dirs) && id in dirs && NextOk(s.msgs, s.next)
    ensures var msgs := s.msgs[s.next := Msg(DirCaption(id, dirs[id]), None)];
            && NextOk(msgs, s.next + 1) && s.next !in s.msgs
            && forall m: nat :: RecordIn(msgs, m) == if m == s.next then Some(DirRecord(id, dirs[id])) else RecordIn(s.msgs, m)
  {
    DirCaptionTells(dirs, id);
    hide *;
    SentMsg(s, Msg(DirCaption(id, dirs[id]), None), DirRecord(id, dirs[id]));
  }

  lemma NewDirMsgs(s: State, msgs: Msgs, id: Id, d: Dir)
    requires DirMsgsOk(s.msgs, s.dirs) && SegMsgsOk(s.msgs, s.files, s.segs)
    requires id !in s.dirs && d.msg == s.next && s.next !in s.msgs
    requires forall m | m in s.msgs :: m in msgs && msgs[m] == s.msgs[m]
    requires forall m: nat :: RecordIn(msgs, m) == if m == s.next then Some(DirRecord(id, d)) else RecordIn(s.msgs, m)
    ensures DirMsgsOk(msgs, s.dirs[id := d]) && SegMsgsOk(msgs, s.files, s.segs)
  {
    forall k | k in s.segs ensures s.segs[k].msg in s.msgs && s.segs[k].msg != s.next {
      SegMsgInMsgs(s.msgs, s.files, s.segs, k);
    }
    assert forall m: nat, f | IsFileMsg(msgs, m, f) :: IsFileMsg(s.msgs, m, f) && RecordIn(msgs, m) == RecordIn(s.msgs, m) by {
      hide RecordIn;
    }
    NewDirOnly(s, msgs, id, d);
    hide *;
    SegMsgsKept(s.msgs, msgs, s.files, s.segs);
  }

  lemma NewDirOnly(s: State, msgs: Msgs, id: Id, d: Dir)
    requires DirMsgsOk(s.msgs, s.dirs) && id !in s.dirs && d.msg == s.next && s.next !in s.msgs
    requires forall m: nat :: RecordIn(msgs, m) == if m == s.next then Some(DirRecord(id, d)) else RecordIn(s.msgs, m)
    ensures DirMsgsOk(msgs, s.dirs[id := d])
  {
    var dirs := s.dirs[id := d];
    forall k | k in dirs ensures RecordIn(msgs, dirs[k].msg) == Some(DirRecord(k, dirs[k])) {
      if k != id { DirMsgInMsgs(s.msgs, s.dirs, k); }
    }
    hide RecordIn;
    forall m: nat, k | IsDirMsg(msgs, m, k) ensures k in dirs && dirs[k].msg == m {
      assert m != s.next ==> IsDirMsg(s.msgs, m, k);
    }
  }

  /** Files stay where they are when directories are only added, moved or renamed. */
  lemma WiderTree(dirs: Dirs, dirs': Dirs, users: set<Id>, files: Files)
    requires FilesOk(dirs, users, files) && dirs.Keys <= dirs'.Keys
    ensures FilesOk(dirs', users, files)
  {
    forall f | f in files ensures FileOk(dirs', users, f, files[f]) {
      assert FileOk(dirs, users, f, files[f]);
    }
  }

  lemma RelocatedTree(s: State, id: Id, parent: Id, name: string)
    requires TreeOk(s.dirs) && Enabled(s, RelocateDir(id, parent, name))
    requires NoCaseTwin(s.dirs, id, NewPath(s, parent, name))
    ensures TreeOk(Relocate(s.dirs, id, parent, name, NewPath(s, parent, name)))
  {
    RelocateConsistentIff(s.dirs, id, parent, name, NewPath(s, parent, name));
    RelocateKeepsRest(s.dirs, id, parent, name, NewPath(s, parent, name));
  }

  lemma StepRelocateDir(cls: CharClasses, s: State, id: Id, parent: Id, name: string)
    requires Inv(s) && Enabled(s, RelocateDir(id, parent, name))
    requires NoCaseTwin(s.dirs, id, NewPath(s, parent, name))
    ensures Inv(Apply(cls, s, RelocateDir(id, parent, name)))
  {
    var path := NewPath(s, parent, name);
    var dirs := Relocate(s.dirs, id, parent, name, path);
    assert id in s.dirs;
    var msgs := Edited(s.msgs, s.dirs[id].msg, DirCaption(id, dirs[id]));
    assert Apply(cls, s, RelocateDir(id, parent, name)) == s.(dirs := dirs, msgs := msgs);
    InvParts(s);
    hide *;
    RelocatedTree(s, id, parent, name);
    RelocateKeepsRest(s.dirs, id, parent, name, path);
    RelocatedMsg(s, dirs, id);
    RelocatedDirs(s, dirs, msgs, id);
    WiderTree(s.dirs, dirs, s.users, s.files);
    InvFrom(s.(dirs := dirs, msgs := msgs));
  }

  lemma RelocatedMsg(s: State, dirs: Dirs, id: Id)
    requires TreeOk(dirs) && id in dirs && DirMsgsOk(s.msgs, s.dirs) && id in s.dirs && NextOk(s.msgs, s.next)
    ensures var msgs := Edited(s.msgs, s.dirs[id].msg, DirCaption(id, dirs[id]));
            && NextOk(msgs, s.next) && msgs.Keys == s.msgs.Keys
            && (forall m | m in msgs :: msgs[m].doc == s.msgs[m].doc)
            && forall m: nat :: RecordIn(msgs, m) == if m == s.dirs[id].msg then Some(DirRecord(id, dirs[id])) else RecordIn(s.msgs, m)
  {
    var n := s.dirs[id].msg;
    var caption := DirCaption(id, dirs[id]);
    var msgs := Edited(s.msgs, n, caption);
    DirCaptionTells(dirs, id);
    DirMsgInMsgs(s.msgs, s.dirs, id);
    forall m: nat
      ensures msgs.Keys == s.msgs.Keys && (m in s.msgs ==> msgs[m].doc == s.msgs[m].doc)
      ensures RecordIn(msgs, m) == if m == n then Some(DirRecord(id, dirs[id])) else RecordIn(s.msgs, m)
    {
    }
  }

  lemma RelocatedDirs(s: State, dirs: Dirs, msgs: Msgs, id: Id)
    requires DirMsgsOk(s.msgs, s.dirs) && SegMsgsOk(s.msgs, s.files, s.segs)
    requires id in s.dirs && dirs.Keys == s.dirs.Keys
    requires msgs.Keys == s.msgs.Keys && forall m | m in msgs :: msgs[m].doc == s.msgs[m].doc
    requires forall m: nat :: RecordIn(msgs, m) == if m == s.dirs[id].msg then Some(DirRecord(id, dirs[id])) else RecordIn(s.msgs, m)
    requires dirs[id].msg == s.dirs[id].msg
    requires forall k | k in dirs && k != id ::
               dirs[k].msg == s.dirs[k].msg && dirs[k].parent == s.dirs[k].parent && dirs[k].name == s.dirs[k].name
    ensures DirMsgsOk(msgs, dirs) && SegMsgsOk(msgs, s.files, s.segs)
  {
    DirMsgInMsgs(s.msgs, s.dirs, id);
    forall k | k in s.segs ensures s.segs[k].msg in s.msgs && s.segs[k].msg != s.dirs[id].msg {
      SegMsgInMsgs(s.msgs, s.files, s.segs, k);
    }
    assert DirRecord(id, dirs[id]).kind == KindDir;
    hide RecordIn, SegMsgsOk, DirRecord, Matches;
    assert forall m: nat, f | IsFileMsg(msgs, m, f) :: IsFileMsg(s.msgs, m, f);
    RelocatedTells(s, dirs, msgs, id);
    hide *;
    SegMsgsKept(s.msgs, msgs, s.files, s.segs);
  }

  lemma RelocatedTells(s: State, dirs: Dirs, msgs: Msgs, id: Id)
    requires DirMsgsOk(s.msgs, s.dirs) && id in s.dirs && dirs.Keys == s.dirs.Keys && dirs[id].msg == s.dirs[id].msg
    requires forall m: nat :: RecordIn(msgs, m) == if m == s.dirs[id].msg then Some(DirRecord(id, dirs[id])) else RecordIn(s.msgs, m)
    requires forall k | k in dirs && k != id ::
               dirs[k].msg == s.dirs[k].msg && dirs[k].parent == s.dirs[k].parent && dirs[k].name == s.dirs[k].name
    ensures DirMsgsOk(msgs, dirs)
  {
    DirMsgInMsgs(s.msgs, s.dirs, id);
    hide RecordIn;
    forall k | k in dirs ensures DirMsgTells(msgs, dirs, k) {
      assert DirMsgTells(s.msgs, s.dirs, k);
    }
    forall m: nat, k | IsDirMsg(msgs, m, k) ensures k in dirs && dirs[k].msg == m {
      assert m != s.dirs[id].msg ==> IsDirMsg(s.msgs, m, k);
    }
  }

  // -- files

  lemma FilesOkWith(dirs: Dirs, users: set<Id>, files: Files, f: Id, file: File)
    requires FilesOk(dirs, users, files) && FileOk(dirs, users, f, file) && NameFree(files, f, file.dir, file.name)
    ensures FilesOk(dirs, users, files[f := file])
  {
    var more := files[f := file];
    forall g | g in more ensures FileOk(dirs, users, g, more[g]) {
      if g != f { assert more[g] == files[g] && FileOk(dirs, users, g, files[g]); }
    }
  }

  /** A row whose captioned columns do not change, or that has no segment yet. */
  lemma SegMsgsFileRow(msgs: Msgs, files: Files, segs: Segs, f: Id, file: File)
    requires SegMsgsOk(msgs, files, segs)
    requires f in files ==> file == files[f].(status := file.status) || forall k | k in segs :: k.0 != f
    ensures SegMsgsOk(msgs, files[f := file], segs)
  {
    hide RecordIn;
    forall g, i | (g, i) in segs ensures SegOk(msgs, files[f := file], segs, g, i) {
      assert SegOk(msgs, files, segs, g, i);
    }
  }

  lemma StepInsertFile(cls: CharClasses, s: State, f: Id, file: File)
    requires Inv(s) && Enabled(s, InsertFile(f, file))
    ensures Inv(Apply(cls, s, InsertFile(f, file)))
  {
    FilesOkWith(s.dirs, s.users, s.files, f, file);
    SegMsgsFileRow(s.msgs, s.files, s.segs, f, file);
    hide TreeOk, FilesOk, DirMsgsOk, SegMsgsOk, NextOk;
  }

  lemma StepSetFileSize(cls: CharClasses, s: State, f: Id, size: nat, count: nat)
    requires Inv(s) && Enabled(s, SetFileSize(f, size, count))
    ensures Inv(Apply(cls, s, SetFileSize(f, size, count)))
  {
    var file := s.files[f].(size := size, segmentCount := count);
    FilesOkWith(s.dirs, s.users, s.files, f, file);
    SegMsgsFileRow(s.msgs, s.files, s.segs, f, file);
    hide TreeOk, FilesOk, DirMsgsOk, SegMsgsOk, NextOk;
  }

  lemma StepCompleteFile(cls: CharClasses, s: State, f: Id)
    requires Inv(s) && Enabled(s, CompleteFile(f))
    ensures Inv(Apply(cls, s, CompleteFile(f)))
  {
    var file := s.files[f].(status := Complete);
    FilesOkWith(s.dirs, s.users, s.files, f, file);
    SegMsgsFileRow(s.msgs, s.files, s.segs, f, file);
    hide TreeOk, FilesOk, DirMsgsOk, SegMsgsOk, NextOk;
  }

  /** Sending a segment, or sending it again: the newest message is the current one. */
  lemma StepPutSegment(cls: CharClasses, s: State, f: Id, i: int, size: nat)
    requires Inv(s) && Sane(cls) && Enabled(s, PutSegment(f, i, size)) && Clean(cls, s, PutSegment(f, i, size))
    ensures Inv(Apply(cls, s, PutSegment(f, i, size)))
  {
    var doc := if size == 0 && s.files[f].size == 0 then None else Some(size);
    var msg := Msg(FileCaption(cls, s.dirs, f, s.files[f], i), doc);
    var msgs := s.msgs[s.next := msg];
    assert f in s.files && 1 <= i <= s.files[f].segmentCount && Readable(cls, s.dirs, f, s.files[f], i);
    assert DocSize(msgs[s.next]) == size && FileOk(s.dirs, s.users, f, s.files[f]);
    InvParts(s);
    hide *;
    FileCaptionTellsIff(cls, s.dirs, s.users, f, s.files[f], i);
    var rec := DecodeCaption(msg.caption).rec;
    SentMsg(s, msg, rec);
    PutSegmentIs(cls, s, f, i, size);
    NewSegment(s, msgs, f, i, size, rec);
    NewSegmentDirs(s, msgs, f, i, rec);
    NewSegmentRest(s, msgs, f, i, size);
  }

  lemma SentMsg(s: State, msg: Msg, rec: Record)
    requires NextOk(s.msgs, s.next) && DecodeCaption(msg.caption) == Ok(rec)
    ensures NextOk(s.msgs[s.next := msg], s.next + 1) && s.next !in s.msgs
    ensures forall m: nat :: RecordIn(s.msgs[s.next := msg], m) == if m == s.next then Some(rec) else RecordIn(s.msgs, m)
  {
    hide DecodeCaption;
    forall m: nat
      ensures NextOk(s.msgs[s.next := msg], s.next + 1) && s.next !in s.msgs
      ensures RecordIn(s.msgs[s.next := msg], m) == if m == s.next then Some(rec) else RecordIn(s.msgs, m)
    {
      AppendedMsg(s.msgs, s.next, msg, m);
    }
  }

  lemma NewSegmentDirs(s: State, msgs: Msgs, f: Id, i: int, rec: Record)
    requires DirMsgsOk(s.msgs, s.dirs) && NextOk(s.msgs, s.next) && f in s.files && Matches(rec, f, s.files[f], i)
    requires forall m: nat :: RecordIn(msgs, m) == if m == s.next then Some(rec) else RecordIn(s.msgs, m)
    ensures DirMsgsOk(msgs, s.dirs)
  {
    forall k | k in s.dirs ensures s.dirs[k].msg in s.msgs { DirMsgInMsgs(s.msgs, s.dirs, k); }
    hide RecordIn;
    assert forall m: nat, id | IsDirMsg(msgs, m, id) :: IsDirMsg(s.msgs, m, id);
    DirMsgsSame(s.msgs, msgs, s.dirs);
  }

  lemma PutSegmentIs(cls: CharClasses, s: State, f: Id, i: int, size: nat)
    requires Enabled(s, PutSegment(f, i, size))
    ensures Apply(cls, s, PutSegment(f, i, size)) ==
            s.(msgs := s.msgs[s.next := Msg(FileCaption(cls, s.dirs, f, s.files[f], i),
                                            if size == 0 && s.files[f].size == 0 then None else Some(size))],
               next := s.next + 1, segs := s.segs[(f, i) := Seg(size, s.next)])
  {
  }

  lemma NewSegmentRest(s: State, msgs: Msgs, f: Id, i: int, size: nat)
    requires Inv(s) && DirMsgsOk(msgs, s.dirs) && NextOk(msgs, s.next + 1)
    requires SegMsgsOk(msgs, s.files, s.segs[(f, i) := Seg(size, s.next)])
    ensures Inv(s.(msgs := msgs, next := s.next + 1, segs := s.segs[(f, i) := Seg(size, s.next)]))
  {
    hide TreeOk, FilesOk, DirMsgsOk, SegMsgsOk, NextOk;
  }

  lemma NewSegment(s: State, msgs: Msgs, f: Id, i: int, size: nat, rec: Record)
    requires SegMsgsOk(s.msgs, s.files, s.segs) && NextOk(s.msgs, s.next)
    requires f in s.files && 1 <= i <= s.files[f].segmentCount && Matches(rec, f, s.files[f], i)
    requires forall m: nat :: RecordIn(msgs, m) == if m == s.next then Some(rec) else RecordIn(s.msgs, m)
    requires s.next in msgs && DocSize(msgs[s.next]) == size
    requires forall m | m in s.msgs :: m in msgs && msgs[m] == s.msgs[m]
    ensures SegMsgsOk(msgs, s.files, s.segs[(f, i) := Seg(size, s.next)])
  {
    var segs := s.segs[(f, i) := Seg(size, s.next)];
    forall k | k in s.segs ensures s.segs[k].msg in s.msgs { SegMsgInMsgs(s.msgs, s.files, s.segs, k); }
    forall m: nat, g | IsFileMsg(s.msgs, m, g) ensures m < s.next {}
    hide RecordIn;
    forall g, j | (g, j) in segs ensures SegOk(msgs, s.files, segs, g, j) {
      if (g, j) != (f, i) { assert SegOk(s.msgs, s.files, s.segs, g, j); }
    }
    forall m: nat, g | IsFileMsg(msgs, m, g) ensures FileMsgOk(msgs, segs, m, g) {
      if m != s.next {
        assert IsFileMsg(s.msgs, m, g);
        assert FileMsgOk(s.msgs, s.segs, m, g);
      }
    }
  }

  /** Rewriting the captions of a file keeps every message's place, and makes the current
      ones tell the new row. */
  lemma RewrittenMsg(cls: CharClasses, s: State, f: Id, file: File, m: nat)
    requires Inv(s) && Sane(cls) && f in s.files && FileOk(s.dirs, s.users, f, file) && AllReadable(cls, s, f, file)
    requires file.segmentCount == s.files[f].segmentCount
    ensures var msgs := Rewritten(cls, s.msgs, s.dirs, s.segs, f, file);
            && msgs.Keys == s.msgs.Keys && (m in msgs ==> msgs[m].doc == s.msgs[m].doc)
            && (!IsCurrent(s.msgs, s.segs, m, f) ==> RecordIn(msgs, m) == RecordIn(s.msgs, m))
            && (IsCurrent(s.msgs, s.segs, m, f) ==>
                  RecordIn(msgs, m).Some? && Matches(RecordIn(msgs, m).value, f, file, RecordIn(s.msgs, m).value.segIndex))
  {
    CurrentIs(s, m, f);
    if IsCurrent(s.msgs, s.segs, m, f) {
      var i := RecordIn(s.msgs, m).value.segIndex;
      SegMsgInMsgs(s.msgs, s.files, s.segs, (f, i));
      FileCaptionTellsIff(cls, s.dirs, s.users, f, file, i);
    }
    hide DecodeCaption, FileCaption, Inv, FileOk, FileMessages, LastIndex, IsCurrent;
  }

  /** In a state that is in step, the messages that rows point at are those that say so. */
  lemma CurrentIs(s: State, m: nat, f: Id)
    requires Inv(s)
    ensures IsCurrent(s.msgs, s.segs, m, f) <==> m in FileMessages(s.segs, f)
    ensures m in FileMessages(s.segs, f) ==>
              LastIndex(s.segs, f, m) == RecordIn(s.msgs, m).value.segIndex && IsCurrent(s.msgs, s.segs, m, f)
  {
    if m in FileMessages(s.segs, f) {
      assert SegOk(s.msgs, s.files, s.segs, f, LastIndex(s.segs, f, m));
    }
    hide RecordIn, TreeOk, FilesOk, DirMsgsOk;
  }

  lemma StepRewrite(cls: CharClasses, s: State, f: Id, file: File)
    requires Inv(s) && Sane(cls) && f in s.files && FileOk(s.dirs, s.users, f, file) && AllReadable(cls, s, f, file)
    requires file.segmentCount == s.files[f].segmentCount && file.status == s.files[f].status
    requires NameFree(s.files, f, file.dir, file.name)
    ensures Inv(s.(files := s.files[f := file], msgs := Rewritten(cls, s.msgs, s.dirs, s.segs, f, file)))
  {
    var msgs := Rewritten(cls, s.msgs, s.dirs, s.segs, f, file);
    forall m: nat
      ensures msgs.Keys == s.msgs.Keys && (m in msgs ==> msgs[m].doc == s.msgs[m].doc)
      ensures !IsCurrent(s.msgs, s.segs, m, f) ==> RecordIn(msgs, m) == RecordIn(s.msgs, m)
      ensures IsCurrent(s.msgs, s.segs, m, f) ==>
                RecordIn(msgs, m).Some? && Matches(RecordIn(msgs, m).value, f, file, RecordIn(s.msgs, m).value.segIndex)
    {
      RewrittenMsg(cls, s, f, file, m);
    }
    FilesOkWith(s.dirs, s.users, s.files, f, file);
    RewrittenSegs(s, msgs, f, file);
    RewrittenDirs(s, msgs, f, file);
    hide RecordIn, TreeOk, FilesOk, SegMsgsOk, DirMsgsOk, Rewritten, IsCurrent, Matches;
  }

  lemma RewrittenDirs(s: State, msgs: Msgs, f: Id, file: File)
    requires DirMsgsOk(s.msgs, s.dirs)
    requires forall m: nat ::
               if IsCurrent(s.msgs, s.segs, m, f)
               then RecordIn(msgs, m).Some? && Matches(RecordIn(msgs, m).value, f, file, RecordIn(s.msgs, m).value.segIndex)
               else RecordIn(msgs, m) == RecordIn(s.msgs, m)
    ensures DirMsgsOk(msgs, s.dirs)
  {
    hide RecordIn;
    forall id | id in s.dirs ensures RecordIn(msgs, s.dirs[id].msg) == RecordIn(s.msgs, s.dirs[id].msg) {
      DirMsgInMsgs(s.msgs, s.dirs, id);
      assert !IsCurrent(s.msgs, s.segs, s.dirs[id].msg, f);
    }
    DirMsgsSame(s.msgs, msgs, s.dirs);
  }

  lemma RewrittenSegs(s: State, msgs: Msgs, f: Id, file: File)
    requires SegMsgsOk(s.msgs, s.files, s.segs) && f in s.files && file.segmentCount == s.files[f].segmentCount
    requires msgs.Keys == s.msgs.Keys && forall m | m in msgs :: msgs[m].doc == s.msgs[m].doc
    requires forall m: nat ::
               if IsCurrent(s.msgs, s.segs, m, f)
               then RecordIn(msgs, m).Some? && Matches(RecordIn(msgs, m).value, f, file, RecordIn(s.msgs, m).value.segIndex)
               else RecordIn(msgs, m) == RecordIn(s.msgs, m)
    ensures SegMsgsOk(msgs, s.files[f := file], s.segs)
  {
    hide RecordIn;
    forall g, i | (g, i) in s.segs ensures SegOk(msgs, s.files[f := file], s.segs, g, i) {
      assert SegOk(s.msgs, s.files, s.segs, g, i);
    }
    forall m: nat, g | IsFileMsg(msgs, m, g) ensures FileMsgOk(msgs, s.segs, m, g) {
      assert IsFileMsg(s.msgs, m, g);
      assert FileMsgOk(s.msgs, s.segs, m, g);
    }
  }
}
