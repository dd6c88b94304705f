/** The drive as one state: the storage channel and the index that caches it, and the
    single mutations every operation is made of (internal/drive). */
module Drive {
  import opened Channel
  import opened Legible
  import opened Paths
  import opened TagCodec
  import opened Text
  import opened Tree
  import Utf8

  datatype FileStatus = Pending | Complete | Broken

  datatype File = File(
    dir: Id, name: string, size: int, segmentSize: int, segmentCount: int, status: FileStatus, owner: Id)

  datatype Seg = Seg(size: nat, msg: nat)

  type Files = map<Id, File>

  /** The segments table, keyed by file and 1-based index. */
  type Segs = map<(Id, int), Seg>

  /** next is the id the channel gives to the next message. */
  datatype State = State(msgs: Msgs, next: nat, dirs: Dirs, files: Files, segs: Segs, users: set<Id>)

  // ------------------------------------------------------------ names

  predicate IsControl(c: char) {
    c as int < 0x20 || 0x7F <= c as int < 0xA0
  }

  /** ValidateName. */
  predicate NameAllowed(name: string) {
    && name != "" && name != "." && name != ".." && '/' !in name
    && |Utf8.Encode(name)| <= MAX_NAME_BYTES
    && forall c | c in name :: !IsControl(c)
  }

  predicate Ordinary(c: char) {
    c >= ' ' && c != '/' && (c < '\U{007F}' || c > '\U{009F}')
  }

  /** The C0 and C1 control characters and DEL are refused, the dot names, the empty name, a
      slash, and more than 255 bytes; everything else is a name. */
  lemma NameRules(name: string)
    ensures !NameAllowed("") && !NameAllowed(".") && !NameAllowed("..")
    ensures (exists c | c in name :: !Ordinary(c)) ==> !NameAllowed(name)
    ensures |Utf8.Encode(name)| > 255 ==> !NameAllowed(name)
    ensures name !in {"", ".", ".."} && |Utf8.Encode(name)| <= 255 && (forall c | c in name :: Ordinary(c)) ==> NameAllowed(name)
  {
  }

  lemma AllowedIsEncodable(name: string)
    requires NameAllowed(name)
    ensures PlainName(name) && ValidName(name) && '\n' !in name
  {
    assert IsControl('\n') && IsControl('\r');
  }

  // ------------------------------------------------------------ captions

  function DirRecord(id: Id, d: Dir): Record {
    Record(KindDir, VERSION, id, d.parent, d.name, 0, 0, 0, 0, "", [])
  }

  /** What fileCaption encodes for one segment of a file. */
  function CaptionRecord(dirs: Dirs, f: Id, file: File, i: int): Record {
    Record(KindFile, VERSION, f, file.dir, file.name, i, file.segmentCount, file.size, file.segmentSize,
           file.owner, AncestorNames(DirPath(dirs, file.dir)))
  }

  function TextOf(caption: Option<string>): string {
    if caption == None then "" else caption.value
  }

  function DirCaption(id: Id, d: Dir): string {
    TextOf(EncodeDir(id, d.parent, d.name, d.path))
  }

  function FileCaption(cls: CharClasses, dirs: Dirs, f: Id, file: File, i: int): string {
    TextOf(EncodeFile(cls, CaptionRecord(dirs, f, file, i)))
  }

  /** The caption of segment i would read back as the file row. */
  ghost predicate Readable(cls: CharClasses, dirs: Dirs, f: Id, file: File, i: int) {
    ValidFile(CaptionRecord(dirs, f, file, i)) && IsLegible(cls, CaptionRecord(dirs, f, file, i))
  }

  /** The record says of segment i what the file row says. */
  predicate Matches(rec: Record, f: Id, file: File, i: int) {
    && rec.kind == KindFile && rec.id == f && rec.parent == file.dir && rec.name == file.name
    && rec.segIndex == i && rec.segCount == file.segmentCount
    && rec.totalSize == file.size && rec.segmentSize == file.segmentSize && rec.owner == file.owner
  }

  // ------------------------------------------------------------ what every state keeps

  ghost predicate TreeOk(dirs: Dirs) {
    && Consistent(dirs)
    && forall id | id in dirs :: ValidID(id) && NameAllowed(dirs[id].name)
  }

  /** What an insert has checked of a file row. */
  predicate FileOk(dirs: Dirs, users: set<Id>, f: Id, file: File) {
    && ValidID(f) && NameAllowed(file.name)
    && (file.dir == "" || file.dir in dirs)
    && 1 <= file.segmentCount <= MAX_INT64 && 0 <= file.size <= MAX_INT64 && 0 < file.segmentSize <= MAX_INT64
    && (file.owner == "" || (ValidID(file.owner) && file.owner in users))
  }

  /** Rows are sound and the unique index on (ifnull(dir_id, ''), name) holds. */
  predicate FilesOk(dirs: Dirs, users: set<Id>, files: Files) {
    && (forall f | f in files :: FileOk(dirs, users, f, files[f]))
    && (forall f, g | f in files && g in files && files[f].dir == files[g].dir && files[f].name == files[g].name :: f == g)
  }

  predicate DirMsgTells(msgs: Msgs, dirs: Dirs, id: Id)
    requires id in dirs
  {
    RecordIn(msgs, dirs[id].msg) == Some(DirRecord(id, dirs[id]))
  }

  /** Each directory has one message, which tells its row; no other message tells of a
      directory. */
  ghost predicate DirMsgsOk(msgs: Msgs, dirs: Dirs) {
    && (forall id {:trigger DirMsgTells(msgs, dirs, id)} | id in dirs :: DirMsgTells(msgs, dirs, id))
    && (forall m: nat, id | IsDirMsg(msgs, m, id) :: id in dirs && dirs[id].msg == m)
  }

  predicate SegOk(msgs: Msgs, files: Files, segs: Segs, f: Id, i: int)
    requires (f, i) in segs
  {
    && f in files && 1 <= i <= files[f].segmentCount
    && segs[(f, i)].msg in msgs && RecordIn(msgs, segs[(f, i)].msg).Some?
    && Matches(RecordIn(msgs, segs[(f, i)].msg).value, f, files[f], i)
    && segs[(f, i)].size == DocSize(msgs[segs[(f, i)].msg])
  }

  /** A file message belongs to a landed segment: its current message, or one that a
      newer upload of the same segment superseded. */
  predicate FileMsgOk(msgs: Msgs, segs: Segs, m: nat, f: Id)
    requires IsFileMsg(msgs, m, f)
  {
    var i := RecordIn(msgs, m).value.segIndex;
    (f, i) in segs && m <= segs[(f, i)].msg
  }

  ghost predicate SegMsgsOk(msgs: Msgs, files: Files, segs: Segs) {
    && (forall f, i | (f, i) in segs :: SegOk(msgs, files, segs, f, i))
    && (forall m: nat, f | IsFileMsg(msgs, m, f) :: FileMsgOk(msgs, segs, m, f))
  }

  predicate Landed(segs: Segs, f: Id, count: int) {
    forall i | 1 <= i <= count :: (f, i) in segs
  }

  predicate StatusOk(files: Files, segs: Segs) {
    forall f | f in files && files[f].status == Complete :: Landed(segs, f, files[f].segmentCount)
  }

  /** Message ids are positive and grow. */
  predicate NextOk(msgs: Msgs, next: nat) {
    0 < next && forall m | m in msgs :: 0 < m < next
  }

  ghost predicate Inv(s: State) {
    && TreeOk(s.dirs)
    && FilesOk(s.dirs, s.users, s.files)
    && DirMsgsOk(s.msgs, s.dirs)
    && SegMsgsOk(s.msgs, s.files, s.segs)
    && StatusOk(s.files, s.segs)
    && NextOk(s.msgs, s.next)
  }

  // ------------------------------------------------------------ captions tell the rows

  lemma PathOneLine(dirs: Dirs, id: Id)
    requires TreeOk(dirs) && (id == "" || id in dirs)
    ensures '\n' !in DirPath(dirs, id)
    ensures SplitPath(DirPath(dirs, id)) == NamesTo(dirs, id)
  {
    StoredPathIsWalk(dirs, id);
    SplitOfPath(NamesTo(dirs, id));
    NamesAreLines(dirs, id);
    WalkOneLine(NamesTo(dirs, id));
  }

  lemma {:induction false} NamesAreLines(dirs: Dirs, id: Id)
    requires TreeOk(dirs) && (id == "" || id in dirs)
    ensures forall n | n in NamesTo(dirs, id) :: '\n' !in n
    decreases |DirPath(dirs, id)|, id != ""
  {
    if id != "" {
      assert Linked(dirs, id);
      JoinLonger(DirPath(dirs, dirs[id].parent), dirs[id].name);
      NamesAreLines(dirs, dirs[id].parent);
      AllowedIsEncodable(dirs[id].name);
    }
  }

  lemma {:induction false} WalkOneLine(names: seq<string>)
    requires forall n | n in names :: '\n' !in n
    ensures '\n' !in PathOf(names)
  {
    if names != [] {
      WalkOneLine(names[..|names| - 1]);
    }
  }

  /** A directory's caption always tells its row, whatever the folders are called. */
  lemma DirCaptionTells(dirs: Dirs, id: Id)
    requires TreeOk(dirs) && id in dirs
    ensures DecodeCaption(DirCaption(id, dirs[id])) == Ok(DirRecord(id, dirs[id]))
  {
    var d := dirs[id];
    assert Linked(dirs, id);
    PathOneLine(dirs, id);
    AllowedIsEncodable(d.name);
    DirRoundTrip(id, d.parent, d.name, d.path);
  }

  lemma CaptionRecordValid(dirs: Dirs, users: set<Id>, f: Id, file: File, i: int)
    requires FileOk(dirs, users, f, file) && 1 <= i <= file.segmentCount
    requires forall id | id in dirs :: ValidID(id)
    ensures ValidFile(CaptionRecord(dirs, f, file, i))
  {
    AllowedIsEncodable(file.name);
  }

  /** The caption written for a segment reads back as the file row exactly when it is
      legible. */
  lemma FileCaptionTellsIff(cls: CharClasses, dirs: Dirs, users: set<Id>, f: Id, file: File, i: int)
    requires Sane(cls) && TreeOk(dirs) && FileOk(dirs, users, f, file) && 1 <= i <= file.segmentCount
    ensures DecodeCaption(FileCaption(cls, dirs, f, file, i)).Ok?
            && Matches(DecodeCaption(FileCaption(cls, dirs, f, file, i)).rec, f, file, i)
            <==> Readable(cls, dirs, f, file, i)
  {
    var r := CaptionRecord(dirs, f, file, i);
    CaptionRecordValid(dirs, users, f, file, i);
    hide TreeOk, FileOk, ValidFile, Sane, DecodeCaption, FileBody, EncodeFile, AncestorNames, IsLegible;
    FileEncodes(cls, r);
    LegibleIff(cls, r);
  }

  /** It is when no folder above the file has the name of a machine tag, and the file's own
      name does not begin with the marker word. */
  lemma PlainNamesReadable(cls: CharClasses, dirs: Dirs, users: set<Id>, f: Id, file: File, i: int)
    requires Sane(cls) && TreeOk(dirs) && FileOk(dirs, users, f, file) && 1 <= i <= file.segmentCount
    requires !IsMarkerLine(file.name)
    requires forall n | n in NamesTo(dirs, file.dir) :: !MachineShaped(SanitizeTag(cls, n))
    ensures Readable(cls, dirs, f, file, i)
  {
    var r := CaptionRecord(dirs, f, file, i);
    CaptionRecordValid(dirs, users, f, file, i);
    hide *;
    PathOneLine(dirs, file.dir);
    ReversedMembers(SplitPath(DirPath(dirs, file.dir)));
    NearestFirst(DirPath(dirs, file.dir));
    ReadableFrom(cls, dirs, f, file, i);
  }

  lemma ReadableFrom(cls: CharClasses, dirs: Dirs, f: Id, file: File, i: int)
    requires ValidFile(CaptionRecord(dirs, f, file, i)) && Sane(cls) && !IsMarkerLine(file.name)
    requires forall n | n in AncestorNames(DirPath(dirs, file.dir)) :: !MachineShaped(SanitizeTag(cls, n))
    ensures Readable(cls, dirs, f, file, i)
  {
    hide ValidFile, Sane, IsMarkerLine, MachineShaped, SanitizeTag, AncestorNames, IsLegible;
    PlainIsLegible(cls, CaptionRecord(dirs, f, file, i));
  }

  lemma NearestFirst(path: string)
    ensures AncestorNames(path) == Reversed(SplitPath(path))
  {
  }

  lemma ReversedMembers(s: seq<string>)
    ensures forall x :: x in Reversed(s) <==> x in s
  {
    var r := Reversed(s);
    forall x | x in r ensures x in s {
      var k :| 0 <= k < |r| && r[k] == x;
      assert s[|s| - 1 - k] == x;
    }
    forall x | x in s ensures x in r {
      var k :| 0 <= k < |s| && s[k] == x;
      assert r[|s| - 1 - k] == x;
    }
  }
}
