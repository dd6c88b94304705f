/** The storage channel: captioned messages, and the scan that reads them back
    (internal/indexer/indexer.go, scan and absorb). */
module Channel {
  import opened Text
  import opened Tree
  import opened TagCodec

  /** A message; doc is the size of its document, None for a caption-only message. */
  datatype Msg = Msg(caption: string, doc: Option<nat>)

  type Msgs = map<nat, Msg>

  function DocSize(m: Msg): nat {
    if m.doc == None then 0 else m.doc.value
  }

  /** The record in a message, if it holds one. */
  function RecordIn(msgs: Msgs, m: nat): Option<Record> {
    if m !in msgs then None
    else
      match DecodeCaption(msgs[m].caption)
      case Ok(rec) => Some(rec)
      case _ => None
  }

  predicate IsDirMsg(msgs: Msgs, m: nat, id: Id) {
    var r := RecordIn(msgs, m);
    r.Some? && r.value.kind == KindDir && r.value.id == id
  }

  predicate IsFileMsg(msgs: Msgs, m: nat, id: Id) {
    var r := RecordIn(msgs, m);
    r.Some? && r.value.kind == KindFile && r.value.id == id
  }

  predicate IsSegMsg(msgs: Msgs, m: nat, id: Id, i: int) {
    IsFileMsg(msgs, m, id) && RecordIn(msgs, m).value.segIndex == i
  }

  datatype DirFound = DirFound(rec: Record, msg: nat)

  datatype SegFound = SegFound(msg: nat, size: nat)

  datatype FileFound = FileFound(rec: Record, segments: map<int, SegFound>)

  datatype Scanned = Scanned(dirs: map<Id, DirFound>, files: map<Id, FileFound>)

  /** Every directory record once, as its newest message tells it. */
  ghost predicate DirsScanned(msgs: Msgs, dirs: map<Id, DirFound>) {
    && (forall m: nat, id | IsDirMsg(msgs, m, id) :: id in dirs && m <= dirs[id].msg)
    && (forall id | id in dirs ::
          IsDirMsg(msgs, dirs[id].msg, id) && RecordIn(msgs, dirs[id].msg) == Some(dirs[id].rec))
  }

  /** m is the newest message of a file, and rec is what it says. */
  ghost predicate IsNewest(msgs: Msgs, m: nat, id: Id, rec: Record) {
    && IsFileMsg(msgs, m, id) && RecordIn(msgs, m) == Some(rec)
    && forall k: nat | IsFileMsg(msgs, k, id) :: k <= m
  }

  /** Every file record once, as its newest message tells it, and every segment of it
      where its newest message is. */
  ghost predicate FilesScanned(msgs: Msgs, files: map<Id, FileFound>) {
    && (forall m: nat, id | IsFileMsg(msgs, m, id) :: MsgScanned(msgs, files, m, id))
    && (forall id | id in files :: files[id].segments != map[] && exists m: nat :: IsNewest(msgs, m, id, files[id].rec))
    && (forall id, i | id in files && i in files[id].segments :: SegScanned(msgs, files[id].segments[i], id, i))
  }

  predicate MsgScanned(msgs: Msgs, files: map<Id, FileFound>, m: nat, id: Id)
    requires IsFileMsg(msgs, m, id)
  {
    && id in files
    && RecordIn(msgs, m).value.segIndex in files[id].segments
    && m <= files[id].segments[RecordIn(msgs, m).value.segIndex].msg
  }

  predicate SegScanned(msgs: Msgs, seg: SegFound, id: Id, i: int) {
    IsSegMsg(msgs, seg.msg, id, i) && seg.size == DocSize(msgs[seg.msg])
  }

  /** absorb: the first message of a record wins, since history runs newest first. */
  function Absorb(out: Scanned, m: nat, msg: Msg): Scanned {
    match DecodeCaption(msg.caption)
    case Ok(rec) =>
      if rec.kind == KindDir then
        if rec.id in out.dirs then out else out.(dirs := out.dirs[rec.id := DirFound(rec, m)])
      else
        var f := if rec.id in out.files then out.files[rec.id] else FileFound(rec, map[]);
        if rec.segIndex in f.segments then out
        else
          out.(files := out.files[rec.id := f.(segments := f.segments[rec.segIndex := SegFound(m, DocSize(msg))])])
    case _ => out
  }

  /** A channel's history, newest message first. */
  ghost predicate IsHistory(msgs: Msgs, ids: seq<nat>) {
    && (forall m :: m in ids <==> m in msgs)
    && (forall i, j | 0 <= i < j < |ids| :: ids[i] > ids[j])
  }

  lemma OtherMsg(msgs: Msgs, m: nat, msg: Msg, k: nat)
    requires k != m
    ensures RecordIn(msgs[m := msg], k) == RecordIn(msgs, k)
  {
  }

  lemma ThisMsg(msgs: Msgs, m: nat, msg: Msg)
    ensures RecordIn(msgs[m := msg], m) == match DecodeCaption(msg.caption) case Ok(rec) => Some(rec) case _ => None
  {
  }

  lemma AddDirMsg(msgs: Msgs, out: Scanned, m: nat, msg: Msg)
    requires m !in msgs && forall k | k in msgs :: m < k
    requires DirsScanned(msgs, out.dirs)
    ensures DirsScanned(msgs[m := msg], Absorb(out, m, msg).dirs)
  {
    hide DecodeCaption;
    var more := msgs[m := msg];
    assert forall k: nat | k != m :: RecordIn(more, k) == RecordIn(msgs, k);
    assert forall k: nat, id | k != m :: IsDirMsg(more, k, id) <==> IsDirMsg(msgs, k, id);
  }

  lemma AbsorbFile(msgs: Msgs, out: Scanned, m: nat, msg: Msg, id: Id)
    requires m !in msgs
    ensures var more, after := msgs[m := msg], Absorb(out, m, msg).files;
            if IsFileMsg(more, m, id) then
              var rec := RecordIn(more, m).value;
              && id in after && rec.segIndex in after[id].segments
              && after[id].rec == (if id in out.files then out.files[id].rec else rec)
              && (id in out.files && rec.segIndex in out.files[id].segments ==> after[id] == out.files[id])
              && (!(id in out.files && rec.segIndex in out.files[id].segments) ==>
                    after[id].segments == (if id in out.files then out.files[id].segments else map[])[rec.segIndex := SegFound(m, DocSize(msg))])
            else id in after <==> id in out.files && (id in after ==> after[id] == out.files[id])
  {
    ThisMsg(msgs, m, msg);
    hide DecodeCaption, RecordIn;
  }

  lemma KeptMsgScanned(msgs: Msgs, out: Scanned, m: nat, msg: Msg, k: nat, id: Id)
    requires m !in msgs && forall l | l in msgs :: m < l
    requires FilesScanned(msgs, out.files) && IsFileMsg(msgs[m := msg], k, id)
    ensures MsgScanned(msgs[m := msg], Absorb(out, m, msg).files, k, id)
  {
    AbsorbFile(msgs, out, m, msg, id);
    if k != m {
      OtherMsg(msgs, m, msg, k);
      hide Absorb, RecordIn, DecodeCaption;
      assert MsgScanned(msgs, out.files, k, id);
    } else {
      hide Absorb, RecordIn, DecodeCaption;
      if id in out.files && RecordIn(msgs[m := msg], m).value.segIndex in out.files[id].segments {
        assert SegScanned(msgs, out.files[id].segments[RecordIn(msgs[m := msg], m).value.segIndex], id, RecordIn(msgs[m := msg], m).value.segIndex);
        SegMsgIn(msgs, out.files[id].segments[RecordIn(msgs[m := msg], m).value.segIndex], id, RecordIn(msgs[m := msg], m).value.segIndex);
      }
    }
  }

  lemma SegMsgIn(msgs: Msgs, seg: SegFound, id: Id, i: int)
    requires SegScanned(msgs, seg, id, i)
    ensures seg.msg in msgs
  {
  }

  lemma KeptNewest(msgs: Msgs, out: Scanned, m: nat, msg: Msg, id: Id) returns (n: nat)
    requires m !in msgs && forall l | l in msgs :: m < l
    requires FilesScanned(msgs, out.files) && id in Absorb(out, m, msg).files
    ensures IsNewest(msgs[m := msg], n, id, Absorb(out, m, msg).files[id].rec)
    ensures Absorb(out, m, msg).files[id].segments != map[]
  {
    var more := msgs[m := msg];
    AbsorbFile(msgs, out, m, msg, id);
    hide Absorb;
    if id in out.files {
      n :| IsNewest(msgs, n, id, out.files[id].rec);
      OtherMsg(msgs, m, msg, n);
    } else {
      n := m;
    }
    forall k: nat | IsFileMsg(more, k, id) ensures k <= n {
      if k != m {
        OtherMsg(msgs, m, msg, k);
        assert MsgScanned(msgs, out.files, k, id);
      }
    }
  }

  lemma KeptSegScanned(msgs: Msgs, out: Scanned, m: nat, msg: Msg, id: Id, i: int)
    requires m !in msgs && FilesScanned(msgs, out.files)
    requires id in Absorb(out, m, msg).files && i in Absorb(out, m, msg).files[id].segments
    ensures SegScanned(msgs[m := msg], Absorb(out, m, msg).files[id].segments[i], id, i)
  {
    AbsorbFile(msgs, out, m, msg, id);
    hide Absorb;
    if id in out.files && i in out.files[id].segments {
      assert SegScanned(msgs, out.files[id].segments[i], id, i);
      SegMsgIn(msgs, out.files[id].segments[i], id, i);
      OtherMsg(msgs, m, msg, out.files[id].segments[i].msg);
    }
  }

  lemma AddFileMsg(msgs: Msgs, out: Scanned, m: nat, msg: Msg)
    requires m !in msgs && forall k | k in msgs :: m < k
    requires FilesScanned(msgs, out.files)
    ensures FilesScanned(msgs[m := msg], Absorb(out, m, msg).files)
  {
    hide Absorb, DecodeCaption, RecordIn, MsgScanned, SegScanned, IsNewest, IsFileMsg;
    var more, files := msgs[m := msg], Absorb(out, m, msg).files;
    forall k: nat, id | IsFileMsg(more, k, id) ensures MsgScanned(more, files, k, id) {
      KeptMsgScanned(msgs, out, m, msg, k, id);
    }
    forall id | id in files ensures files[id].segments != map[] && exists n: nat :: IsNewest(more, n, id, files[id].rec) {
      var n := KeptNewest(msgs, out, m, msg, id);
    }
    forall id, i | id in files && i in files[id].segments ensures SegScanned(more, files[id].segments[i], id, i) {
      KeptSegScanned(msgs, out, m, msg, id, i);
    }
  }

  /** The part of the channel whose messages are listed. */
  function Part(msgs: Msgs, ids: seq<nat>): Msgs
    requires forall m | m in ids :: m in msgs
  {
    map m | m in ids :: msgs[m]
  }

  lemma PartGrows(msgs: Msgs, ids: seq<nat>, i: nat)
    requires IsHistory(msgs, ids) && i < |ids|
    ensures ids[i] in msgs && (forall m | m in ids[..i] :: m in msgs) && (forall m | m in ids[..i + 1] :: m in msgs)
    ensures Part(msgs, ids[..i + 1]) == Part(msgs, ids[..i])[ids[i] := msgs[ids[i]]]
    ensures ids[i] !in Part(msgs, ids[..i]) && forall k | k in Part(msgs, ids[..i]) :: ids[i] < k
  {
    assert ids[i] in ids;
    assert ids[..i + 1] == ids[..i] + [ids[i]];
    assert forall m | m in ids[..i] :: m in ids;
  }

  /** scan over the whole history, newest first, whatever foreign or malformed messages
      it contains. */
  method Scan(msgs: Msgs, ids: seq<nat>) returns (out: Scanned)
    requires IsHistory(msgs, ids)
    ensures DirsScanned(msgs, out.dirs) && FilesScanned(msgs, out.files)
  {
    out := Scanned(map[], map[]);
    ScanStarts(msgs, ids);
    hide *;
    for i := 0 to |ids|
      invariant forall m | m in ids[..i] :: m in msgs
      invariant DirsScanned(Part(msgs, ids[..i]), out.dirs) && FilesScanned(Part(msgs, ids[..i]), out.files)
    {
      PartGrows(msgs, ids, i);
      AddDirMsg(Part(msgs, ids[..i]), out, ids[i], msgs[ids[i]]);
      AddFileMsg(Part(msgs, ids[..i]), out, ids[i], msgs[ids[i]]);
      out := Absorb(out, ids[i], msgs[ids[i]]);
    }
  }

  lemma ScanStarts(msgs: Msgs, ids: seq<nat>)
    requires IsHistory(msgs, ids)
    ensures ids[..0] == [] && Part(msgs, []) == map[] && DirsScanned(map[], map[]) && FilesScanned(map[], map[])
    ensures ids[..|ids|] == ids && (forall m | m in ids :: m in msgs) && Part(msgs, ids) == msgs
  {
  }
}
