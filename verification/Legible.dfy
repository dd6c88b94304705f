/** When a caption tells what it was written to tell: the exact condition on its tags, and
    the folder names that fail it (internal/tagcodec/tagcodec.go). */
module Legible {
  import opened TagCodec
  import opened Text
  import opened Utf8

  datatype Field =
    | KindField | VersionField | IdField | ParentField | NameField
    | OwnerField | SegField | SizeField | SegmentSizeField

  /** The field that a tag sets, whoever wrote it. */
  function FieldOf(tok: string): Option<Field> {
    if tok == MARKER then None
    else if tok == "dir" || tok == "file" then Some(KindField)
    else if IsVersionTag(tok) then Some(VersionField)
    else if "id_" <= tok then Some(IdField)
    else if "pid_" <= tok then if tok[4..] == ROOT_PARENT then None else Some(ParentField)
    else if "n_" <= tok then Some(NameField)
    else if "own_" <= tok then Some(OwnerField)
    else if "seg_" <= tok then Some(SegField)
    else if "sz_" <= tok then Some(SizeField)
    else if "ss_" <= tok then Some(SegmentSizeField)
    else None
  }

  predicate Parses(tok: string) {
    Step(EMPTY, tok).Some?
  }

  /** In this field the scan has what the record has. */
  predicate Tells(a: Scan, r: Record, caption: string, field: Field) {
    match field
    case KindField => a.kind == Some(KindFile)
    case VersionField => a.version.Some? && a.version.value <= VERSION
    case IdField => a.id == r.id
    case ParentField => a.parent == r.parent
    case NameField => DecodedName(a, caption, KindFile) == Some(r.name)
    case OwnerField => (if ValidID(a.owner) then a.owner else "") == r.owner
    case SegField => a.seg == Some((r.segIndex, r.segCount))
    case SizeField => a.size == Some(r.totalSize)
    case SegmentSizeField => a.segmentSize == Some(r.segmentSize)
  }

  /** The last tag that sets the field: later ones win. */
  function Last(tokens: seq<string>, field: Field): Option<string>
    decreases |tokens|
  {
    if tokens == [] then None
    else
      match Last(tokens[1..], field)
      case Some(tok) => Some(tok)
      case None => if FieldOf(tokens[0]) == Some(field) then Some(tokens[0]) else None
  }

  /** All tags of a file's caption: those that its name may smuggle in through the display
      line, its own, and the folders'. */
  function AllTagsOf(cls: CharClasses, r: Record): seq<string>
    requires ValidFile(r)
  {
    (if IsMarkerLine(r.name) then LineTags(r.name) else []) + (FileTokens(r) + KeptTags(cls, r))
  }

  /** No tag is malformed, and in each field the last tag says what the record says, or no
      tag sets it and the record has nothing there either. */
  ghost predicate IsLegible(cls: CharClasses, r: Record)
    requires ValidFile(r)
  {
    && (forall t | t in AllTagsOf(cls, r) :: Parses(t))
    && forall field :: FieldLegible(AllTagsOf(cls, r), r, FileBody(cls, r), field)
  }

  predicate FieldLegible(tokens: seq<string>, r: Record, caption: string, field: Field) {
    match Last(tokens, field)
    case Some(tok) => Parses(tok) && Tells(Step(EMPTY, tok).value, r, caption, field)
    case None => Tells(EMPTY, r, caption, field)
  }

  /** Everything an index row and a segment row have from a record. */
  predicate SameRow(rec: Record, r: Record) {
    && rec.kind == KindFile && rec.id == r.id && rec.parent == r.parent && rec.name == r.name
    && rec.segIndex == r.segIndex && rec.segCount == r.segCount
    && rec.totalSize == r.totalSize && rec.segmentSize == r.segmentSize && rec.owner == r.owner
  }

  /** A step changes at most the tag's own field of the scan. */
  lemma StepSets(a: Scan, tok: string)
    requires Step(a, tok).Some?
    ensures var b, one, f := Step(a, tok).value, Step(EMPTY, tok), FieldOf(tok);
            && one.Some?
            && b.kind == (if f == Some(KindField) then one.value.kind else a.kind)
            && b.version == (if f == Some(VersionField) then one.value.version else a.version)
            && b.id == (if f == Some(IdField) then one.value.id else a.id)
            && b.parent == (if f == Some(ParentField) then one.value.parent else a.parent)
            && b.encName == (if f == Some(NameField) then one.value.encName else a.encName)
            && b.owner == (if f == Some(OwnerField) then one.value.owner else a.owner)
            && b.seg == (if f == Some(SegField) then one.value.seg else a.seg)
            && b.size == (if f == Some(SizeField) then one.value.size else a.size)
            && b.segmentSize == (if f == Some(SegmentSizeField) then one.value.segmentSize else a.segmentSize)
  {
    hide ParseInt, ParseSeg, IsVersionTag;
  }

  lemma StepField(a: Scan, tok: string, r: Record, caption: string, field: Field)
    requires Step(a, tok).Some?
    ensures Tells(Step(a, tok).value, r, caption, field)
            <==> if FieldOf(tok) == Some(field) then Parses(tok) && Tells(Step(EMPTY, tok).value, r, caption, field)
                 else Tells(a, r, caption, field)
  {
    StepSets(a, tok);
    hide Step, FieldOf, ValidID;
  }

  lemma {:induction false} ScanParses(a: Scan, tokens: seq<string>)
    ensures ScanAll(a, tokens).Some? <==> forall t | t in tokens :: Parses(t)
    decreases |tokens|
  {
    if tokens != [] {
      hide Step, Parses;
      assert tokens == [tokens[0]] + tokens[1..];
      match Step(a, tokens[0])
      case None => assert tokens[0] in tokens;
      case Some(b) => ScanParses(b, tokens[1..]);
    }
  }

  lemma {:induction false} ScanField(a: Scan, tokens: seq<string>, r: Record, caption: string, field: Field)
    requires ScanAll(a, tokens).Some?
    ensures Tells(ScanAll(a, tokens).value, r, caption, field)
            <==> match Last(tokens, field)
                 case Some(tok) => Parses(tok) && Tells(Step(EMPTY, tok).value, r, caption, field)
                 case None => Tells(a, r, caption, field)
    decreases |tokens|
  {
    if tokens != [] {
      StepField(a, tokens[0], r, caption, field);
      hide Step, Parses, Tells;
      ScanField(Step(a, tokens[0]).value, tokens[1..], r, caption, field);
    }
  }

  lemma FinishTells(b: Scan, r: Record, caption: string)
    requires ValidFile(r)
    ensures Finish(b, caption).Ok? && SameRow(Finish(b, caption).rec, r) <==> forall field :: Tells(b, r, caption, field)
  {
    assert Tells(b, r, caption, KindField) && Tells(b, r, caption, VersionField) && Tells(b, r, caption, IdField)
           && Tells(b, r, caption, ParentField) && Tells(b, r, caption, NameField) && Tells(b, r, caption, OwnerField)
           && Tells(b, r, caption, SegField) && Tells(b, r, caption, SizeField) && Tells(b, r, caption, SegmentSizeField)
           <==> forall field :: Tells(b, r, caption, field);
    assert r.name != "";
    hide DecodedName, ValidID, ValidName;
  }

  /** A file's caption reads back as its row exactly when it is legible. */
  lemma LegibleIff(cls: CharClasses, r: Record)
    requires ValidFile(r) && Sane(cls)
    ensures DecodeCaption(FileBody(cls, r)).Ok? && SameRow(DecodeCaption(FileBody(cls, r)).rec, r) <==> IsLegible(cls, r)
  {
    var tokens, caption := AllTagsOf(cls, r), FileBody(cls, r);
    FileCaptionTags(cls, r);
    ScanParses(EMPTY, tokens);
    assert DecodeCaption(caption) == match ScanAll(EMPTY, tokens) case None => Malformed case Some(b) => Finish(b, caption);
    hide DecodeCaption, TagTokens, FileBody, AllTagsOf, Step, Tells, SameRow, Finish, ValidFile, Parses, Sane;
    if ScanAll(EMPTY, tokens).Some? {
      FinishTells(ScanAll(EMPTY, tokens).value, r, caption);
      forall field ensures Tells(ScanAll(EMPTY, tokens).value, r, caption, field) <==> FieldLegible(tokens, r, caption, field) {
        ScanField(EMPTY, tokens, r, caption, field);
      }
    }
  }

  /** In particular when no folder's tag has the shape of a machine tag and the file's name
      does not begin with the marker word. */
  lemma PlainIsLegible(cls: CharClasses, r: Record)
    requires ValidFile(r) && Sane(cls) && !IsMarkerLine(r.name)
    requires forall n | n in r.humanTags :: !MachineShaped(SanitizeTag(cls, n))
    ensures IsLegible(cls, r)
  {
    CollectedTags(cls, r.humanTags, []);
    var tags, kept := CollectTags(cls, r.humanTags, []), KeptTags(cls, r);
    forall t | t in kept ensures !MachineShaped(t) {
      var k :| 0 <= k < |kept| && kept[k] == t;
      assert tags[k] == t && t in tags;
    }
    FileEncodes(cls, r);
    hide SanitizeTag, MachineShaped, DecodeCaption, FileBody, EncodeFile, KeptTags, ValidFile, Sane, IsMarkerLine, CollectTags;
    FileRoundTripIff(cls, r);
    LegibleIff(cls, r);
  }

  // ------------------------------------------------------------ folder names that are mistaken for tags

  /** A short tag of the one folder that a file lies in always finds room. */
  lemma ShortTagKept(cls: CharClasses, r: Record, name: string)
    requires ValidFile(r) && r.humanTags == [name]
    requires SanitizeTag(cls, name) != "" && |SanitizeTag(cls, name)| <= 70
    ensures KeptTags(cls, r) == [SanitizeTag(cls, name)]
  {
    var tag, machine := SanitizeTag(cls, name), FileTokens(r);
    assert [name][1..] == [] && CollectTags(cls, [name], []) == [tag] by { assert [] + [tag] == [tag]; }
    FileTokensFit(r);
    Utf16AtMostUtf8(r.name);
    assert Hashed(machine + [tag]) == Hashed(machine) + ["#" + tag];
    SpacedAppend(Hashed(machine), ["#" + tag]);
    assert Spaced(Hashed(machine)) + " " + ("#" + tag) == Spaced(Hashed(machine)) + (" " + ("#" + tag));
    hide SanitizeTag, FileTokens, Hashed, ValidFile, Spaced;
    BodyLength(r.name, machine + [tag]);
    assert machine + [tag] + [] == machine + [tag];
    Utf16Append(Spaced(Hashed(machine)), " " + ("#" + tag));
    Utf16AtMostTwice(" " + ("#" + tag));
    assert Body(r.name, machine + [tag], []) == Body(r.name, machine, [tag]);
  }

  lemma {:induction false} Utf16AtMostTwice(s: string)
    ensures Utf16Len(s) <= 2 * |s|
  {
    if s != "" { Utf16AtMostTwice(s[1..]); }
  }

  /** What such a tag does to the caption's record. */
  lemma OneFolder(cls: CharClasses, r: Record, name: string)
    requires ValidFile(r) && Sane(cls) && r.humanTags == [name] && !IsMarkerLine(r.name)
    requires SanitizeTag(cls, name) != "" && |SanitizeTag(cls, name)| <= 70
    ensures EncodeFile(cls, r) == Some(FileBody(cls, r))
    ensures DecodeCaption(FileBody(cls, r)) ==
            match Step(AfterFile(EMPTY, r), SanitizeTag(cls, name)) case None => Malformed case Some(b) => Finish(b, FileBody(cls, r))
  {
    var tag, a := SanitizeTag(cls, name), AfterFile(EMPTY, r);
    ShortTagKept(cls, r, name);
    hide *;
    FileEncodes(cls, r);
    DecodeIsFinish(cls, r);
    ScanOne(a, tag);
  }

  lemma ScanOne(a: Scan, tag: string)
    ensures ScanAll(a, [tag]) == Step(a, tag)
  {
    assert [tag][1..] == [];
    hide Step;
  }

  lemma StepsOfNames(a: Scan)
    ensures Step(a, "dir") == Some(a.(kind := Some(KindDir))) && Step(a, "seg_x") == None
    ensures Step(a, "v1") == Some(a.(version := Some(1))) && Step(a, "v2") == Some(a.(version := Some(2)))
    ensures MachineShaped("v1")
  {
  }

  lemma OwnName(r: Record, b: Scan, caption: string, kind: Kind)
    requires ValidFile(r) && b.encName == AfterFile(EMPTY, r).encName
    ensures DecodedName(b, caption, kind) == Some(r.name) && r.name != ""
  {
    NameSurvives(b, caption, kind, r.name);
    hide DecodedName;
  }

  /** A file below a folder called dir reads back as a directory, */
  lemma FolderDirMakesDirectory(cls: CharClasses, r: Record, name: string)
    requires ValidFile(r) && Sane(cls) && r.humanTags == [name] && !IsMarkerLine(r.name) && SanitizeTag(cls, name) == "dir"
    ensures EncodeFile(cls, r).Some?
    ensures DecodeCaption(EncodeFile(cls, r).value) ==
            Ok(Record(KindDir, VERSION, r.id, r.parent, r.name, r.segIndex, r.segCount, r.totalSize, r.segmentSize, r.owner, []))
  {
    var b, caption := AfterFile(EMPTY, r).(kind := Some(KindDir)), FileBody(cls, r);
    OneFolder(cls, r, name);
    StepsOfNames(AfterFile(EMPTY, r));
    OwnName(r, b, caption, KindDir);
    hide FileBody, DecodeCaption, EncodeFile, DecodedName, SanitizeTag, IsMarkerLine, Step;
    assert Finish(b, caption).Ok?;
  }

  /** below one called v2 as of a version to come, */
  lemma FolderV2IsUnknownVersion(cls: CharClasses, r: Record, name: string)
    requires ValidFile(r) && Sane(cls) && r.humanTags == [name] && !IsMarkerLine(r.name) && SanitizeTag(cls, name) == "v2"
    ensures EncodeFile(cls, r).Some? && DecodeCaption(EncodeFile(cls, r).value) == UnknownVersion
  {
    OneFolder(cls, r, name);
    StepsOfNames(AfterFile(EMPTY, r));
    hide FileBody, DecodeCaption, EncodeFile, DecodedName, SanitizeTag, IsMarkerLine, Step, AfterFile, ValidFile, ValidID;
  }

  /** and below one called seg_x not at all. */
  lemma FolderSegXIsMalformed(cls: CharClasses, r: Record, name: string)
    requires ValidFile(r) && Sane(cls) && r.humanTags == [name] && !IsMarkerLine(r.name) && SanitizeTag(cls, name) == "seg_x"
    ensures EncodeFile(cls, r).Some? && DecodeCaption(EncodeFile(cls, r).value) == Malformed
  {
    OneFolder(cls, r, name);
    StepsOfNames(AfterFile(EMPTY, r));
    hide FileBody, DecodeCaption, EncodeFile, SanitizeTag, IsMarkerLine, Finish, Step, AfterFile, ValidFile;
  }

  /** Not every machine tag does harm: below a folder called v1 the row reads back. */
  lemma FolderV1IsHarmless(cls: CharClasses, r: Record, name: string)
    requires ValidFile(r) && Sane(cls) && r.humanTags == [name] && !IsMarkerLine(r.name) && SanitizeTag(cls, name) == "v1"
    ensures MachineShaped("v1") && IsLegible(cls, r)
  {
    var a, caption := AfterFile(EMPTY, r), FileBody(cls, r);
    OneFolder(cls, r, name);
    LegibleIff(cls, r);
    StepsOfNames(a);
    assert a.version == Some(1);
    OwnName(r, a, caption, KindFile);
    hide FileBody, DecodeCaption, EncodeFile, DecodedName, SanitizeTag, IsMarkerLine, IsLegible, Step, MachineShaped;
    assert Finish(a, caption).Ok?;
  }
}
