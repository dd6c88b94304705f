/** The record in a message caption: a display line, a blank line, and a line of
    hashtags (internal/tagcodec/tagcodec.go). */
module TagCodec {
  import opened Decimal
  import opened Text
  import opened Utf8
  import Base32
  import Paths

  const MARKER: string := "tdrive"
  const VERSION: int := 1
  const MAX_CAPTION_UNITS: nat := 1024
  const MAX_NAME_BYTES: nat := 255
  const MAX_HUMAN_TAGS: nat := 5
  const ROOT_PARENT: string := "root"
  const MAX_INT64: int := 0x7FFF_FFFF_FFFF_FFFF

  datatype Kind = KindDir | KindFile

  datatype Record = Record(
    kind: Kind, version: int, id: string, parent: string, name: string,
    segIndex: int, segCount: int, totalSize: int, segmentSize: int,
    owner: string, humanTags: seq<string>)

  datatype Decoded = Ok(rec: Record) | NotTagged | UnknownVersion | Malformed

  /** Unicode's letters and decimal digits, as the unicode package classifies them. */
  datatype CharClasses = CharClasses(letter: char -> bool, digit: char -> bool)

  /** Neither class contains white space. */
  ghost predicate Sane(cls: CharClasses) {
    forall c: char | cls.letter(c) || cls.digit(c) :: !IsSpace(c)
  }

  // ------------------------------------------------------------ validation

  /** The 32 letters of Crockford's alphabet. */
  predicate IsCrockford(c: char) {
    || '0' <= c <= '9' || 'A' <= c <= 'H' || c == 'J' || c == 'K' || c == 'M' || c == 'N'
    || 'P' <= c <= 'T' || 'V' <= c <= 'Z'
  }

  predicate ValidID(id: string) {
    |id| == 26 && forall c | c in id :: IsCrockford(c)
  }

  predicate ValidName(name: string) {
    && name != "" && |Encode(name)| <= MAX_NAME_BYTES
    && '\n' !in name && '\r' !in name && '/' !in name
  }

  function OrRoot(id: string): string {
    if id == "" then ROOT_PARENT else id
  }

  /** A file record the encoder accepts; sizes are 64-bit. */
  predicate ValidFile(r: Record) {
    && ValidID(r.id) && (r.parent == "" || ValidID(r.parent)) && ValidName(r.name)
    && 1 <= r.segIndex <= r.segCount <= MAX_INT64
    && 0 <= r.totalSize <= MAX_INT64 && 0 < r.segmentSize <= MAX_INT64
    && (r.owner == "" || ValidID(r.owner))
  }

  // ------------------------------------------------------------ human tags

  function KeepTagChars(cls: CharClasses, name: string): string {
    if name == "" then ""
    else (if cls.letter(name[0]) || cls.digit(name[0]) || name[0] == '_' then [name[0]] else "")
         + KeepTagChars(cls, name[1..])
  }

  /** A folder name turned into something Telegram will linkify. */
  function SanitizeTag(cls: CharClasses, name: string): string {
    var out := KeepTagChars(cls, name);
    if out == "" then ""
    else if forall c | c in out :: cls.digit(c) && !cls.letter(c) then "_" + out
    else out
  }

  /** The sanitised tags of the ancestor folders: no repeats, at most five. */
  function CollectTags(cls: CharClasses, names: seq<string>, human: seq<string>): seq<string>
    decreases |names|
  {
    if names == [] || |human| >= MAX_HUMAN_TAGS then human
    else
      var t := SanitizeTag(cls, names[0]);
      CollectTags(cls, names[1..], if t == "" || t in human then human else human + [t])
  }

  // ------------------------------------------------------------ printing

  function Hashed(tokens: seq<string>): (words: seq<string>)
    ensures |words| == |tokens|
    ensures forall k | 0 <= k < |tokens| :: words[k] == "#" + tokens[k]
  {
    seq(|tokens|, i requires 0 <= i < |tokens| => "#" + tokens[i])
  }

  function DirTokens(id: string, parent: string, name: string): seq<string> {
    [MARKER, "v" + Itoa(1), "dir", "id_" + id, "pid_" + OrRoot(parent), "n_" + Base32.EncodeToString(Encode(name))]
  }

  function FileTokens(r: Record): seq<string>
    requires ValidFile(r)
  {
    [MARKER, "v" + Itoa(1), "file", "id_" + r.id, "pid_" + OrRoot(r.parent),
     "n_" + Base32.EncodeToString(Encode(r.name)),
     "seg_" + Itoa(r.segIndex) + "_" + Itoa(r.segCount), "sz_" + Itoa(r.totalSize), "ss_" + Itoa(r.segmentSize)]
    + if r.owner == "" then [] else ["own_" + r.owner]
  }

  /** The longest prefix of at most limit UTF-16 units. */
  function TruncateUtf16(s: string, limit: nat): (t: string)
    ensures t <= s && Utf16Len(t) <= limit
  {
    if s == "" || Utf16Units(s[0]) > limit then ""
    else
      var rest := TruncateUtf16(s[1..], limit - Utf16Units(s[0]));
      assert ([s[0]] + rest)[1..] == rest;
      [s[0]] + rest
  }

  /** The caption with the given human tags: the display line, the tags, and nothing
      dropped. */
  function Body(display: string, machine: seq<string>, human: seq<string>): string {
    display + "\n\n" + Spaced(Hashed(machine + human))
  }

  /** assemble: human tags are dropped from the end, then the display line shrinks; the
      machine tags stay. */
  function Assemble(display: string, machine: seq<string>, human: seq<string>): Option<string>
    decreases |human|
  {
    var base := Spaced(Hashed(machine));
    if Utf16Len(base) > MAX_CAPTION_UNITS then None
    else if Utf16Len(Body(display, machine, human)) <= MAX_CAPTION_UNITS then Some(Body(display, machine, human))
    else if human != [] then Assemble(display, machine, human[..|human| - 1])
    else
      var budget: int := MAX_CAPTION_UNITS - Utf16Len(base) - 2;
      Some(if budget <= 0 then base else Body(TruncateUtf16(display, budget), machine, []))
  }

  const FOLDER: char := '\U{1F4C1}'

  function DirDisplay(path: string): string {
    [FOLDER] + " " + path
  }

  function EncodeDir(id: string, parent: string, name: string, path: string): Option<string> {
    if !ValidID(id) || (parent != "" && !ValidID(parent)) || !ValidName(name) then None
    else Assemble(DirDisplay(path), DirTokens(id, parent, name), [])
  }

  function EncodeFile(cls: CharClasses, r: Record): Option<string> {
    if !ValidFile(r) then None
    else Assemble(r.name, FileTokens(r), CollectTags(cls, r.humanTags, []))
  }

  // ------------------------------------------------------------ parsing

  /** The tags of one line, without their hash. */
  function LineTags(line: string): seq<string> {
    TagsOf(Fields(line))
  }

  function TagsOf(fields: seq<string>): seq<string> {
    if fields == [] then []
    else (if |fields[0]| > 1 && fields[0][0] == '#' then [fields[0][1..]] else []) + TagsOf(fields[1..])
  }

  predicate IsMarkerLine(line: string) {
    Fields(line) != [] && Fields(line)[0] == "#" + MARKER
  }

  function AllTags(lines: seq<string>): seq<string> {
    if lines == [] then [] else LineTags(lines[0]) + AllTags(lines[1..])
  }

  /** The tags from the first marker line on. */
  function FromMarker(lines: seq<string>): Option<seq<string>> {
    if lines == [] then None
    else if IsMarkerLine(lines[0]) then Some(AllTags(lines))
    else FromMarker(lines[1..])
  }

  function TagTokens(caption: string): Option<seq<string>> {
    FromMarker(SplitOn(caption, '\n'))
  }

  /** strconv.ParseInt(s, 10, 64), and strconv.Atoi on 64-bit machines. */
  function ParseInt(s: string): Option<int> {
    var signed := s != "" && (s[0] == '+' || s[0] == '-');
    var digits := if signed then s[1..] else s;
    if digits == "" || !AllDigits(digits) then None
    else
      var n: int := if signed && s[0] == '-' then 0 - (ValueOf(digits) as int) else ValueOf(digits);
      if -MAX_INT64 - 1 <= n <= MAX_INT64 then Some(n) else None
  }

  function ParseSeg(s: string): Option<(int, int)> {
    if '_' !in s then None
    else
      var i := FirstOf(s, '_');
      match (ParseInt(s[..i]), ParseInt(s[i + 1..]))
      case (Some(idx), Some(count)) => if count < 1 || idx < 1 || idx > count then None else Some((idx, count))
      case _ => None
  }

  /** What Decode has gathered so far. */
  datatype Scan = Scan(
    kind: Option<Kind>, version: Option<int>, id: string, parent: string, encName: string, owner: string,
    seg: Option<(int, int)>, size: Option<int>, segmentSize: Option<int>, human: seq<string>)

  const EMPTY: Scan := Scan(None, None, "", "", "", "", None, None, None, [])

  predicate IsVersionTag(tok: string) {
    |tok| > 1 && tok[0] == 'v' && AllDigits(tok[1..])
  }

  /** The tags Decode reads as fields; any other tag is a folder's. */
  predicate MachineShaped(tok: string) {
    || tok == MARKER || tok == "dir" || tok == "file" || IsVersionTag(tok)
    || "id_" <= tok || "pid_" <= tok || "n_" <= tok || "own_" <= tok
    || "seg_" <= tok || "sz_" <= tok || "ss_" <= tok
  }

  /** One turn of Decode's switch; None is a malformed tag. */
  function Step(a: Scan, tok: string): Option<Scan> {
    if tok == MARKER then Some(a)
    else if tok == "dir" then Some(a.(kind := Some(KindDir)))
    else if tok == "file" then Some(a.(kind := Some(KindFile)))
    else if IsVersionTag(tok) then
      match ParseInt(tok[1..])
      case None => None
      case Some(n) => Some(a.(version := Some(n)))
    else if "id_" <= tok then Some(a.(id := tok[3..]))
    else if "pid_" <= tok then Some(if tok[4..] == ROOT_PARENT then a else a.(parent := tok[4..]))
    else if "n_" <= tok then Some(a.(encName := tok[2..]))
    else if "own_" <= tok then Some(a.(owner := tok[4..]))
    else if "seg_" <= tok then
      match ParseSeg(tok[4..])
      case None => None
      case Some(seg) => Some(a.(seg := Some(seg)))
    else if "sz_" <= tok then
      match ParseInt(tok[3..])
      case None => None
      case Some(n) => Some(a.(size := Some(n)))
    else if "ss_" <= tok then
      match ParseInt(tok[3..])
      case None => None
      case Some(n) => Some(a.(segmentSize := Some(n)))
    else Some(a.(human := a.human + [tok]))
  }

  function ScanAll(a: Scan, tokens: seq<string>): Option<Scan>
    decreases |tokens|
  {
    if tokens == [] then Some(a)
    else
      match Step(a, tokens[0])
      case None => None
      case Some(b) => ScanAll(b, tokens[1..])
  }

  /** strings.TrimSpace. */
  function TrimSpace(s: string): string
    decreases |s|
  {
    if s == "" then ""
    else if IsSpace(s[0]) then TrimSpace(s[1..])
    else if IsSpace(s[|s| - 1]) then TrimSpace(s[..|s| - 1])
    else s
  }

  /** The name on the display line, for a record that lost its name tag. */
  function FallbackName(caption: string, kind: Kind): string {
    var line := TrimSpace(SplitOn(caption, '\n')[0]);
    var shown :=
      if kind == KindDir then
        var path := TrimSpace(if [FOLDER] <= line then line[1..] else line);
        path[Paths.LastSlash(path) + 1..]
      else line;
    if "#" <= shown then "" else shown
  }

  function DecodedName(a: Scan, caption: string, kind: Kind): Option<string> {
    if a.encName == "" then Some(FallbackName(caption, kind))
    else
      match Base32.DecodeString(a.encName)
      case None => None
      case Some(raw) => Decode(raw)
  }

  /** The checks after the scan, in their order. */
  function Finish(a: Scan, caption: string): Decoded {
    if a.version == None then Malformed
    else if a.version.value > VERSION then UnknownVersion
    else if a.kind == None || !ValidID(a.id) || (a.parent != "" && !ValidID(a.parent)) then Malformed
    else
      var owner := if ValidID(a.owner) then a.owner else "";
      var name := DecodedName(a, caption, a.kind.value);
      if name == None || name.value == "" then Malformed
      else if a.kind.value == KindFile
              && (a.seg == None || a.size == None || a.segmentSize == None || a.segmentSize.value <= 0 || a.size.value < 0)
      then Malformed
      else
        Ok(Record(a.kind.value, a.version.value, a.id, a.parent, name.value,
                  if a.seg == None then 0 else a.seg.value.0, if a.seg == None then 0 else a.seg.value.1,
                  if a.size == None then 0 else a.size.value, if a.segmentSize == None then 0 else a.segmentSize.value,
                  owner, if a.kind.value == KindFile then a.human else []))
  }

  function DecodeCaption(caption: string): Decoded {
    match TagTokens(caption)
    case None => NotTagged
    case Some(tokens) =>
      match ScanAll(EMPTY, tokens)
      case None => Malformed
      case Some(a) => Finish(a, caption)
  }

  /** Whatever a caption says, a record read from it is sound. */
  lemma DecodedSound(caption: string)
    requires DecodeCaption(caption).Ok?
    ensures var r := DecodeCaption(caption).rec;
            && ValidID(r.id) && (r.parent == "" || ValidID(r.parent)) && (r.owner == "" || ValidID(r.owner)) && r.name != ""
            && r.version <= VERSION && (r.kind == KindFile ==> r.totalSize >= 0 && r.segmentSize > 0)
  {
    hide ScanAll, TagTokens, DecodedName;
  }

  lemma IdHasNoSlash(id: string)
    requires ValidID(id)
    ensures id != "" && '/' !in id
  {
  }

  // ------------------------------------------------------------ tags and words

  /** A tag that survives being a word of its own. */
  predicate IsTag(tok: string) {
    tok != "" && forall c | c in tok :: !IsSpace(c)
  }

  lemma TagsOfWords(tokens: seq<string>)
    requires forall t | t in tokens :: IsTag(t)
    ensures forall w | w in Hashed(tokens) :: IsWord(w)
    ensures TagsOf(Hashed(tokens)) == tokens
    decreases |tokens|
  {
    if tokens != [] {
      var words := Hashed(tokens);
      assert words[0] == "#" + tokens[0] && words[0][1..] == tokens[0];
      assert words[1..] == Hashed(tokens[1..]);
      TagsOfWords(tokens[1..]);
      assert IsTag(tokens[0]);
      assert IsWord(words[0]);
      assert words == [words[0]] + words[1..];
    }
  }

  /** Reading a printed tag line gives the printed tags. */
  lemma LineTagsOfPrinted(tokens: seq<string>)
    requires forall t | t in tokens :: IsTag(t)
    ensures LineTags(Spaced(Hashed(tokens))) == tokens
    ensures tokens != [] && tokens[0] == MARKER ==> IsMarkerLine(Spaced(Hashed(tokens)))
  {
    TagsOfWords(tokens);
    FieldsOfSpaced(Hashed(tokens));
  }

  lemma NoNewline(tokens: seq<string>)
    requires forall t | t in tokens :: IsTag(t)
    ensures '\n' !in Spaced(Hashed(tokens))
  {
    TagsOfWords(tokens);
    forall w | w in Hashed(tokens) ensures '\n' !in w {
      assert IsSpace('\n');
      assert IsWord(w);
    }
    SpacedChars(Hashed(tokens), '\n');
  }

  lemma CaptionLines(display: string, line: string)
    requires '\n' !in display && '\n' !in line
    ensures SplitOn(display + "\n\n" + line, '\n') == [display, "", line]
  {
    assert display + "\n\n" + line == display + ['\n'] + ("" + ['\n'] + line);
    SplitFirst(display, '\n', "" + ['\n'] + line);
    SplitFirst("", '\n', line);
  }

  /** The tags of a caption are its tag line's, preceded by those of the display line
      when that line itself begins with the marker. */
  lemma CaptionTags(display: string, tokens: seq<string>)
    requires '\n' !in display
    requires tokens != [] && tokens[0] == MARKER && forall t | t in tokens :: IsTag(t)
    ensures var caption := display + "\n\n" + Spaced(Hashed(tokens));
            && SplitOn(caption, '\n')[0] == display
            && TagTokens(caption) == Some((if IsMarkerLine(display) then LineTags(display) else []) + tokens)
  {
    var line := Spaced(Hashed(tokens));
    NoNewline(tokens);
    CaptionLines(display, line);
    LineTagsOfPrinted(tokens);
    var lines := [display, "", line];
    assert lines[1..] == ["", line] && lines[1..][1..] == [line] && [line][1..] == [];
    assert Fields("") == [];
    assert AllTags([line]) == tokens + [] == tokens;
    assert AllTags(["", line]) == [] + tokens == tokens;
    assert AllTags(lines) == LineTags(display) + tokens;
    assert FromMarker([line]) == Some(tokens);
    assert FromMarker(["", line]) == Some(tokens);
  }

  // ------------------------------------------------------------ reading single tags

  lemma {:induction false} ScanAppend(a: Scan, s: seq<string>, t: seq<string>)
    ensures ScanAll(a, s + t) == match ScanAll(a, s) case None => None case Some(b) => ScanAll(b, t)
    decreases |s|
  {
    if s == [] {
      assert s + t == t;
    } else {
      assert (s + t)[1..] == s[1..] + t;
      match Step(a, s[0])
      case None =>
      case Some(b) => ScanAppend(b, s[1..], t);
    }
  }

  lemma ScanCons(a: Scan, tok: string, b: Scan, rest: seq<string>)
    requires Step(a, tok) == Some(b)
    ensures ScanAll(a, [tok] + rest) == ScanAll(b, rest)
  {
    assert ([tok] + rest)[1..] == rest;
  }

  lemma ParseItoa(n: nat)
    requires n <= MAX_INT64
    ensures ParseInt(Itoa(n)) == Some(n)
  {
    var s := Itoa(n);
    assert s[0] in s;
    ValueOfItoa(n);
  }

  lemma ParseSegPrinted(i: nat, n: nat)
    requires 1 <= i <= n <= MAX_INT64
    ensures ParseSeg(Itoa(i) + "_" + Itoa(n)) == Some((i, n))
  {
    var s := Itoa(i) + "_" + Itoa(n);
    assert s == Itoa(i) + ['_'] + Itoa(n);
    assert '_' !in Itoa(i) by { assert !IsDigit('_'); }
    assert s[..|Itoa(i)|] == Itoa(i) && s[|Itoa(i)| + 1..] == Itoa(n);
    FirstOfIs(s, '_', |Itoa(i)|, Itoa(i));
    ParseItoa(i);
    ParseItoa(n);
  }

  lemma StepVersion(a: Scan)
    ensures Step(a, "v" + Itoa(1)) == Some(a.(version := Some(1)))
  {
    var tok := "v" + Itoa(1);
    assert tok[1..] == Itoa(1);
    ParseItoa(1);
  }

  lemma StepId(a: Scan, id: string)
    ensures Step(a, "id_" + id) == Some(a.(id := id))
  {
    var tok := "id_" + id;
    assert tok[0] == 'i' && tok[..3] == "id_" && tok[3..] == id;
  }

  lemma StepParent(a: Scan, parent: string)
    requires parent == "" || ValidID(parent)
    ensures Step(a, "pid_" + OrRoot(parent)) == Some(if parent == "" then a else a.(parent := parent))
  {
    var tok := "pid_" + OrRoot(parent);
    assert tok[4..] == OrRoot(parent);
    assert |ROOT_PARENT| == 4;
  }

  lemma StepName(a: Scan, enc: string)
    ensures Step(a, "n_" + enc) == Some(a.(encName := enc))
  {
    var tok := "n_" + enc;
    assert tok[0] == 'n' && tok[..2] == "n_" && tok[2..] == enc;
  }

  lemma StepOwner(a: Scan, owner: string)
    ensures Step(a, "own_" + owner) == Some(a.(owner := owner))
  {
    var tok := "own_" + owner;
    assert tok[0] == 'o' && tok[..4] == "own_" && tok[4..] == owner;
  }

  lemma StepSegTag(a: Scan, s: string)
    requires ParseSeg(s).Some?
    ensures Step(a, "seg_" + s) == Some(a.(seg := ParseSeg(s)))
  {
    hide ParseSeg, ParseInt, AllDigits;
    var tok := "seg_" + s;
    assert tok[0] == 's' && tok[1] == 'e' && tok[..4] == "seg_" && tok[4..] == s;
  }

  lemma StepSeg(a: Scan, i: nat, n: nat)
    requires 1 <= i <= n <= MAX_INT64
    ensures Step(a, "seg_" + Itoa(i) + "_" + Itoa(n)) == Some(a.(seg := Some((i, n))))
  {
    hide Step, ParseSeg, Itoa;
    ParseSegPrinted(i, n);
    StepSegTag(a, Itoa(i) + "_" + Itoa(n));
    assert "seg_" + Itoa(i) + "_" + Itoa(n) == "seg_" + (Itoa(i) + "_" + Itoa(n));
  }

  lemma StepSize(a: Scan, n: nat)
    requires n <= MAX_INT64
    ensures Step(a, "sz_" + Itoa(n)) == Some(a.(size := Some(n)))
  {
    var tok := "sz_" + Itoa(n);
    assert tok[0] == 's' && tok[1] == 'z' && tok[2] == '_' && tok[..3] == "sz_" && tok[3..] == Itoa(n);
    ParseItoa(n);
  }

  lemma StepSegmentSize(a: Scan, n: nat)
    requires n <= MAX_INT64
    ensures Step(a, "ss_" + Itoa(n)) == Some(a.(segmentSize := Some(n)))
  {
    var tok := "ss_" + Itoa(n);
    assert tok[0] == 's' && tok[1] == 's' && tok[2] == '_' && tok[..3] == "ss_" && tok[3..] == Itoa(n);
    ParseItoa(n);
  }

  // ------------------------------------------------------------ reading the tag line

  /** What the machine tags of a directory leave in the scan, whatever came before. */
  function AfterDir(a: Scan, id: string, parent: string, name: string): Scan {
    a.(kind := Some(KindDir), version := Some(1), id := id, parent := if parent == "" then a.parent else parent,
       encName := Base32.EncodeToString(Encode(name)))
  }

  function AfterFile(a: Scan, r: Record): Scan {
    a.(kind := Some(KindFile), version := Some(1), id := r.id, parent := if r.parent == "" then a.parent else r.parent,
       encName := Base32.EncodeToString(Encode(r.name)),
       seg := Some((r.segIndex, r.segCount)), size := Some(r.totalSize), segmentSize := Some(r.segmentSize),
       owner := if r.owner == "" then a.owner else r.owner)
  }

  lemma ScanHead(a: Scan, kind: Kind, id: string, parent: string, enc: string, rest: seq<string>)
    requires parent == "" || ValidID(parent)
    ensures var word := if kind == KindDir then "dir" else "file";
            ScanAll(a, [MARKER, "v" + Itoa(1), word, "id_" + id, "pid_" + OrRoot(parent), "n_" + enc] + rest)
            == ScanAll(a.(kind := Some(kind), version := Some(1), id := id,
                          parent := if parent == "" then a.parent else parent, encName := enc), rest)
  {
    hide Step;
    var word := if kind == KindDir then "dir" else "file";
    var t1, t2, t3, t4, t5 := "v" + Itoa(1), word, "id_" + id, "pid_" + OrRoot(parent), "n_" + enc;
    var a1 := a.(version := Some(1));
    var a2 := a1.(kind := Some(kind));
    var a3 := a2.(id := id);
    var a4 := if parent == "" then a3 else a3.(parent := parent);
    var a5 := a4.(encName := enc);
    StepWords(a, a1, kind);
    StepVersion(a);
    StepId(a2, id);
    StepParent(a3, parent);
    StepName(a4, enc);
    assert [MARKER, t1, t2, t3, t4, t5] + rest == [MARKER] + ([t1] + ([t2] + ([t3] + ([t4] + ([t5] + rest)))));
    ScanCons(a, MARKER, a, [t1] + ([t2] + ([t3] + ([t4] + ([t5] + rest)))));
    ScanCons(a, t1, a1, [t2] + ([t3] + ([t4] + ([t5] + rest))));
    ScanCons(a1, t2, a2, [t3] + ([t4] + ([t5] + rest)));
    ScanCons(a2, t3, a3, [t4] + ([t5] + rest));
    ScanCons(a3, t4, a4, [t5] + rest);
    ScanCons(a4, t5, a5, rest);
  }

  lemma StepWords(a: Scan, b: Scan, kind: Kind)
    ensures Step(a, MARKER) == Some(a)
    ensures Step(b, if kind == KindDir then "dir" else "file") == Some(b.(kind := Some(kind)))
  {
  }

  lemma ScanDirTokens(a: Scan, id: string, parent: string, name: string)
    requires parent == "" || ValidID(parent)
    ensures ScanAll(a, DirTokens(id, parent, name)) == Some(AfterDir(a, id, parent, name))
  {
    hide Step;
    ScanHead(a, KindDir, id, parent, Base32.EncodeToString(Encode(name)), []);
    assert DirTokens(id, parent, name) + [] == DirTokens(id, parent, name);
  }

  lemma ScanFileTokens(a: Scan, r: Record, rest: seq<string>)
    requires ValidFile(r)
    ensures ScanAll(a, FileTokens(r) + rest) == ScanAll(AfterFile(a, r), rest)
  {
    hide Step;
    var enc := Base32.EncodeToString(Encode(r.name));
    var t1, t2, t3 := "seg_" + Itoa(r.segIndex) + "_" + Itoa(r.segCount), "sz_" + Itoa(r.totalSize), "ss_" + Itoa(r.segmentSize);
    var own := if r.owner == "" then [] else ["own_" + r.owner];
    var a0 := a.(kind := Some(KindFile), version := Some(1), id := r.id,
                 parent := if r.parent == "" then a.parent else r.parent, encName := enc);
    var a1 := a0.(seg := Some((r.segIndex, r.segCount)));
    var a2 := a1.(size := Some(r.totalSize));
    var a3 := a2.(segmentSize := Some(r.segmentSize));
    ScanHead(a, KindFile, r.id, r.parent, enc, [t1] + ([t2] + ([t3] + (own + rest))));
    assert FileTokens(r) + rest
        == [MARKER, "v" + Itoa(1), "file", "id_" + r.id, "pid_" + OrRoot(r.parent), "n_" + enc]
           + ([t1] + ([t2] + ([t3] + (own + rest))));
    StepSeg(a0, r.segIndex, r.segCount);
    StepSize(a1, r.totalSize);
    StepSegmentSize(a2, r.segmentSize);
    ScanCons(a0, t1, a1, [t2] + ([t3] + (own + rest)));
    ScanCons(a1, t2, a2, [t3] + (own + rest));
    ScanCons(a2, t3, a3, own + rest);
    if r.owner == "" {
      assert own + rest == rest;
    } else {
      StepOwner(a3, r.owner);
      ScanCons(a3, "own_" + r.owner, AfterFile(a, r), rest);
    }
  }

  /** The tags that are left to the folders. */
  function FolderTags(tokens: seq<string>): seq<string> {
    if tokens == [] then []
    else (if MachineShaped(tokens[0]) then [] else [tokens[0]]) + FolderTags(tokens[1..])
  }

  lemma {:induction false} FolderTagsShorter(tokens: seq<string>)
    ensures |FolderTags(tokens)| <= |tokens|
    ensures |FolderTags(tokens)| == |tokens| <==> forall t | t in tokens :: !MachineShaped(t)
    ensures (forall t | t in tokens :: !MachineShaped(t)) ==> FolderTags(tokens) == tokens
  {
    if tokens != [] {
      FolderTagsShorter(tokens[1..]);
      assert tokens == [tokens[0]] + tokens[1..];
      assert forall t | t in tokens[1..] :: t in tokens;
    }
  }

  /** Tags of no machine shape, and only those, reach the folder list. */
  lemma {:induction false} ScanFolders(a: Scan, tokens: seq<string>)
    ensures ScanAll(a, tokens).Some? ==> ScanAll(a, tokens).value.human == a.human + FolderTags(tokens)
    ensures (forall t | t in tokens :: !MachineShaped(t)) ==> ScanAll(a, tokens) == Some(a.(human := a.human + tokens))
    decreases |tokens|
  {
    if tokens == [] {
      assert a.human + [] == a.human;
    } else {
      StepHuman(a, tokens[0]);
      hide Step, MachineShaped;
      assert forall t | t in tokens[1..] :: t in tokens;
      match Step(a, tokens[0])
      case None =>
      case Some(b) =>
        ScanFolders(b, tokens[1..]);
        HumanMore(a.human, tokens, FolderTags(tokens[1..]));
    }
  }

  lemma HumanMore(human: seq<string>, tokens: seq<string>, rest: seq<string>)
    requires tokens != []
    ensures human + ([tokens[0]] + rest) == (human + [tokens[0]]) + rest && human + ([] + rest) == human + rest
    ensures (human + [tokens[0]]) + tokens[1..] == human + tokens
  {
    assert tokens == [tokens[0]] + tokens[1..];
    assert [] + rest == rest;
  }

  lemma StepHuman(a: Scan, tok: string)
    ensures !MachineShaped(tok) ==> Step(a, tok) == Some(a.(human := a.human + [tok]))
    ensures MachineShaped(tok) && Step(a, tok).Some? ==> Step(a, tok).value.human == a.human
  {
  }

  // ------------------------------------------------------------ the length budget

  /** A tag of the basic plane. */
  predicate IsPlainTag(tok: string) {
    tok != "" && forall c | c in tok :: !IsSpace(c) && c as int <= 0xFFFF
  }

  function LineLength(tokens: seq<string>): nat {
    if tokens == [] then 0 else |tokens[0]| + 2 + LineLength(tokens[1..])
  }

  lemma LineLengthCons(tok: string, rest: seq<string>)
    ensures LineLength([tok] + rest) == |tok| + 2 + LineLength(rest)
  {
    assert ([tok] + rest)[1..] == rest;
  }

  lemma {:induction false} PrintedLength(tokens: seq<string>)
    requires forall t | t in tokens :: IsPlainTag(t)
    ensures Utf16Len(Spaced(Hashed(tokens))) <= LineLength(tokens)
    decreases |tokens|
  {
    if tokens != [] {
      var words := Hashed(tokens);
      assert IsPlainTag(tokens[0]);
      assert words[0] == "#" + tokens[0];
      assert forall c | c in words[0] :: c as int <= 0xFFFF;
      Utf16Basic(words[0]);
      assert words[1..] == Hashed(tokens[1..]);
      PrintedLength(tokens[1..]);
      if |words| > 1 {
        Utf16Basic(" ");
        Utf16Append(words[0], " ");
        Utf16Append(words[0] + " ", Spaced(words[1..]));
      }
    }
  }

  lemma PlainIDTag(prefix: string, id: string)
    requires IsPlainTag(prefix) && ValidID(id)
    ensures IsPlainTag(prefix + id)
  {
  }

  lemma Pow10Of19()
    ensures Pow10(19) > MAX_INT64
  {
    assert Pow10(3) == 1000;
    assert Pow10(6) == 1000000;
    assert Pow10(9) == 1000000000;
    assert Pow10(12) == 1000000000000;
    assert Pow10(15) == 1000000000000000;
    assert Pow10(18) == 1000000000000000000;
  }

  lemma PlainNumberTag(prefix: string, n: nat)
    requires IsPlainTag(prefix) && n <= MAX_INT64
    ensures IsPlainTag(prefix + Itoa(n)) && |Itoa(n)| <= 19
  {
    Pow10Of19();
    ItoaLength(n, 19);
    assert AllDigits(Itoa(n));
  }

  lemma PlainNameTag(name: string)
    requires ValidName(name)
    ensures IsPlainTag("n_" + Base32.EncodeToString(Encode(name)))
    ensures 0 < |Base32.EncodeToString(Encode(name))| <= 408
  {
    Base32.EncodedIsWord(Encode(name));
    Base32.EncodedLength(Encode(name));
  }

  lemma PlainSegTag(i: nat, n: nat)
    requires i <= MAX_INT64 && n <= MAX_INT64
    ensures IsPlainTag("seg_" + Itoa(i) + "_" + Itoa(n)) && |"seg_" + Itoa(i) + "_" + Itoa(n)| <= 43
  {
    PlainNumberTag("seg_", i);
    PlainNumberTag("seg_" + Itoa(i) + "_", n);
  }

  lemma HeadTags(kind: Kind, id: string, parent: string, name: string)
    requires ValidID(id) && (parent == "" || ValidID(parent)) && ValidName(name)
    ensures var head := [MARKER, "v" + Itoa(1), if kind == KindDir then "dir" else "file", "id_" + id,
                         "pid_" + OrRoot(parent), "n_" + Base32.EncodeToString(Encode(name))];
            forall t | t in head :: IsPlainTag(t)
  {
    PlainNumberTag("v", 1);
    PlainIDTag("id_", id);
    if parent != "" { PlainIDTag("pid_", parent); }
    PlainNameTag(name);
  }

  lemma FileTags(r: Record)
    requires ValidFile(r)
    ensures forall t | t in FileTokens(r) :: IsPlainTag(t)
  {
    HeadTags(KindFile, r.id, r.parent, r.name);
    PlainSegTag(r.segIndex, r.segCount);
    PlainNumberTag("sz_", r.totalSize);
    PlainNumberTag("ss_", r.segmentSize);
    if r.owner != "" { PlainIDTag("own_", r.owner); }
  }

  lemma HeadLength(kind: Kind, id: string, parent: string, name: string, rest: seq<string>)
    requires ValidID(id) && (parent == "" || ValidID(parent)) && ValidName(name)
    ensures LineLength([MARKER, "v" + Itoa(1), if kind == KindDir then "dir" else "file", "id_" + id,
                        "pid_" + OrRoot(parent), "n_" + Base32.EncodeToString(Encode(name))] + rest)
            <= 494 + LineLength(rest)
  {
    PlainNameTag(name);
    var t1, t2 := "v" + Itoa(1), if kind == KindDir then "dir" else "file";
    var t3, t4, t5 := "id_" + id, "pid_" + OrRoot(parent), "n_" + Base32.EncodeToString(Encode(name));
    assert [MARKER, t1, t2, t3, t4, t5] + rest == [MARKER] + ([t1] + ([t2] + ([t3] + ([t4] + ([t5] + rest)))));
    LineLengthCons(MARKER, [t1] + ([t2] + ([t3] + ([t4] + ([t5] + rest)))));
    LineLengthCons(t1, [t2] + ([t3] + ([t4] + ([t5] + rest))));
    LineLengthCons(t2, [t3] + ([t4] + ([t5] + rest)));
    LineLengthCons(t3, [t4] + ([t5] + rest));
    LineLengthCons(t4, [t5] + rest);
    LineLengthCons(t5, rest);
    assert |OrRoot(parent)| <= 26;
  }

  /** The machine tags of any valid file record leave room for the longest name. */
  lemma FileTokensFit(r: Record)
    requires ValidFile(r)
    ensures Utf16Len(Spaced(Hashed(FileTokens(r)))) <= 621
  {
    FileTags(r);
    PrintedLength(FileTokens(r));
    PlainSegTag(r.segIndex, r.segCount);
    PlainNumberTag("sz_", r.totalSize);
    PlainNumberTag("ss_", r.segmentSize);
    var t1, t2, t3 := "seg_" + Itoa(r.segIndex) + "_" + Itoa(r.segCount), "sz_" + Itoa(r.totalSize), "ss_" + Itoa(r.segmentSize);
    var own := if r.owner == "" then [] else ["own_" + r.owner];
    var rest := [t1] + ([t2] + ([t3] + own));
    HeadLength(KindFile, r.id, r.parent, r.name, rest);
    assert FileTokens(r) ==
           [MARKER, "v" + Itoa(1), "file", "id_" + r.id, "pid_" + OrRoot(r.parent),
            "n_" + Base32.EncodeToString(Encode(r.name))] + rest;
    LineLengthCons(t1, [t2] + ([t3] + own));
    LineLengthCons(t2, [t3] + own);
    LineLengthCons(t3, own);
    if r.owner != "" {
      LineLengthCons("own_" + r.owner, []);
      assert own == ["own_" + r.owner] + [];
    }
  }

  lemma DirTokensFit(id: string, parent: string, name: string)
    requires ValidID(id) && (parent == "" || ValidID(parent)) && ValidName(name)
    ensures forall t | t in DirTokens(id, parent, name) :: IsPlainTag(t)
    ensures Utf16Len(Spaced(Hashed(DirTokens(id, parent, name)))) <= 494
  {
    HeadTags(KindDir, id, parent, name);
    HeadLength(KindDir, id, parent, name, []);
    assert DirTokens(id, parent, name) + [] == DirTokens(id, parent, name);
    PrintedLength(DirTokens(id, parent, name));
  }

  // ------------------------------------------------------------ assemble

  lemma BodyLength(display: string, machine: seq<string>)
    ensures Utf16Len(Body(display, machine, [])) == Utf16Len(display) + 2 + Utf16Len(Spaced(Hashed(machine)))
  {
    assert machine + [] == machine;
    assert display + "\n\n" + Spaced(Hashed(machine)) == display + ("\n\n" + Spaced(Hashed(machine)));
    Utf16Append(display, "\n\n" + Spaced(Hashed(machine)));
    Utf16Append("\n\n", Spaced(Hashed(machine)));
    Utf16Basic("\n\n");
  }

  /** assemble never exceeds the limit and never touches a machine tag: it drops folder
      tags from the end, each only because it did not fit, and shortens the display line
      only once no folder tag is left. */
  lemma {:induction false} AssembleWithin(display: string, machine: seq<string>, human: seq<string>)
    returns (shown: string, k: nat)
    requires Utf16Len(Spaced(Hashed(machine))) <= MAX_CAPTION_UNITS
    ensures var caption := Assemble(display, machine, human);
            && caption.Some? && Utf16Len(caption.value) <= MAX_CAPTION_UNITS
            && shown <= display && k <= |human|
            && (caption.value == Body(shown, machine, human[..k])
                || (k == 0 && caption.value == Spaced(Hashed(machine)) && Utf16Len(caption.value) >= MAX_CAPTION_UNITS - 2))
            && (k > 0 ==> shown == display)
            && (k < |human| ==> Utf16Len(Body(display, machine, human[..k + 1])) > MAX_CAPTION_UNITS)
    decreases |human|
  {
    if Utf16Len(Body(display, machine, human)) <= MAX_CAPTION_UNITS {
      shown, k := display, |human|;
      assert human[..k] == human;
    } else if human != [] {
      var front := human[..|human| - 1];
      shown, k := AssembleWithin(display, machine, front);
      assert front[..k] == human[..k];
      if k < |front| {
        assert front[..k + 1] == human[..k + 1];
      } else {
        assert human[..k + 1] == human;
      }
    } else {
      k := 0;
      var budget: int := MAX_CAPTION_UNITS - Utf16Len(Spaced(Hashed(machine))) - 2;
      if budget <= 0 {
        shown := "";
      } else {
        shown := TruncateUtf16(display, budget);
        BodyLength(shown, machine);
        assert human[..0] == [];
      }
    }
  }

  /** The folder tags that fit beside a whole display line. */
  function Fitting(display: string, machine: seq<string>, human: seq<string>): (kept: seq<string>)
    ensures kept <= human
  {
    if human == [] || Utf16Len(Body(display, machine, human)) <= MAX_CAPTION_UNITS then human
    else Fitting(display, machine, human[..|human| - 1])
  }

  lemma {:induction false} AssembleWhole(display: string, machine: seq<string>, human: seq<string>)
    requires Utf16Len(Body(display, machine, [])) <= MAX_CAPTION_UNITS
    ensures Assemble(display, machine, human) == Some(Body(display, machine, Fitting(display, machine, human)))
    decreases |human|
  {
    BodyLength(display, machine);
    if human != [] && Utf16Len(Body(display, machine, human)) > MAX_CAPTION_UNITS {
      AssembleWhole(display, machine, human[..|human| - 1]);
    }
  }

  // ------------------------------------------------------------ round trips

  lemma NameSurvives(a: Scan, caption: string, kind: Kind, name: string)
    requires ValidName(name) && a.encName == Base32.EncodeToString(Encode(name))
    ensures DecodedName(a, caption, kind) == Some(name)
  {
    PlainNameTag(name);
    Base32.DecodeEncoded(Encode(name));
    DecodeEncode(name);
  }

  lemma {:induction false} FieldKeepsStart(word: string, s: string)
    requires word != ""
    ensures FieldsFrom(word, s) != [] && word <= FieldsFrom(word, s)[0]
    decreases |s|
  {
    if s != "" && !IsSpace(s[0]) {
      FieldKeepsStart(word + [s[0]], s[1..]);
      assert word <= word + [s[0]];
    }
  }

  /** A directory's display line never passes for a tag line. */
  lemma FolderLineIsNoMarker(shown: string)
    requires shown != "" && shown[0] == FOLDER
    ensures !IsMarkerLine(shown)
  {
    FieldKeepsStart([FOLDER], shown[1..]);
    assert "" + [shown[0]] == [FOLDER];
    assert Fields(shown)[0][0] == FOLDER;
  }

  lemma TruncateStart(s: string, limit: nat)
    requires s != "" && limit >= 2
    ensures TruncateUtf16(s, limit) != "" && TruncateUtf16(s, limit)[0] == s[0]
  {
  }

  lemma DirShown(id: string, parent: string, name: string, path: string) returns (shown: string)
    requires ValidID(id) && (parent == "" || ValidID(parent)) && ValidName(name)
    ensures EncodeDir(id, parent, name, path) == Some(Body(shown, DirTokens(id, parent, name), []))
    ensures shown <= DirDisplay(path) && shown != "" && shown[0] == FOLDER
  {
    var display, tokens := DirDisplay(path), DirTokens(id, parent, name);
    DirTokensFit(id, parent, name);
    if Utf16Len(Body(display, tokens, [])) <= MAX_CAPTION_UNITS {
      shown := display;
    } else {
      var budget: int := MAX_CAPTION_UNITS - Utf16Len(Spaced(Hashed(tokens))) - 2;
      shown := TruncateUtf16(display, budget);
      TruncateStart(display, budget);
    }
  }

  /** Every directory record survives its caption, however long its displayed path. */
  lemma DirRoundTrip(id: string, parent: string, name: string, path: string)
    requires ValidID(id) && (parent == "" || ValidID(parent)) && ValidName(name) && '\n' !in path
    ensures EncodeDir(id, parent, name, path).Some?
    ensures DecodeCaption(EncodeDir(id, parent, name, path).value)
            == Ok(Record(KindDir, VERSION, id, parent, name, 0, 0, 0, 0, "", []))
  {
    assert AfterDir(EMPTY, id, parent, name).encName == Base32.EncodeToString(Encode(name));
    hide *;
    var tokens := DirTokens(id, parent, name);
    var shown := DirShown(id, parent, name, path);
    DirTags(id, parent, name);
    ShownLine(shown, path);
    CaptionTags(shown, tokens);
    ScanDirTokens(EMPTY, id, parent, name);
    NameSurvives(AfterDir(EMPTY, id, parent, name), Body(shown, tokens, []), KindDir, name);
    DirReads(Body(shown, tokens, []), shown, tokens, id, parent, name);
  }

  lemma ShownLine(shown: string, path: string)
    requires shown <= DirDisplay(path) && '\n' !in path && shown != "" && shown[0] == FOLDER
    ensures '\n' !in shown && !IsMarkerLine(shown)
  {
    assert forall k | 0 <= k < |shown| :: shown[k] == DirDisplay(path)[k];
    FolderLineIsNoMarker(shown);
  }

  lemma DirReads(caption: string, shown: string, tokens: seq<string>, id: string, parent: string, name: string)
    requires ValidID(id) && (parent == "" || ValidID(parent)) && ValidName(name) && !IsMarkerLine(shown)
    requires caption == Body(shown, tokens, [])
    requires TagTokens(shown + "\n\n" + Spaced(Hashed(tokens))) == Some((if IsMarkerLine(shown) then LineTags(shown) else []) + tokens)
    requires ScanAll(EMPTY, tokens) == Some(AfterDir(EMPTY, id, parent, name))
    requires DecodedName(AfterDir(EMPTY, id, parent, name), caption, KindDir) == Some(name)
    ensures DecodeCaption(caption) == Ok(Record(KindDir, VERSION, id, parent, name, 0, 0, 0, 0, "", []))
  {
    assert tokens + [] == tokens && [] + tokens == tokens && name != "";
    hide TagTokens, ScanAll, DecodedName, ValidID, ValidName, IsMarkerLine, LineTags, Hashed, Spaced;
  }

  lemma DirTags(id: string, parent: string, name: string)
    requires ValidID(id) && (parent == "" || ValidID(parent)) && ValidName(name)
    ensures var tokens := DirTokens(id, parent, name); tokens != [] && tokens[0] == MARKER && forall t | t in tokens :: IsTag(t)
  {
    HeadTags(KindDir, id, parent, name);
    forall t | t in DirTokens(id, parent, name) ensures IsTag(t) { assert IsPlainTag(t); }
  }

  // ------------------------------------------------------------ what a tag may say

  const CROCKFORD: set<char> :=
    {'0', '1', '2', '3', '4', '5', '6', '7', '8', '9', 'A', 'B', 'C', 'D', 'E', 'F', 'G', 'H', 'J', 'K', 'M', 'N',
     'P', 'Q', 'R', 'S', 'T', 'V', 'W', 'X', 'Y', 'Z'}

  lemma IdsAre(id: string)
    ensures ValidID(id) <==> |id| == 26 && forall c | c in id :: c in CROCKFORD
  {
    assert forall c: char :: IsCrockford(c) <==> c in CROCKFORD;
  }

  /** A number is digits with at most one sign in front, and fits 64 bits. */
  lemma NumbersRead(d: string)
    requires d != "" && AllDigits(d)
    ensures ParseInt(d) == if ValueOf(d) < 0x8000_0000_0000_0000 then Some(ValueOf(d)) else None
    ensures ParseInt("+" + d) == ParseInt(d)
    ensures ParseInt("-" + d) == if ValueOf(d) <= 0x8000_0000_0000_0000 then Some(-(ValueOf(d) as int)) else None
  {
    assert IsDigit(d[0]);
    assert ("+" + d)[1..] == d && ("-" + d)[1..] == d;
  }

  lemma OnlyNumbersRead(s: string)
    requires ParseInt(s).Some?
    ensures exists d :: d != "" && AllDigits(d) && (s == d || s == "+" + d || s == "-" + d)
  {
    var d := if s[0] == '+' || s[0] == '-' then s[1..] else s;
    assert AllDigits(d) && (s == d || s == [s[0]] + d);
  }

  /** A segment tag is two numbers, the first within the second. */
  lemma SegmentsRead(s: string, idx: int, count: int)
    ensures ParseSeg(s) == Some((idx, count)) <==>
            1 <= idx <= count && exists k: nat :: k < |s| && s[k] == '_' && '_' !in s[..k]
                                                  && ParseInt(s[..k]) == Some(idx) && ParseInt(s[k + 1..]) == Some(count)
  {
    hide ParseInt;
    if '_' in s {
      var i := FirstOf(s, '_');
      assert '_' !in s[..i];
      forall k: nat | k < |s| && s[k] == '_' && '_' !in s[..k] ensures k == i { FirstOfIs(s, '_', k, s[..k]); }
    }
  }

  /** The tags of a line are its words behind a hash. */
  lemma TagsAreHashed(line: string, t: string)
    ensures t in LineTags(line) <==> t != "" && "#" + t in Fields(line)
  {
    HashedWords(Fields(line), t);
  }

  lemma {:induction false} HashedWords(fields: seq<string>, t: string)
    ensures t in TagsOf(fields) <==> t != "" && "#" + t in fields
  {
    if fields != [] {
      HashedWords(fields[1..], t);
      var f := fields[0];
      assert fields == [f] + fields[1..];
      if |f| > 1 && f[0] == '#' {
        assert f == "#" + f[1..];
        assert ("#" + t)[1..] == t;
      } else if f == "#" + t {
        assert f[0] == '#' && |f| == 1 + |t|;
      }
    }
  }

  /** The encoders refuse exactly what the format cannot hold. */
  lemma EncodersRefuse(cls: CharClasses, r: Record, id: string, parent: string, name: string, path: string)
    ensures EncodeDir(id, parent, name, path).Some? <==> ValidID(id) && (parent == "" || ValidID(parent)) && ValidName(name)
    ensures EncodeFile(cls, r).Some? <==> ValidFile(r)
    ensures name == "" || '\n' in name || '\r' in name || '/' in name || |Encode(name)| > 255 ==> EncodeDir(id, parent, name, path).None?
  {
    if ValidID(id) && (parent == "" || ValidID(parent)) && ValidName(name) {
      DirTokensFit(id, parent, name);
      var _, _ := AssembleWithin(DirDisplay(path), DirTokens(id, parent, name), []);
    }
    if ValidFile(r) { FileEncodes(cls, r); }
    hide ValidID, Assemble;
  }

  // ------------------------------------------------------------ the display line

  /** TrimSpace cuts the spaces at both ends and nothing else. */
  lemma {:induction false} TrimmedForm(s: string) returns (a: nat, b: nat)
    ensures a <= b <= |s| && TrimSpace(s) == s[a..b]
    ensures (forall k | 0 <= k < a || b <= k < |s| :: IsSpace(s[k]))
    ensures a < b ==> !IsSpace(s[a]) && !IsSpace(s[b - 1])
    decreases |s|
  {
    if s == "" {
      a, b := 0, 0;
    } else if IsSpace(s[0]) {
      a, b := TrimmedForm(s[1..]);
      assert s[1..][a..b] == s[a + 1..b + 1];
      forall k | 0 <= k < a + 1 || b + 1 <= k < |s| ensures IsSpace(s[k]) {
        if k > 0 { assert s[k] == s[1..][k - 1]; }
      }
      a, b := a + 1, b + 1;
    } else if IsSpace(s[|s| - 1]) {
      a, b := TrimmedForm(s[..|s| - 1]);
      assert s[..|s| - 1][a..b] == s[a..b];
      forall k | 0 <= k < a || b <= k < |s| ensures IsSpace(s[k]) {
        if k < |s| - 1 { assert s[k] == s[..|s| - 1][k]; }
      }
    } else {
      a, b := 0, |s|;
      assert s[0..|s|] == s;
    }
  }

  predicate IsTrimmed(s: string) {
    s != "" && !IsSpace(s[0]) && !IsSpace(s[|s| - 1])
  }

  lemma TrimKeeps(s: string)
    requires IsTrimmed(s)
    ensures TrimSpace(s) == s && TrimSpace(" " + s) == s
  {
    assert IsSpace(' ') && (" " + s)[1..] == s;
  }

  lemma ShownFolder(parent: string, name: string, rest: string)
    requires parent != "" && !IsSpace(parent[0]) && Paths.PlainName(name) && IsTrimmed(name) && name[0] != '#'
    requires '\n' !in parent && '\n' !in name
    ensures FallbackName(DirDisplay(Paths.Join(parent, name)) + "\n\n" + rest, KindDir) == name
  {
    hide TrimSpace, SplitOn;
    var path := Paths.Join(parent, name);
    var line := DirDisplay(path);
    assert !IsSpace(FOLDER) && IsTrimmed(path) && IsTrimmed(line) && '\n' !in line;
    assert line + "\n\n" + rest == line + ['\n'] + ("\n" + rest);
    SplitFirst(line, '\n', "\n" + rest);
    TrimKeeps(line);
    TrimKeeps(path);
    assert [FOLDER] <= line && line[1..] == " " + path;
    Paths.LastComponent(parent, name);
  }

  lemma ShownFile(name: string, rest: string)
    requires IsTrimmed(name) && name[0] != '#' && '\n' !in name
    ensures FallbackName(name + "\n\n" + rest, KindFile) == name
  {
    assert name + "\n\n" + rest == name + ['\n'] + ("\n" + rest);
    SplitFirst(name, '\n', "\n" + rest);
  }

  /** The first line of a directory's caption shows its path, and the name it falls back to is
      the directory's. */
  lemma DirDisplayTells(id: string, parentId: string, parent: string, name: string)
    requires ValidID(id) && (parentId == "" || ValidID(parentId)) && ValidName(name)
    requires parent != "" && !IsSpace(parent[0]) && '\n' !in parent && IsTrimmed(name) && name[0] != '#'
    requires Utf16Len(Body(DirDisplay(Paths.Join(parent, name)), DirTokens(id, parentId, name), [])) <= MAX_CAPTION_UNITS
    ensures var caption := EncodeDir(id, parentId, name, Paths.Join(parent, name));
            && caption.Some? && SplitOn(caption.value, '\n')[0] == [FOLDER, ' '] + Paths.Join(parent, name)
            && FallbackName(caption.value, KindDir) == name
  {
    var path, tokens := Paths.Join(parent, name), DirTokens(id, parentId, name);
    hide FallbackName, TrimSpace;
    DirTokensFit(id, parentId, name);
    ShownFolder(parent, name, Spaced(Hashed(tokens)));
    assert tokens + [] == tokens;
    assert '\n' !in path && DirDisplay(path) == [FOLDER, ' '] + path;
    hide Hashed, Spaced, DirTokens, ValidName, ValidID, SplitOn, Utf16Len, IsTrimmed;
    var line := DirDisplay(path);
    assert Body(line, tokens, []) == line + ['\n'] + ("\n" + Spaced(Hashed(tokens)));
    SplitFirst(line, '\n', "\n" + Spaced(Hashed(tokens)));
  }

  /** A directory's caption that has lost its name tag still tells the whole record. */
  lemma NamelessDirReads(id: string, parentId: string, parent: string, name: string)
    requires ValidID(id) && (parentId == "" || ValidID(parentId)) && ValidName(name)
    requires parent != "" && !IsSpace(parent[0]) && '\n' !in parent && IsTrimmed(name) && name[0] != '#'
    ensures DecodeCaption(Body(DirDisplay(Paths.Join(parent, name)), Nameless(id, parentId), []))
            == Ok(Record(KindDir, VERSION, id, parentId, name, 0, 0, 0, 0, "", []))
  {
    hide FallbackName, TagTokens, ScanAll, Nameless, SplitOn, TrimSpace, IsTag, Fields;
    var display, tokens := DirDisplay(Paths.Join(parent, name)), Nameless(id, parentId);
    FolderLineIsNoMarker(display);
    NamelessTags(id, parentId);
    CaptionTags(display, tokens);
    assert tokens + [] == tokens && [] + tokens == tokens;
    ShownFolder(parent, name, Spaced(Hashed(tokens)));
    ScanNameless(id, parentId);
    hide ValidName, DirDisplay, ValidID, IsTrimmed;
  }

  lemma NamelessTags(id: string, parent: string)
    requires ValidID(id) && (parent == "" || ValidID(parent))
    ensures var tokens := Nameless(id, parent); tokens != [] && tokens[0] == MARKER && forall t | t in tokens :: IsTag(t)
  {
    HeadTags(KindDir, id, parent, "x");
    forall t | t in Nameless(id, parent) ensures IsTag(t) {
      assert t in DirTokens(id, parent, "x");
      assert IsPlainTag(t);
    }
  }

  function Nameless(id: string, parent: string): seq<string> {
    DirTokens(id, parent, "")[..5]
  }

  lemma ScanNameless(id: string, parent: string)
    requires parent == "" || ValidID(parent)
    ensures ScanAll(EMPTY, Nameless(id, parent))
            == Some(EMPTY.(version := Some(1), kind := Some(KindDir), id := id, parent := parent))
  {
    var a1 := EMPTY.(version := Some(1));
    var a2 := a1.(kind := Some(KindDir));
    var a3 := a2.(id := id);
    var a4 := a3.(parent := parent);
    var t1, t2, t3, t4 := "v" + Itoa(1), "dir", "id_" + id, "pid_" + OrRoot(parent);
    StepWords(EMPTY, a1, KindDir);
    StepVersion(EMPTY);
    StepId(a2, id);
    StepParent(a3, parent);
    hide Step;
    assert Nameless(id, parent) == [MARKER] + ([t1] + ([t2] + ([t3] + ([t4] + []))));
    ScanCons(EMPTY, MARKER, EMPTY, [t1] + ([t2] + ([t3] + ([t4] + []))));
    ScanCons(EMPTY, t1, a1, [t2] + ([t3] + ([t4] + [])));
    ScanCons(a1, t2, a2, [t3] + ([t4] + []));
    ScanCons(a2, t3, a3, [t4] + []);
    ScanCons(a3, t4, a4, []);
  }

  /** And a file's shows its name. */
  lemma FileDisplayTells(cls: CharClasses, r: Record)
    requires ValidFile(r) && IsTrimmed(r.name) && r.name[0] != '#'
    ensures EncodeFile(cls, r).Some? && SplitOn(EncodeFile(cls, r).value, '\n')[0] == r.name
    ensures FallbackName(EncodeFile(cls, r).value, KindFile) == r.name
  {
    FileEncodes(cls, r);
    var rest := Spaced(Hashed(FileTokens(r) + KeptTags(cls, r)));
    ShownFile(r.name, rest);
    assert FileBody(cls, r) == r.name + ['\n'] + ("\n" + rest);
    SplitFirst(r.name, '\n', "\n" + rest);
    hide FallbackName, TrimSpace, EncodeFile;
  }

  /** The folder tags that a file's caption carries. */
  function KeptTags(cls: CharClasses, r: Record): seq<string>
    requires ValidFile(r)
  {
    Fitting(r.name, FileTokens(r), CollectTags(cls, r.humanTags, []))
  }

  function FileBody(cls: CharClasses, r: Record): string
    requires ValidFile(r)
  {
    Body(r.name, FileTokens(r), KeptTags(cls, r))
  }

  /** Encoding a valid file record never fails and never shortens its display line. */
  lemma FileEncodes(cls: CharClasses, r: Record)
    requires ValidFile(r)
    ensures EncodeFile(cls, r) == Some(FileBody(cls, r))
  {
    FileTokensFit(r);
    Utf16AtMostUtf8(r.name);
    BodyLength(r.name, FileTokens(r));
    AssembleWhole(r.name, FileTokens(r), CollectTags(cls, r.humanTags, []));
  }

  lemma {:induction false} SanitizedIsTag(cls: CharClasses, name: string)
    requires Sane(cls)
    ensures forall c | c in KeepTagChars(cls, name) :: !IsSpace(c)
    ensures SanitizeTag(cls, name) != "" ==> IsTag(SanitizeTag(cls, name))
  {
    if name != "" { SanitizedIsTag(cls, name[1..]); }
  }

  /** The collected tags are tags, differ, are at most five, and each is the sanitised
      form of a folder name. */
  lemma {:induction false} CollectedTags(cls: CharClasses, names: seq<string>, human: seq<string>)
    requires Sane(cls) && (forall t | t in human :: IsTag(t)) && |human| <= MAX_HUMAN_TAGS
    requires forall i, j | 0 <= i < j < |human| :: human[i] != human[j]
    ensures var tags := CollectTags(cls, names, human);
            && human <= tags && |tags| <= MAX_HUMAN_TAGS
            && (forall t | t in tags :: IsTag(t))
            && (forall i, j | 0 <= i < j < |tags| :: tags[i] != tags[j])
            && (forall t | t in tags :: t in human || exists n :: n in names && t == SanitizeTag(cls, n))
    decreases |names|
  {
    if names != [] && |human| < MAX_HUMAN_TAGS {
      SanitizedIsTag(cls, names[0]);
      var t := SanitizeTag(cls, names[0]);
      CollectedTags(cls, names[1..], if t == "" || t in human then human else human + [t]);
      forall u | u in CollectTags(cls, names, human) && u !in human ensures exists n :: n in names && u == SanitizeTag(cls, n) {
        if u == t { assert names[0] in names; } else {
          var n :| n in names[1..] && u == SanitizeTag(cls, n);
          assert n in names;
        }
      }
    }
  }

  /** Which folders the tags come from: first.. are the places of their first occurrence. */
  predicate ComesFrom(cls: CharClasses, names: seq<string>, tags: seq<string>, first: seq<nat>) {
    && |first| == |tags|
    && (forall k | 0 <= k < |tags| :: first[k] < |names| && SanitizeTag(cls, names[first[k]]) == tags[k] != "")
    && (forall k, j | 0 <= k < |tags| && 0 <= j < first[k] :: SanitizeTag(cls, names[j]) != tags[k])
    && (forall i, j | 0 <= i < j < |tags| :: first[i] < first[j])
  }

  /** None of the first i folders is missing, before the fifth tag. */
  predicate NoneMissing(cls: CharClasses, names: seq<string>, i: nat, tags: seq<string>, first: seq<nat>)
    requires |first| == |tags| && i <= |names|
  {
    forall n: nat | n < i && (|tags| < MAX_HUMAN_TAGS || n < first[MAX_HUMAN_TAGS - 1]) ::
      SanitizeTag(cls, names[n]) == "" || SanitizeTag(cls, names[n]) in tags
  }

  /** The tags are the sanitised folder names in the order of their first occurrence, and
      none is missing before the fifth. */
  lemma CollectedInOrder(cls: CharClasses, names: seq<string>) returns (first: seq<nat>)
    ensures ComesFrom(cls, names, CollectTags(cls, names, []), first)
    ensures NoneMissing(cls, names, |names|, CollectTags(cls, names, []), first)
  {
    assert names[0..] == names;
    first := CollectRest(cls, names, 0, [], []);
  }

  lemma OneMoreTag(cls: CharClasses, names: seq<string>, i: nat, tags: seq<string>, first: seq<nat>, t: string)
    requires i < |names| && |tags| < MAX_HUMAN_TAGS && ComesFrom(cls, names, tags, first) && NoneMissing(cls, names, i, tags, first)
    requires (forall k | 0 <= k < |first| :: first[k] < i) && t == SanitizeTag(cls, names[i]) && t != "" && t !in tags
    ensures ComesFrom(cls, names, tags + [t], first + [i]) && NoneMissing(cls, names, i + 1, tags + [t], first + [i])
  {
    hide SanitizeTag;
    forall j | 0 <= j < i ensures SanitizeTag(cls, names[j]) != t {}
    assert forall u | u in tags :: u in tags + [t];
  }

  lemma {:induction false} CollectRest(cls: CharClasses, names: seq<string>, i: nat, human: seq<string>, sofar: seq<nat>)
    returns (first: seq<nat>)
    requires i <= |names| && |human| <= MAX_HUMAN_TAGS && ComesFrom(cls, names, human, sofar)
    requires NoneMissing(cls, names, i, human, sofar) && forall k | 0 <= k < |sofar| :: sofar[k] < i
    ensures ComesFrom(cls, names, CollectTags(cls, names[i..], human), first)
    ensures NoneMissing(cls, names, |names|, CollectTags(cls, names[i..], human), first)
    decreases |names| - i
  {
    if i == |names| || |human| == MAX_HUMAN_TAGS {
      first := sofar;
      AllSeen(cls, names, i, human, sofar);
    } else {
      assert names[i..][1..] == names[i + 1..] && names[i..][0] == names[i];
      var t := SanitizeTag(cls, names[i]);
      if t == "" || t in human {
        first := CollectRest(cls, names, i + 1, human, sofar);
      } else {
        OneMoreTag(cls, names, i, human, sofar, t);
        hide ComesFrom, NoneMissing;
        first := CollectRest(cls, names, i + 1, human + [t], sofar + [i]);
      }
      hide SanitizeTag, ComesFrom;
    }
  }

  lemma AllSeen(cls: CharClasses, names: seq<string>, i: nat, human: seq<string>, sofar: seq<nat>)
    requires i <= |names| && ComesFrom(cls, names, human, sofar) && NoneMissing(cls, names, i, human, sofar)
    requires forall k | 0 <= k < |sofar| :: sofar[k] < i
    requires i == |names| || |human| == MAX_HUMAN_TAGS
    ensures NoneMissing(cls, names, |names|, human, sofar)
  {
    hide SanitizeTag;
  }

  /** What makes a folder name a tag: other characters are dropped, and digits alone get an
      underscore in front. */
  lemma SanitizedForm(cls: CharClasses, name: string)
    ensures SanitizeTag(cls, name) == "" <==> forall c | c in name :: !cls.letter(c) && !cls.digit(c) && c != '_'
    ensures name != "" && (forall c | c in name :: cls.letter(c) || cls.digit(c) || c == '_') ==>
              SanitizeTag(cls, name) == if forall c | c in name :: cls.digit(c) && !cls.letter(c) then "_" + name else name
    ensures forall k | 0 <= k < |name| && !cls.letter(name[k]) && !cls.digit(name[k]) && name[k] != '_' ::
              SanitizeTag(cls, name) == SanitizeTag(cls, name[..k] + name[k + 1..])
  {
    hide KeepTagChars;
    KeptChars(cls, name);
    forall k | 0 <= k < |name| && !cls.letter(name[k]) && !cls.digit(name[k]) && name[k] != '_'
      ensures SanitizeTag(cls, name) == SanitizeTag(cls, name[..k] + name[k + 1..])
    {
      DroppedChar(cls, name, k);
    }
  }

  lemma {:induction false} KeptChars(cls: CharClasses, name: string)
    ensures KeepTagChars(cls, name) == "" <==> forall c | c in name :: !cls.letter(c) && !cls.digit(c) && c != '_'
    ensures (forall c | c in name :: cls.letter(c) || cls.digit(c) || c == '_') ==> KeepTagChars(cls, name) == name
  {
    if name != "" {
      KeptChars(cls, name[1..]);
      assert name == [name[0]] + name[1..];
      assert name[0] in name && forall c | c in name[1..] :: c in name;
    }
  }

  lemma {:induction false} DroppedChar(cls: CharClasses, name: string, k: nat)
    requires k < |name| && !cls.letter(name[k]) && !cls.digit(name[k]) && name[k] != '_'
    ensures KeepTagChars(cls, name) == KeepTagChars(cls, name[..k] + name[k + 1..])
  {
    if k == 0 {
      assert name[..0] + name[1..] == name[1..];
    } else {
      DroppedChar(cls, name[1..], k - 1);
      assert (name[..k] + name[k + 1..])[1..] == name[1..][..k - 1] + name[1..][k..];
    }
  }

  /** A name whose own first word is the marker turns the display line into tags. They
      do no harm exactly when, read alone, they parse, name no folder, and set no parent
      or owner that the record's own tags would leave standing. */
  predicate HarmlessDisplay(r: Record) {
    IsMarkerLine(r.name) ==>
      match ScanAll(EMPTY, LineTags(r.name))
      case None => false
      case Some(a) => a.human == [] && (r.parent == "" ==> a.parent == "") && (r.owner == "" ==> !ValidID(a.owner))
  }

  /** What reading a file caption should give back. */
  function Written(cls: CharClasses, r: Record): Record
    requires ValidFile(r)
  {
    r.(kind := KindFile, version := VERSION, humanTags := KeptTags(cls, r))
  }

  lemma {:induction false} FolderTagsAppend(s: seq<string>, t: seq<string>)
    ensures FolderTags(s + t) == FolderTags(s) + FolderTags(t)
  {
    if s == [] {
      assert s + t == t;
    } else {
      assert (s + t)[1..] == s[1..] + t;
      FolderTagsAppend(s[1..], t);
    }
  }

  lemma {:induction false} FolderTagsAreFolders(tokens: seq<string>)
    ensures forall t | t in FolderTags(tokens) :: !MachineShaped(t)
  {
    if tokens != [] { FolderTagsAreFolders(tokens[1..]); }
  }

  /** Tags in front can only be added to the folder list, never compensated. */
  lemma {:induction false} NothingInFront(front: seq<string>, kept: seq<string>)
    requires forall t | t in front :: !MachineShaped(t)
    requires front + FolderTags(kept) == kept
    ensures front == []
    decreases |kept|
  {
    if front != [] {
      var rest := FolderTags(kept);
      assert kept == front + rest;
      FolderTagsAppend(front, rest);
      FolderTagsShorter(front);
      assert front + FolderTags(rest) == rest;
      NothingInFront(front, rest);
    }
  }

  /** When everything fits, the caption of a file carries them all, after its own tags. */
  lemma FileCarriesFolders(cls: CharClasses, r: Record) returns (first: seq<nat>)
    requires ValidFile(r) && Sane(cls)
    requires Utf16Len(Body(r.name, FileTokens(r), CollectTags(cls, r.humanTags, []))) <= MAX_CAPTION_UNITS
    ensures var tags := KeptTags(cls, r);
            && EncodeFile(cls, r) == Some(Body(r.name, FileTokens(r), tags))
            && TagTokens(FileBody(cls, r)) == Some((if IsMarkerLine(r.name) then LineTags(r.name) else []) + (FileTokens(r) + tags))
            && ComesFrom(cls, r.humanTags, tags, first)
            && NoneMissing(cls, r.humanTags, |r.humanTags|, tags, first)
  {
    first := CollectedInOrder(cls, r.humanTags);
    FileEncodes(cls, r);
    FileCaptionTags(cls, r);
    assert KeptTags(cls, r) == CollectTags(cls, r.humanTags, []);
    hide *;
  }

  lemma FileCaptionTags(cls: CharClasses, r: Record)
    requires ValidFile(r) && Sane(cls)
    ensures TagTokens(FileBody(cls, r))
            == Some((if IsMarkerLine(r.name) then LineTags(r.name) else []) + (FileTokens(r) + KeptTags(cls, r)))
  {
    var tokens := FileTokens(r) + KeptTags(cls, r);
    FileTags(r);
    CollectedTags(cls, r.humanTags, []);
    forall t | t in tokens ensures IsTag(t) {
      if t in FileTokens(r) {
        assert IsPlainTag(t);
      } else {
        var k :| 0 <= k < |KeptTags(cls, r)| && KeptTags(cls, r)[k] == t;
        assert CollectTags(cls, r.humanTags, [])[k] == t;
      }
    }
    CaptionTags(r.name, tokens);
  }

  /** The scan of a whole file caption, from what the display line left. */
  function FileScan(cls: CharClasses, r: Record): Option<Scan>
    requires ValidFile(r)
  {
    match ScanAll(EMPTY, if IsMarkerLine(r.name) then LineTags(r.name) else [])
    case None => None
    case Some(a) => ScanAll(AfterFile(a, r), KeptTags(cls, r))
  }

  lemma DecodeIsFinish(cls: CharClasses, r: Record)
    requires ValidFile(r) && Sane(cls)
    ensures DecodeCaption(FileBody(cls, r)) ==
            match FileScan(cls, r) case None => Malformed case Some(b) => Finish(b, FileBody(cls, r))
  {
    var pre := if IsMarkerLine(r.name) then LineTags(r.name) else [];
    FileCaptionTags(cls, r);
    ScanAppend(EMPTY, pre, FileTokens(r) + KeptTags(cls, r));
    match ScanAll(EMPTY, pre)
    case None =>
    case Some(a) => ScanFileTokens(a, r, KeptTags(cls, r));
  }

  lemma FinishFile(a: Scan, r: Record, human: seq<string>, caption: string)
    requires ValidFile(r)
    requires r.parent == "" ==> a.parent == "" || ValidID(a.parent)
    ensures Finish(AfterFile(a, r).(human := human), caption) ==
            Ok(Record(KindFile, VERSION, r.id, if r.parent == "" then a.parent else r.parent, r.name,
                      r.segIndex, r.segCount, r.totalSize, r.segmentSize,
                      if r.owner != "" then r.owner else if ValidID(a.owner) then a.owner else "", human))
  {
    NameSurvives(AfterFile(a, r).(human := human), caption, KindFile, r.name);
    assert r.name != "";
  }

  /** No carried folder tag has the shape of a machine tag, and the name does not smuggle
      tags in through the display line. */
  predicate Unambiguous(cls: CharClasses, r: Record)
    requires ValidFile(r)
  {
    HarmlessDisplay(r) && forall t | t in KeptTags(cls, r) :: !MachineShaped(t)
  }

  /** Decode undoes EncodeFile exactly on unambiguous records. */
  lemma FileRoundTripIff(cls: CharClasses, r: Record)
    requires ValidFile(r) && Sane(cls)
    ensures EncodeFile(cls, r).Some? && DecodeCaption(EncodeFile(cls, r).value) == Ok(Written(cls, r)) <==>
            Unambiguous(cls, r)
  {
    FileEncodes(cls, r);
    DecodeIsFinish(cls, r);
    var pre := if IsMarkerLine(r.name) then LineTags(r.name) else [];
    var kept := KeptTags(cls, r);
    match ScanAll(EMPTY, pre)
    case None =>
    case Some(a) =>
      ScanFolders(EMPTY, pre);
      assert [] + FolderTags(pre) == FolderTags(pre);
      FolderTagsAreFolders(pre);
      ScanFolders(AfterFile(a, r), kept);
      FolderTagsShorter(kept);
      match FileScan(cls, r)
      case None =>
      case Some(b) => RoundTripFromScan(cls, r, a, b);
  }

  lemma RoundTripFromScan(cls: CharClasses, r: Record, a: Scan, b: Scan)
    requires ValidFile(r)
    requires ScanAll(EMPTY, if IsMarkerLine(r.name) then LineTags(r.name) else []) == Some(a)
    requires ScanAll(AfterFile(a, r), KeptTags(cls, r)) == Some(b)
    requires forall t | t in a.human :: !MachineShaped(t)
    ensures Finish(b, FileBody(cls, r)) == Ok(Written(cls, r)) <==> Unambiguous(cls, r)
  {
    var kept := KeptTags(cls, r);
    ScanFolders(AfterFile(a, r), kept);
    FolderTagsShorter(kept);
    assert b.human == a.human + FolderTags(kept);
    if a.human + FolderTags(kept) == kept {
      NothingInFront(a.human, kept);
      assert forall t | t in kept :: !MachineShaped(t);
      assert [] + kept == kept;
      assert b == AfterFile(a, r).(human := kept);
      if r.parent == "" ==> a.parent == "" || ValidID(a.parent) {
        FinishFile(a, r, kept, FileBody(cls, r));
      }
    } else {
      assert a.human == [] ==> FolderTags(kept) != kept;
    }
  }
}
