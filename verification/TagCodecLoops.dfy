/** The codec's loops, each proved to compute the function that specifies it
    (internal/tagcodec/tagcodec.go). */
module TagCodecLoops {
  import opened TagCodec
  import opened Text
  import opened Utf8

  /** utf16Len. */
  method CountUtf16(s: string) returns (n: nat)
    ensures n == Utf16Len(s)
  {
    n := 0;
    for i := 0 to |s|
      invariant n + Utf16Len(s[i..]) == Utf16Len(s)
    {
      assert s[i..][1..] == s[i + 1..];
      n := n + 1;
      if s[i] as int > 0xFFFF {
        n := n + 1;
      }
    }
  }

  /** truncateUTF16: a rune is kept whole or not at all. */
  method Truncate(s: string, limit: nat) returns (t: string)
    ensures t == TruncateUtf16(s, limit)
    ensures t <= s && Utf16Len(t) <= limit && (Utf16Len(s) <= limit ==> t == s)
  {
    var len := CountUtf16(s);
    if len <= limit {
      TruncateShort(s, limit);
      return s;
    }
    TruncateCuts(s, limit);
    var i, n := 0, 0;
    assert s[0..] == s && s[..0] == "";
    hide TruncateUtf16, Utf16Len;
    while i < |s|
      invariant 0 <= i <= |s| && 0 <= n <= limit
      invariant TruncateUtf16(s, limit) == s[..i] + TruncateUtf16(s[i..], limit - n)
    {
      TruncateNext(s, i, limit - n);
      var w := if s[i] as int > 0xFFFF then 2 else 1;
      if n + w > limit {
        return s[..i];
      }
      i, n := i + 1, n + w;
    }
    // Not reached: some character did not fit.
    assert false;
    t := s;
  }

  lemma TruncateCuts(s: string, limit: nat)
    requires Utf16Len(s) > limit
    ensures |TruncateUtf16(s, limit)| < |s|
  {
    assert TruncateUtf16(s, limit) != s;
  }

  lemma TruncateNext(s: string, i: nat, limit: nat)
    requires i < |s|
    ensures var w := Utf16Units(s[i]);
            if w > limit then s[..i] + TruncateUtf16(s[i..], limit) == s[..i]
            else s[..i] + TruncateUtf16(s[i..], limit) == s[..i + 1] + TruncateUtf16(s[i + 1..], limit - w)
  {
    var w := Utf16Units(s[i]);
    assert s[i..][1..] == s[i + 1..] && s[i..][0] == s[i];
    if w <= limit {
      var rest := TruncateUtf16(s[i + 1..], limit - w);
      assert TruncateUtf16(s[i..], limit) == [s[i]] + rest;
      assert s[..i] + ([s[i]] + rest) == s[..i + 1] + rest;
    }
  }

  lemma {:induction false} TruncateShort(s: string, limit: nat)
    requires Utf16Len(s) <= limit
    ensures TruncateUtf16(s, limit) == s
  {
    if s != "" {
      TruncateShort(s[1..], limit - Utf16Units(s[0]));
      assert s == [s[0]] + s[1..];
    }
  }

  /** What the loop has decided about the characters it kept. */
  predicate OnlyDigits(cls: CharClasses, out: string) {
    forall c | c in out :: cls.digit(c) && !cls.letter(c)
  }

  lemma OneMoreChar(cls: CharClasses, out: string, c: char)
    ensures OnlyDigits(cls, out + [c]) <==> OnlyDigits(cls, out) && cls.digit(c) && !cls.letter(c)
  {
    assert c in out + [c];
    assert forall d | d in out :: d in out + [c];
  }

  lemma KeepNext(cls: CharClasses, name: string, i: nat, out: string)
    requires i < |name|
    ensures var kept := cls.letter(name[i]) || cls.digit(name[i]) || name[i] == '_';
            out + KeepTagChars(cls, name[i..]) == (if kept then out + [name[i]] else out) + KeepTagChars(cls, name[i + 1..])
  {
    var rest := KeepTagChars(cls, name[i + 1..]);
    assert name[i..][1..] == name[i + 1..] && name[i..][0] == name[i];
    assert out + ([name[i]] + rest) == (out + [name[i]]) + rest && out + ("" + rest) == out + rest;
  }

  method Sanitize(cls: CharClasses, name: string) returns (tag: string)
    ensures tag == SanitizeTag(cls, name)
  {
    var out := "";
    var digitsOnly := true;
    assert name[0..] == name;
    for i := 0 to |name|
      invariant KeepTagChars(cls, name) == out + KeepTagChars(cls, name[i..])
      invariant digitsOnly <==> OnlyDigits(cls, out)
    {
      KeepNext(cls, name, i, out);
      hide KeepTagChars, OnlyDigits;
      var c := name[i];
      OneMoreChar(cls, out, c);
      if cls.letter(c) {
        digitsOnly := false;
        out := out + [c];
      } else if cls.digit(c) {
        out := out + [c];
      } else if c == '_' {
        digitsOnly := false;
        out := out + [c];
      }
    }
    assert name[|name|..] == "" && out + "" == out;
    tag := if out == "" then "" else if digitsOnly then "_" + out else out;
  }

  /** The ancestor tags of EncodeFile. */
  method Collect(cls: CharClasses, names: seq<string>) returns (human: seq<string>)
    ensures human == CollectTags(cls, names, [])
  {
    human := [];
    var seen: set<string> := {};
    assert names[0..] == names;
    for i := 0 to |names|
      invariant CollectTags(cls, names, []) == CollectTags(cls, names[i..], human)
      invariant forall t :: t in seen <==> t in human
      invariant |human| < MAX_HUMAN_TAGS
    {
      assert names[i..][1..] == names[i + 1..];
      var t := Sanitize(cls, names[i]);
      if t == "" || t in seen {
        continue;
      }
      seen := seen + {t};
      human := human + [t];
      if |human| == MAX_HUMAN_TAGS {
        return;
      }
    }
  }

  /** assemble's loop: folder tags go from the end, then the display line shrinks. */
  method AssembleCaption(display: string, machine: seq<string>, human: seq<string>) returns (caption: Option<string>)
    ensures caption == Assemble(display, machine, human)
  {
    var base := Spaced(Hashed(machine));
    var units := CountUtf16(base);
    if units > MAX_CAPTION_UNITS {
      return None;
    }
    var kept := human;
    while true
      invariant Assemble(display, machine, human) == Assemble(display, machine, kept)
      decreases |kept|
    {
      var body := Body(display, machine, kept);
      var n := CountUtf16(body);
      if n <= MAX_CAPTION_UNITS {
        return Some(body);
      }
      if |kept| > 0 {
        kept := kept[..|kept| - 1];
        continue;
      }
      var budget := MAX_CAPTION_UNITS - units - 2;
      if budget <= 0 {
        return Some(base);
      }
      var shown := Truncate(display, budget);
      return Some(Body(shown, machine, []));
    }
  }

  /** tagTokens: from the first line whose first word is the marker. */
  method FindTokens(caption: string) returns (tokens: Option<seq<string>>)
    ensures tokens == TagTokens(caption)
  {
    var lines := SplitOn(caption, '\n');
    assert lines[0..] == lines;
    for i := 0 to |lines|
      invariant FromMarker(lines) == FromMarker(lines[i..])
    {
      assert lines[i..][1..] == lines[i + 1..] && lines[i..][0] == lines[i];
      var fields := Fields(lines[i]);
      if |fields| > 0 && fields[0] == "#" + MARKER {
        var found := Gather(lines[i..]);
        return Some(found);
      }
    }
    tokens := None;
  }

  method Gather(lines: seq<string>) returns (tokens: seq<string>)
    ensures tokens == AllTags(lines)
  {
    tokens := [];
    assert lines[0..] == lines;
    for i := 0 to |lines|
      invariant AllTags(lines) == tokens + AllTags(lines[i..])
    {
      assert lines[i..][1..] == lines[i + 1..];
      var more := GatherLine(Fields(lines[i]));
      tokens := tokens + more;
    }
  }

  lemma TagsOfNext(fields: seq<string>, i: nat)
    requires i < |fields|
    ensures TagsOf(fields[i..]) ==
            (if |fields[i]| > 1 && fields[i][0] == '#' then [fields[i][1..]] else []) + TagsOf(fields[i + 1..])
  {
    assert fields[i..][1..] == fields[i + 1..] && fields[i..][0] == fields[i];
  }

  method GatherLine(fields: seq<string>) returns (tokens: seq<string>)
    ensures tokens == TagsOf(fields)
  {
    tokens := [];
    assert fields[0..] == fields;
    for i := 0 to |fields|
      invariant TagsOf(fields) == tokens + TagsOf(fields[i..])
    {
      TagsOfNext(fields, i);
      hide TagsOf;
      if |fields[i]| > 1 && fields[i][0] == '#' {
        tokens := tokens + [fields[i][1..]];
      }
    }
  }

  /** Decode: one pass over the tags, then the checks. */
  method DecodeMessage(caption: string) returns (out: Decoded)
    ensures out == DecodeCaption(caption)
  {
    hide Step, Finish;
    var tokens := FindTokens(caption);
    if tokens.None? {
      return NotTagged;
    }
    var a := EMPTY;
    assert tokens.value[0..] == tokens.value;
    for i := 0 to |tokens.value|
      invariant ScanAll(EMPTY, tokens.value) == ScanAll(a, tokens.value[i..])
    {
      assert tokens.value[i..][1..] == tokens.value[i + 1..];
      match Step(a, tokens.value[i]) {
        case None => return Malformed;
        case Some(b) => a := b;
      }
    }
    out := Finish(a, caption);
  }
}
