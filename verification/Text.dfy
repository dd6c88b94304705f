/** The text operations of Go's strings package that paths and captions rely on. */
module Text {

  datatype Option<T> = None | Some(value: T)

  /** strings.Split on a one-character separator. */
  function SplitOn(s: string, sep: char): (parts: seq<string>)
    ensures |parts| >= 1
    decreases |s|
  {
    if sep !in s then [s]
    else
      var i := FirstOf(s, sep);
      [s[..i]] + SplitOn(s[i + 1..], sep)
  }

  function FirstOf(s: string, c: char): (i: nat)
    requires c in s
    ensures i < |s| && s[i] == c && forall k | 0 <= k < i :: s[k] != c
  {
    if s[0] == c then 0 else 1 + FirstOf(s[1..], c)
  }

  lemma FirstOfIs(t: string, c: char, i: nat, front: string)
    requires i < |t| && t[i] == c && t[..i] == front && c !in front
    ensures c in t && FirstOf(t, c) == i
  {
    var j := FirstOf(t, c);
    assert forall k | 0 <= k < i :: t[k] == t[..i][k];
    assert forall k | 0 <= k < j :: t[k] == t[..j][k];
  }

  lemma SplitFirst(front: string, sep: char, rest: string)
    requires sep !in front
    ensures SplitOn(front + [sep] + rest, sep) == [front] + SplitOn(rest, sep)
  {
    var t := front + [sep] + rest;
    assert t[..|front|] == front && t[|front| + 1..] == rest;
    FirstOfIs(t, sep, |front|, front);
  }

  lemma {:induction false} SplitLast(s: string, sep: char, last: string)
    requires sep !in last
    ensures SplitOn(s + [sep] + last, sep) == SplitOn(s, sep) + [last]
    decreases |s|
  {
    if sep !in s {
      SplitFirst(s, sep, last);
    } else {
      var j := FirstOf(s, sep);
      assert s == s[..j] + [sep] + s[j + 1..];
      assert s + [sep] + last == s[..j] + [sep] + (s[j + 1..] + [sep] + last);
      SplitFirst(s[..j], sep, s[j + 1..] + [sep] + last);
      SplitLast(s[j + 1..], sep, last);
      assert SplitOn(s, sep) == [s[..j]] + SplitOn(s[j + 1..], sep);
      hide SplitOn;
    }
  }

  /** unicode.IsSpace. */
  predicate IsSpace(c: char) {
    var u := c as int;
    || 0x09 <= u <= 0x0D || u == 0x20 || u == 0x85 || u == 0xA0
    || u == 0x1680 || 0x2000 <= u <= 0x200A || u == 0x2028 || u == 0x2029
    || u == 0x202F || u == 0x205F || u == 0x3000
  }

  lemma SpacesAre(c: char)
    ensures IsSpace(c) <==>
            c in {'\t', '\n', '\U{B}', '\U{C}', '\r', ' ', '\U{85}', '\U{A0}', '\U{1680}', '\U{2000}', '\U{2001}', '\U{2002}',
                  '\U{2003}', '\U{2004}', '\U{2005}', '\U{2006}', '\U{2007}', '\U{2008}', '\U{2009}', '\U{200A}', '\U{2028}',
                  '\U{2029}', '\U{202F}', '\U{205F}', '\U{3000}'}
  {
  }

  /** A non-empty run of characters without white space. */
  predicate IsWord(w: string) {
    w != "" && forall c | c in w :: !IsSpace(c)
  }

  /** strings.Fields. */
  function Fields(s: string): seq<string> {
    FieldsFrom("", s)
  }

  /** The fields of word + s, where word is the field read so far. */
  function FieldsFrom(word: string, s: string): seq<string>
    decreases |s|
  {
    var done := if word == "" then [] else [word];
    if s == "" then done
    else if IsSpace(s[0]) then done + FieldsFrom("", s[1..])
    else FieldsFrom(word + [s[0]], s[1..])
  }

  lemma {:induction false} FieldsOfWord(word: string, w: string, rest: string)
    requires forall c | c in w :: !IsSpace(c)
    ensures FieldsFrom(word, w + rest) == FieldsFrom(word + w, rest)
    decreases |w|
  {
    if w == "" {
      assert w + rest == rest && word + w == word;
    } else {
      assert (w + rest)[0] == w[0] && (w + rest)[1..] == w[1..] + rest;
      assert (word + [w[0]]) + w[1..] == word + w;
      FieldsOfWord(word + [w[0]], w[1..], rest);
    }
  }

  /** strings.Join(words, " "). */
  function Spaced(words: seq<string>): string {
    if words == [] then ""
    else if |words| == 1 then words[0]
    else words[0] + " " + Spaced(words[1..])
  }

  /** Splitting at white space undoes joining words with spaces. */
  lemma {:induction false} FieldsOfSpaced(words: seq<string>)
    requires forall w | w in words :: IsWord(w)
    ensures Fields(Spaced(words)) == words
  {
    if words != [] {
      assert IsWord(words[0]);
      if |words| == 1 {
        FieldsOfWord("", words[0], "");
        assert words[0] + "" == words[0] && "" + words[0] == words[0];
        assert words == [words[0]];
      } else {
        var rest := Spaced(words[1..]);
        assert Spaced(words) == words[0] + (" " + rest);
        FieldsOfWord("", words[0], " " + rest);
        assert "" + words[0] == words[0];
        assert (" " + rest)[1..] == rest;
        FieldsOfSpaced(words[1..]);
        assert words == [words[0]] + words[1..];
      }
    }
  }

  lemma {:induction false} SpacedAppend(a: seq<string>, b: seq<string>)
    requires a != [] && b != []
    ensures Spaced(a + b) == Spaced(a) + " " + Spaced(b)
  {
    if |a| == 1 {
      assert (a + b)[1..] == b;
    } else {
      assert (a + b)[1..] == a[1..] + b;
      SpacedAppend(a[1..], b);
      assert a[0] + " " + (Spaced(a[1..]) + " " + Spaced(b)) == a[0] + " " + Spaced(a[1..]) + " " + Spaced(b);
    }
  }

  lemma {:induction false} SpacedChars(words: seq<string>, c: char)
    requires c != ' ' && forall w | w in words :: c !in w
    ensures c !in Spaced(words)
  {
    if |words| > 1 {
      SpacedChars(words[1..], c);
    }
  }
}
