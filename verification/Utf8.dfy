/** UTF-8, the encoding of Go strings. */
module Utf8 {
  import opened Text

  type byte = b: int | 0 <= b < 256

  function CharBytes(c: char): (bs: seq<byte>)
    ensures 1 <= |bs| <= 4
  {
    var u := c as int;
    if u < 0x80 then [u]
    else if u < 0x800 then [0xC0 + u / 64, 0x80 + u % 64]
    else if u < 0x10000 then [0xE0 + u / 4096, 0x80 + u / 64 % 64, 0x80 + u % 64]
    else [0xF0 + u / 262144, 0x80 + u / 4096 % 64, 0x80 + u / 64 % 64, 0x80 + u % 64]
  }

  function Encode(s: string): seq<byte> {
    if s == "" then [] else CharBytes(s[0]) + Encode(s[1..])
  }

  predicate IsScalar(u: int) {
    0 <= u < 0xD800 || 0xE000 <= u < 0x110000
  }

  /** The code point at the front of bs and the number of bytes it takes. */
  function DecodeChar(bs: seq<byte>): Option<(int, nat)>
    requires bs != []
  {
    var b := bs[0];
    if b < 0x80 then Some((b, 1))
    else if 0xC2 <= b < 0xE0 && |bs| >= 2 && IsTail(bs[1]) then
      Some(((b as int - 0xC0) * 64 + (bs[1] as int - 0x80), 2))
    else if 0xE0 <= b < 0xF0 && |bs| >= 3 && IsTail(bs[1]) && IsTail(bs[2]) then
      Checked((b as int - 0xE0) * 4096 + (bs[1] as int - 0x80) * 64 + (bs[2] as int - 0x80), 0x800, 3)
    else if 0xF0 <= b < 0xF5 && |bs| >= 4 && IsTail(bs[1]) && IsTail(bs[2]) && IsTail(bs[3]) then
      Checked((b as int - 0xF0) * 262144 + (bs[1] as int - 0x80) * 4096 + (bs[2] as int - 0x80) * 64 + (bs[3] as int - 0x80), 0x10000, 4)
    else None
  }

  /** Overlong forms and surrogates are not UTF-8. */
  function Checked(u: int, least: int, n: nat): Option<(int, nat)> {
    if u >= least && IsScalar(u) then Some((u, n)) else None
  }

  predicate IsTail(b: byte) {
    0x80 <= b < 0xC0
  }

  function Decode(bs: seq<byte>): Option<string>
    decreases |bs|
  {
    if bs == [] then Some("")
    else
      match DecodeChar(bs)
      case None => None
      case Some((u, n)) =>
        if !IsScalar(u) || n == 0 || n > |bs| then None
        else
          match Decode(bs[n..])
          case None => None
          case Some(s) => Some([u as char] + s)
  }

  lemma DecodeCharBytes(c: char, rest: seq<byte>)
    ensures DecodeChar(CharBytes(c) + rest) == Some((c as int, |CharBytes(c)|))
    ensures IsScalar(c as int)
  {
    var u := c as int;
    assert u == u / 64 * 64 + u % 64;
    assert u / 64 == u / 4096 * 64 + u / 64 % 64;
    assert u / 4096 == u / 262144 * 64 + u / 4096 % 64;
  }

  /** Every string of Unicode scalar values survives UTF-8. */
  lemma {:induction false} DecodeEncode(s: string)
    ensures Decode(Encode(s)) == Some(s)
  {
    if s != "" {
      var front := CharBytes(s[0]);
      var bs := front + Encode(s[1..]);
      DecodeCharBytes(s[0], Encode(s[1..]));
      assert bs[|front|..] == Encode(s[1..]);
      DecodeEncode(s[1..]);
      assert s == [s[0]] + s[1..];
    }
  }

  lemma LastSix(a: nat, t: nat)
    requires t < 64
    ensures (a * 64 + t) / 64 == a && (a * 64 + t) % 64 == t
  {
  }

  lemma TwoBytes(u: int, b: byte, t: byte)
    requires 0xC2 <= b < 0xE0 && IsTail(t) && u == (b as int - 0xC0) * 64 + (t as int - 0x80)
    ensures IsScalar(u) && CharBytes(u as char) == [b, t]
  {
    LastSix(b as int - 0xC0, t as int - 0x80);
  }

  lemma ThreeBytes(u: int, b: byte, t: byte, v: byte)
    requires 0xE0 <= b < 0xF0 && IsTail(t) && IsTail(v) && u >= 0x800 && IsScalar(u)
    requires u == (b as int - 0xE0) * 4096 + (t as int - 0x80) * 64 + (v as int - 0x80)
    ensures CharBytes(u as char) == [b, t, v]
  {
    var a, x, y := b as int - 0xE0, t as int - 0x80, v as int - 0x80;
    LastSix(a * 64 + x, y);
    LastSix(a, x);
  }

  lemma FourBytes(u: int, b: byte, t: byte, v: byte, w: byte)
    requires 0xF0 <= b < 0xF5 && IsTail(t) && IsTail(v) && IsTail(w) && u >= 0x10000 && IsScalar(u)
    requires u == (b as int - 0xF0) * 262144 + (t as int - 0x80) * 4096 + (v as int - 0x80) * 64 + (w as int - 0x80)
    ensures CharBytes(u as char) == [b, t, v, w]
  {
    var a, x, y, z := b as int - 0xF0, t as int - 0x80, v as int - 0x80, w as int - 0x80;
    LastSix((a * 64 + x) * 64 + y, z);
    LastSix(a * 64 + x, y);
    LastSix(a, x);
  }

  lemma CharBytesOfDecoded(bs: seq<byte>)
    requires bs != [] && DecodeChar(bs).Some?
    ensures var u, n := DecodeChar(bs).value.0, DecodeChar(bs).value.1;
            IsScalar(u) && 0 < n <= |bs| && CharBytes(u as char) == bs[..n]
  {
    var u, n := DecodeChar(bs).value.0, DecodeChar(bs).value.1;
    if n == 1 {
      assert bs[..1] == [bs[0]];
    } else if n == 2 {
      TwoBytes(u, bs[0], bs[1]);
      assert bs[..2] == [bs[0], bs[1]];
    } else if n == 3 {
      ThreeBytes(u, bs[0], bs[1], bs[2]);
      assert bs[..3] == [bs[0], bs[1], bs[2]];
    } else {
      FourBytes(u, bs[0], bs[1], bs[2], bs[3]);
      assert bs[..4] == [bs[0], bs[1], bs[2], bs[3]];
    }
    hide CharBytes;
  }

  /** Nothing but the encoding of a string decodes: no overlong form, no surrogate, no
      stray or missing byte. */
  lemma {:induction false} EncodeDecoded(bs: seq<byte>)
    requires Decode(bs).Some?
    ensures Encode(Decode(bs).value) == bs
    decreases |bs|
  {
    if bs != [] {
      CharBytesOfDecoded(bs);
      var u, n := DecodeChar(bs).value.0, DecodeChar(bs).value.1;
      EncodeDecoded(bs[n..]);
      var s := Decode(bs[n..]).value;
      assert ([u as char] + s)[1..] == s;
      assert bs == bs[..n] + bs[n..];
      hide DecodeChar, CharBytes;
    }
  }

  /** A character takes at least as many UTF-8 bytes as UTF-16 units. */
  function Utf16Units(c: char): nat {
    if c as int > 0xFFFF then 2 else 1
  }

  function Utf16Len(s: string): nat {
    if s == "" then 0 else Utf16Units(s[0]) + Utf16Len(s[1..])
  }

  lemma {:induction false} Utf16AtMostUtf8(s: string)
    ensures Utf16Len(s) <= |Encode(s)|
  {
    if s != "" { Utf16AtMostUtf8(s[1..]); }
  }

  lemma {:induction false} Utf16Append(a: string, b: string)
    ensures Utf16Len(a + b) == Utf16Len(a) + Utf16Len(b)
  {
    if a == "" {
      assert a + b == b;
    } else {
      assert (a + b)[1..] == a[1..] + b;
      Utf16Append(a[1..], b);
    }
  }

  /** Characters beyond the basic plane, and no others, count twice. */
  lemma {:induction false} Utf16Counts(s: string)
    ensures Utf16Len(s) == |s| + |set k | 0 <= k < |s| && s[k] >= '\U{10000}'|
  {
    var beyond := set k | 0 <= k < |s| && s[k] >= '\U{10000}';
    if s == "" {
      assert beyond == {};
    } else {
      var t := s[..|s| - 1];
      Utf16Counts(t);
      assert s == t + [s[|s| - 1]];
      Utf16Append(t, [s[|s| - 1]]);
      var before := set k | 0 <= k < |t| && t[k] >= '\U{10000}';
      assert beyond == before + if s[|t|] >= '\U{10000}' then {|t|} else {};
    }
  }

  /** Text of the basic plane counts one unit a character. */
  lemma {:induction false} Utf16Basic(s: string)
    requires forall c | c in s :: c as int <= 0xFFFF
    ensures Utf16Len(s) == |s|
  {
    if s != "" {
      assert s[0] in s && forall c | c in s[1..] :: c in s;
      Utf16Basic(s[1..]);
    }
  }
}
