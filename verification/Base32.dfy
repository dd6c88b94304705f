/** Base32 without padding, section 6 of RFC 4648, as encoding/base32 reads and
    writes it. */
module Base32 {
  import opened Text
  import opened Utf8

  type digit = d: int | 0 <= d < 32

  /** The alphabet: A-Z, 2-7. */
  function Symbol(d: digit): char {
    if d < 26 then 'A' + d as char else '2' + (d - 26) as char
  }

  function SymbolValue(c: char): Option<digit> {
    if 'A' <= c <= 'Z' then Some((c - 'A') as int)
    else if '2' <= c <= '7' then Some((c - '2') as int + 26)
    else None
  }

  function Power(n: nat): nat {
    if n == 0 then 1 else 2 * Power(n - 1)
  }

  /** The n low bits of v, the most significant first. */
  function Bits(v: nat, n: nat): (bits: seq<bool>)
    ensures |bits| == n
  {
    if n == 0 then [] else Bits(v / 2, n - 1) + [v % 2 == 1]
  }

  function Number(bits: seq<bool>): (v: nat)
    ensures v < Power(|bits|)
  {
    if bits == [] then 0 else 2 * Number(bits[..|bits| - 1]) + if bits[|bits| - 1] then 1 else 0
  }

  function BitsOfBytes(bs: seq<byte>): (bits: seq<bool>)
    ensures |bits| == 8 * |bs|
  {
    if bs == [] then [] else Bits(bs[0], 8) + BitsOfBytes(bs[1..])
  }

  function BitsOfDigits(ds: seq<digit>): (bits: seq<bool>)
    ensures |bits| == 5 * |ds|
  {
    if ds == [] then [] else Bits(ds[0], 5) + BitsOfDigits(ds[1..])
  }

  function Zeros(n: nat): (bits: seq<bool>)
    ensures |bits| == n
  {
    seq(n, _ => false)
  }

  function Group(bits: seq<bool>): digit
    requires |bits| == 5
  {
    assert Power(|bits|) == 32;
    Number(bits)
  }

  /** Groups of five bits; the last one is filled with zero bits. */
  function Digits(bits: seq<bool>): (ds: seq<digit>)
    ensures 5 * |ds| < |bits| + 5 && |bits| <= 5 * |ds|
  {
    if bits == [] then []
    else if |bits| < 5 then [Group(bits + Zeros(5 - |bits|))]
    else [Group(bits[..5])] + Digits(bits[5..])
  }

  /** Groups of eight bits; what is left over is filling. */
  function Bytes(bits: seq<bool>): seq<byte> {
    if |bits| < 8 then [] else [Number(bits[..8])] + Bytes(bits[8..])
  }

  function Symbols(ds: seq<digit>): (s: string)
    ensures |s| == |ds|
    ensures forall k | 0 <= k < |ds| :: s[k] == Symbol(ds[k])
  {
    seq(|ds|, i requires 0 <= i < |ds| => Symbol(ds[i]))
  }

  function Values(s: string): Option<seq<digit>> {
    if s == "" then Some([])
    else
      match SymbolValue(s[0])
      case None => None
      case Some(d) =>
        match Values(s[1..])
        case None => None
        case Some(ds) => Some([d] + ds)
  }

  function EncodeToString(bs: seq<byte>): string {
    Symbols(Digits(BitsOfBytes(bs)))
  }

  /** Three or six symbols after the last whole quantum are none that an encoder writes;
      no bytes are read from them. */
  function Readable(n: nat): nat {
    if n % 8 == 3 || n % 8 == 6 then n - n % 8 else n
  }

  function DecodeString(s: string): Option<seq<byte>> {
    match Values(s)
    case None => None
    case Some(ds) => Some(Bytes(BitsOfDigits(ds[..Readable(|ds|)])))
  }

  lemma {:induction false} ValuesOfSymbols(ds: seq<digit>)
    ensures Values(Symbols(ds)) == Some(ds)
  {
    if ds != [] {
      assert Symbols(ds)[1..] == Symbols(ds[1..]);
      ValuesOfSymbols(ds[1..]);
      assert ds == [ds[0]] + ds[1..];
    } else {
      assert Symbols(ds) == "";
    }
  }

  lemma {:induction false} NumberOfBits(v: nat, n: nat)
    requires v < Power(n)
    ensures Number(Bits(v, n)) == v
  {
    if n > 0 {
      NumberOfBits(v / 2, n - 1);
      assert Bits(v, n)[..n - 1] == Bits(v / 2, n - 1);
    }
  }

  lemma {:induction false} BitsOfNumber(bits: seq<bool>)
    ensures Bits(Number(bits), |bits|) == bits
  {
    if bits != [] {
      BitsOfNumber(bits[..|bits| - 1]);
      assert bits == bits[..|bits| - 1] + [bits[|bits| - 1]];
    }
  }

  /** Cutting into fives loses nothing and only adds filling. */
  lemma {:induction false} BitsOfDigitsOf(bits: seq<bool>)
    ensures BitsOfDigits(Digits(bits)) == bits + Zeros(5 * |Digits(bits)| - |bits|)
  {
    hide Bits, Number;
    var ds := Digits(bits);
    if 0 < |bits| < 5 {
      BitsOfNumber(bits + Zeros(5 - |bits|));
      assert BitsOfDigits(ds[1..]) == [];
    } else if |bits| >= 5 {
      BitsOfNumber(bits[..5]);
      BitsOfDigitsOf(bits[5..]);
      assert ds[1..] == Digits(bits[5..]);
      assert bits == bits[..5] + bits[5..];
    }
  }

  /** Filling of less than a byte does not matter to the bytes. */
  lemma {:induction false} BytesOfBits(bs: seq<byte>, filling: nat)
    requires filling < 8
    ensures Bytes(BitsOfBytes(bs) + Zeros(filling)) == bs
  {
    hide Bits, Number;
    if bs != [] {
      var bits := BitsOfBytes(bs) + Zeros(filling);
      assert bits[..8] == Bits(bs[0], 8) && bits[8..] == BitsOfBytes(bs[1..]) + Zeros(filling);
      assert bs[0] < Power(8);
      NumberOfBits(bs[0], 8);
      BytesOfBits(bs[1..], filling);
    }
  }

  lemma WrittenIsReadable(bytes: nat, digits: nat)
    requires 8 * bytes <= 5 * digits < 8 * bytes + 5
    ensures Readable(digits) == digits
  {
    var q, r := digits / 8, digits % 8;
    assert 5 * digits == 40 * q + 5 * r;
  }

  /** Every byte string survives. */
  lemma DecodeEncoded(bs: seq<byte>)
    ensures DecodeString(EncodeToString(bs)) == Some(bs)
  {
    var bits := BitsOfBytes(bs);
    var ds := Digits(bits);
    ValuesOfSymbols(ds);
    BitsOfDigitsOf(bits);
    BytesOfBits(bs, 5 * |ds| - |bits|);
    WrittenIsReadable(|bs|, |ds|);
    assert ds[..|ds|] == ds;
    hide Readable, Digits, Bytes, BitsOfDigits, BitsOfBytes, Symbols, Values;
  }

  /** Eight symbols for five bytes, rounded up to a whole symbol. */
  lemma EncodedLength(bs: seq<byte>)
    ensures |EncodeToString(bs)| == (8 * |bs| + 4) / 5
  {
    hide Digits, BitsOfBytes;
    assert EncodeToString(bs) == Symbols(Digits(BitsOfBytes(bs)));
  }

  /** The alphabet is safe inside a hashtag. */
  lemma EncodedIsWord(bs: seq<byte>)
    ensures forall c | c in EncodeToString(bs) :: !IsSpace(c) && c != '#' && c as int < 0x80
  {
    var s, ds := EncodeToString(bs), Digits(BitsOfBytes(bs));
    forall c | c in s ensures !IsSpace(c) && c != '#' && c as int < 0x80 {
      var k :| 0 <= k < |s| && s[k] == c;
      assert c == Symbol(ds[k]);
    }
  }
}
