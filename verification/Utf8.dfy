/** The UTF-8 form of a text of UTF-16 code units (RFC 3629, section 3). */
module Utf8 {
  import opened Options
  import opened Text

  /** A high surrogate. */
  predicate High(u: CodeUnit) { 0xD800 <= u < 0xDC00 }

  predicate Low(u: CodeUnit) { 0xDC00 <= u < 0xE000 }

  predicate Paired(s: Text) { |s| >= 2 && High(s[0]) && Low(s[1]) }

  /** `Buffer.byteLength`: a pair of surrogates takes four bytes, a lone one is replaced
      by a character of three. */
  function Bytes(s: Text): nat {
    if s == [] then 0
    else if Paired(s) then 4 + Bytes(s[2..])
    else (if s[0] < 0x80 then 1 else if s[0] < 0x800 then 2 else 3) + Bytes(s[1..])
  }

  /** Every surrogate stands in a pair: the text comes back from its bytes unchanged. */
  predicate WellFormed(s: Text) {
    if s == [] then true
    else if Paired(s) then WellFormed(s[2..])
    else !High(s[0]) && !Low(s[0]) && WellFormed(s[1..])
  }

  /** More text never takes fewer bytes, not even when it completes a pair. */
  lemma {:induction false} BytesGrow(s: Text, t: Text)
    ensures Bytes(s) <= Bytes(s + t)
    decreases |s|
  {
    if s != [] {
      assert (s + t)[1..] == s[1..] + t;
      BytesGrow(s[1..], t);
      if Paired(s) {
        assert (s + t)[2..] == s[2..] + t;
        BytesGrow(s[2..], t);
      } else if High(s[0]) && t != [] && |s| == 1 {
        assert Bytes(s) == 3 + Bytes([]);
      }
    }
  }

  // ------------------------------------------------------------------ the bytes

  type Byte = b: int | 0 <= b < 256

  /** The character of a surrogate pair. */
  function Scalar(high: CodeUnit, low: CodeUnit): int {
    0x1_0000 + 0x400 * (high - 0xD800) + (low - 0xDC00)
  }

  function TwoBytes(u: int): seq<Byte>
    requires 0x80 <= u < 0x800
  {
    [0xC0 + u / 64, 0x80 + u % 64]
  }

  function ThreeBytes(u: int): seq<Byte>
    requires 0x800 <= u < 0x1_0000
  {
    [0xE0 + u / 64 / 64, 0x80 + u / 64 % 64, 0x80 + u % 64]
  }

  function FourBytes(c: int): seq<Byte>
    requires 0x1_0000 <= c < 0x11_0000
  {
    [0xF0 + c / 64 / 64 / 64, 0x80 + c / 64 / 64 % 64, 0x80 + c / 64 % 64, 0x80 + c % 64]
  }

  /** The bytes of one code unit; a lone surrogate is written as U+FFFD. */
  function UnitBytes(u: CodeUnit): seq<Byte> {
    if u < 0x80 then [u]
    else if u < 0x800 then TwoBytes(u)
    else if High(u) || Low(u) then [0xEF, 0xBF, 0xBD]
    else ThreeBytes(u)
  }

  /** `Buffer.from` */
  function Encode(s: Text): seq<Byte> {
    if s == [] then []
    else if Paired(s) then FourBytes(Scalar(s[0], s[1])) + Encode(s[2..])
    else UnitBytes(s[0]) + Encode(s[1..])
  }

  /** The number of bytes that are written. */
  lemma {:induction false} EncodedLength(s: Text)
    ensures |Encode(s)| == Bytes(s)
    decreases |s|
  {
    if s != [] { EncodedLength(if Paired(s) then s[2..] else s[1..]); }
  }

  /** The six bits of a continuation byte. */
  function Six(b: int): int { b - 0x80 }

  predicate Continue(b: seq<Byte>, n: nat) {
    |b| > n && forall i :: 1 <= i <= n ==> 0x80 <= b[i] < 0xC0
  }

  function Two(b: seq<Byte>): int
    requires |b| >= 2
  {
    64 * (b[0] as int - 0xC0) + Six(b[1])
  }

  function Three(b: seq<Byte>): int
    requires |b| >= 3
  {
    64 * (64 * (b[0] as int - 0xE0) + Six(b[1])) + Six(b[2])
  }

  function Four(b: seq<Byte>): int
    requires |b| >= 4
  {
    64 * (64 * (64 * (b[0] as int - 0xF0) + Six(b[1])) + Six(b[2])) + Six(b[3])
  }

  /** The text of the bytes; None where they are no UTF-8, be it that a character is written
      with more bytes than it needs, or a surrogate as a character. */
  function Decode(b: seq<Byte>): Option<Text>
    decreases |b|
  {
    if b == [] then Some([])
    else if b[0] < 0x80 then With([b[0]], Decode(b[1..]))
    else if 0xC0 <= b[0] < 0xE0 && Continue(b, 1) && 0x80 <= Two(b) then With([Two(b)], Decode(b[2..]))
    else if 0xE0 <= b[0] < 0xF0 && Continue(b, 2) && 0x800 <= Three(b) && !High(Three(b)) && !Low(Three(b)) then
      With([Three(b)], Decode(b[3..]))
    else if 0xF0 <= b[0] < 0xF8 && Continue(b, 3) && 0x1_0000 <= Four(b) < 0x11_0000 then
      With(Halves(Four(b)), Decode(b[4..]))
    else None
  }

  function With(first: Text, rest: Option<Text>): Option<Text> {
    if rest.None? then None else Some(first + rest.value)
  }

  /** The surrogate pair of a character beyond the basic plane. */
  function Halves(c: int): Text
    requires 0x1_0000 <= c < 0x11_0000
  {
    [0xD800 + (c - 0x1_0000) / 0x400, 0xDC00 + (c - 0x1_0000) % 0x400]
  }

  lemma UnitDecodes(u: CodeUnit, rest: seq<Byte>)
    requires !High(u) && !Low(u)
    ensures Decode(UnitBytes(u) + rest) == With([u], Decode(rest))
  {
    var b := UnitBytes(u) + rest;
    if u < 0x80 {
      assert b[1..] == rest;
    } else if u < 0x800 {
      assert b[0] == 0xC0 + u / 64 && b[1] == 0x80 + u % 64 && b[2..] == rest;
      assert Two(b) == u;
    } else {
      assert b[0] == 0xE0 + u / 64 / 64 && b[1] == 0x80 + u / 64 % 64 && b[2] == 0x80 + u % 64 && b[3..] == rest;
      assert Three(b) == u;
    }
  }

  lemma PairDecodes(high: CodeUnit, low: CodeUnit, rest: seq<Byte>)
    requires High(high) && Low(low)
    ensures Decode(FourBytes(Scalar(high, low)) + rest) == With([high, low], Decode(rest))
  {
    var c := Scalar(high, low);
    var b := FourBytes(c) + rest;
    assert b[0] == 0xF0 + c / 64 / 64 / 64 && b[1] == 0x80 + c / 64 / 64 % 64;
    assert b[2] == 0x80 + c / 64 % 64 && b[3] == 0x80 + c % 64 && b[4..] == rest;
    assert Four(b) == c;
    assert Halves(c) == [high, low];
  }

  lemma TwoEncoded(b: seq<Byte>)
    requires |b| >= 2 && 0xC0 <= b[0] < 0xE0 && Continue(b, 1) && 0x80 <= Two(b)
    ensures Two(b) < 0x800 && TwoBytes(Two(b)) + b[2..] == b
  {}

  lemma ThreeEncoded(b: seq<Byte>)
    requires |b| >= 3 && 0xE0 <= b[0] < 0xF0 && Continue(b, 2) && 0x800 <= Three(b)
    ensures Three(b) < 0x1_0000 && ThreeBytes(Three(b)) + b[3..] == b
  {
    var u := Three(b);
    assert u % 64 == Six(b[2]) && u / 64 == 64 * (b[0] as int - 0xE0) + Six(b[1]);
    assert u / 64 % 64 == Six(b[1]) && u / 64 / 64 == b[0] as int - 0xE0;
  }

  lemma FourEncoded(b: seq<Byte>)
    requires |b| >= 4 && 0xF0 <= b[0] < 0xF8 && Continue(b, 3) && 0x1_0000 <= Four(b) < 0x11_0000
    ensures FourBytes(Four(b)) + b[4..] == b
  {
    var c := Four(b);
    assert c % 64 == Six(b[3]) && c / 64 == 64 * (64 * (b[0] as int - 0xF0) + Six(b[1])) + Six(b[2]);
    assert c / 64 % 64 == Six(b[2]) && c / 64 / 64 == 64 * (b[0] as int - 0xF0) + Six(b[1]);
    assert c / 64 / 64 % 64 == Six(b[1]) && c / 64 / 64 / 64 == b[0] as int - 0xF0;
  }

  lemma HalvesPair(c: int)
    requires 0x1_0000 <= c < 0x11_0000
    ensures Paired(Halves(c)) && Scalar(Halves(c)[0], Halves(c)[1]) == c
  {}

  /** A text whose surrogates stand in pairs comes back from its bytes. */
  lemma {:induction false} DecodeEncode(s: Text)
    requires WellFormed(s)
    ensures Decode(Encode(s)) == Some(s)
    decreases |s|
  {
    if s == [] {
    } else if Paired(s) {
      DecodeEncode(s[2..]);
      PairDecodes(s[0], s[1], Encode(s[2..]));
      assert s == [s[0], s[1]] + s[2..];
    } else {
      DecodeEncode(s[1..]);
      UnitDecodes(s[0], Encode(s[1..]));
      assert s == [s[0]] + s[1..];
    }
  }

  /** The text comes back from its bytes exactly when its surrogates stand in pairs. */
  lemma SurvivesExactly(s: Text)
    ensures Decode(Encode(s)) == Some(s) <==> WellFormed(s)
  {
    if WellFormed(s) { DecodeEncode(s); }
    if Decode(Encode(s)) == Some(s) { EncodeDecode(Encode(s)); }
  }

  /** The bytes that decode are the bytes of their text. */
  lemma {:induction false} EncodeDecode(b: seq<Byte>)
    requires Decode(b).Some?
    ensures WellFormed(Decode(b).value) && Encode(Decode(b).value) == b
    decreases |b|
  {
    var s := Decode(b).value;
    if b == [] {
    } else if b[0] < 0x80 {
      EncodeDecode(b[1..]);
      Extended([b[0]], b[1..], s);
    } else if 0xC0 <= b[0] < 0xE0 {
      TwoEncoded(b);
      EncodeDecode(b[2..]);
      Extended([Two(b)], b[2..], s);
    } else if 0xE0 <= b[0] < 0xF0 {
      ThreeEncoded(b);
      EncodeDecode(b[3..]);
      Extended([Three(b)], b[3..], s);
    } else {
      FourEncoded(b);
      HalvesPair(Four(b));
      EncodeDecode(b[4..]);
      ExtendedPair(Halves(Four(b)), b[4..], s);
    }
  }

  lemma Extended(first: Text, rest: seq<Byte>, s: Text)
    requires |first| == 1 && !High(first[0]) && !Low(first[0])
    requires Decode(rest).Some? && s == first + Decode(rest).value && WellFormed(Decode(rest).value)
    ensures WellFormed(s) && Encode(s) == UnitBytes(first[0]) + Encode(Decode(rest).value)
  {
    assert s[0] == first[0] && s[1..] == Decode(rest).value;
  }

  lemma ExtendedPair(first: Text, rest: seq<Byte>, s: Text)
    requires |first| == 2 && Paired(first)
    requires Decode(rest).Some? && s == first + Decode(rest).value && WellFormed(Decode(rest).value)
    ensures WellFormed(s) && Encode(s) == FourBytes(Scalar(first[0], first[1])) + Encode(Decode(rest).value)
  {
    assert s[0] == first[0] && s[1] == first[1] && s[2..] == Decode(rest).value;
  }
}
