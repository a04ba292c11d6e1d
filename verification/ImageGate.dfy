/** The base64 encoding of sections 3.5 and 4 of RFC 4648. */
module Base64 {
  import opened Options

  type Byte = b: int | 0 <= b < 256

  type Sextet = v: int | 0 <= v < 64

  // A byte is four pairs of bits, a sextet three.

  type Pair = p: int | 0 <= p < 4

  function PairsOfByte(b: Byte): seq<Pair> { [b / 4 / 4 / 4, b / 4 / 4 % 4, b / 4 % 4, b % 4] }

  function PairsOfSextet(v: Sextet): seq<Pair> { [v / 4 / 4, v / 4 % 4, v % 4] }

  /** Two more bits. */
  function Next(n: nat, p: Pair): nat { 4 * n + p }

  function ByteOf(p: Pair, q: Pair, r: Pair, s: Pair): Byte { Next(Next(Next(p, q), r), s) }

  function SextetOf(p: Pair, q: Pair, r: Pair): Sextet { Next(Next(p, q), r) }

  /** The stream of bits, two at a time. */
  function Stream(bytes: seq<Byte>): seq<Pair> {
    if bytes == [] then [] else PairsOfByte(bytes[0]) + Stream(bytes[1..])
  }

  function SextetStream(v: seq<Sextet>): seq<Pair> {
    if v == [] then [] else PairsOfSextet(v[0]) + SextetStream(v[1..])
  }

  /** Six bits at a time; the last sextet is filled up with zero bits. */
  function Sextets(d: seq<Pair>): seq<Sextet> {
    if d == [] then []
    else if |d| == 1 then [SextetOf(d[0], 0, 0)]
    else if |d| == 2 then [SextetOf(d[0], d[1], 0)]
    else [SextetOf(d[0], d[1], d[2])] + Sextets(d[3..])
  }

  /** Eight bits at a time; what does not fill a byte is dropped. */
  function Bytes(d: seq<Pair>): seq<Byte> {
    if |d| < 4 then [] else [ByteOf(d[0], d[1], d[2], d[3])] + Bytes(d[4..])
  }

  predicate Zero(d: seq<Pair>) {
    forall i :: 0 <= i < |d| ==> d[i] == 0
  }

  /** The sextets stand for whole bytes, and the bits beyond them are zero. */
  predicate Tight(v: seq<Sextet>) {
    var d := SextetStream(v);
    |v| % 4 != 1 && Zero(d[Whole(|d|)..])
  }

  lemma ByteOfPairs(b: Byte)
    ensures var d := PairsOfByte(b); ByteOf(d[0], d[1], d[2], d[3]) == b
  {}

  lemma Quarter(n: nat, p: Pair)
    ensures Next(n, p) / 4 == n && Next(n, p) % 4 == p
  {}

  lemma PairsOfByteOf(p: Pair, q: Pair, r: Pair, s: Pair)
    ensures PairsOfByte(ByteOf(p, q, r, s)) == [p, q, r, s]
  {
    Quarter(Next(Next(p, q), r), s);
    Quarter(Next(p, q), r);
    Quarter(p, q);
  }

  lemma SextetOfPairs(v: Sextet)
    ensures var d := PairsOfSextet(v); SextetOf(d[0], d[1], d[2]) == v
  {}

  lemma PairsOfSextetOf(p: Pair, q: Pair, r: Pair)
    ensures PairsOfSextet(SextetOf(p, q, r)) == [p, q, r]
  {
    Quarter(Next(p, q), r);
    Quarter(p, q);
  }

  lemma {:induction false} StreamLength(bytes: seq<Byte>)
    ensures |Stream(bytes)| == 4 * |bytes|
  {
    if bytes != [] { StreamLength(bytes[1..]); }
  }

  lemma {:induction false} SextetStreamLength(v: seq<Sextet>)
    ensures |SextetStream(v)| == 3 * |v|
  {
    if v != [] { SextetStreamLength(v[1..]); }
  }

  lemma BytesFirst(b: Byte, d: seq<Pair>)
    ensures Bytes(PairsOfByte(b) + d) == [b] + Bytes(d)
  {
    ByteOfPairs(b);
    assert (PairsOfByte(b) + d)[4..] == d;
  }

  lemma SextetsFirst(v: Sextet, d: seq<Pair>)
    ensures Sextets(PairsOfSextet(v) + d) == [v] + Sextets(d)
  {
    SextetOfPairs(v);
    assert (PairsOfSextet(v) + d)[3..] == d;
  }

  /** The stream of the bytes, less than a byte longer, is read back as the bytes. */
  lemma {:induction false} BytesOfStream(bytes: seq<Byte>, more: seq<Pair>)
    requires |more| < 4
    ensures Bytes(Stream(bytes) + more) == bytes
  {
    if bytes == [] {
      assert Stream(bytes) + more == more;
    } else {
      BytesOfStream(bytes[1..], more);
      BytesFirst(bytes[0], Stream(bytes[1..]) + more);
      assert Stream(bytes) + more == PairsOfByte(bytes[0]) + (Stream(bytes[1..]) + more);
      assert bytes == [bytes[0]] + bytes[1..];
    }
  }

  lemma StreamFirst(d: seq<Pair>, bytes: seq<Byte>)
    requires |d| >= 4
    ensures Stream([ByteOf(d[0], d[1], d[2], d[3])] + bytes) == d[..4] + Stream(bytes)
  {
    PairsOfByteOf(d[0], d[1], d[2], d[3]);
    assert ([ByteOf(d[0], d[1], d[2], d[3])] + bytes)[1..] == bytes;
    assert d[..4] == [d[0], d[1], d[2], d[3]];
  }

  /** The pairs that fill whole bytes. */
  function Whole(n: nat): (w: nat)
    ensures w <= n < w + 4
  {
    if n < 4 then 0 else 4 + Whole(n - 4)
  }

  lemma {:induction false} StreamOfBytes(d: seq<Pair>)
    ensures Stream(Bytes(d)) == d[..Whole(|d|)]
  {
    if |d| >= 4 {
      StreamOfBytes(d[4..]);
      StreamFirst(d, Bytes(d[4..]));
      WholeBytes(d);
    }
  }

  lemma WholeBytes(d: seq<Pair>)
    requires |d| >= 4
    ensures d[..Whole(|d|)] == d[..4] + d[4..][..Whole(|d[4..]|)]
  {}

  lemma {:induction false} SextetsOfStream(v: seq<Sextet>)
    ensures Sextets(SextetStream(v)) == v
  {
    if v != [] {
      SextetsOfStream(v[1..]);
      SextetsFirst(v[0], SextetStream(v[1..]));
      assert v == [v[0]] + v[1..];
    }
  }

  /** The zero bits that fill up the last sextet. */
  function Fill(n: nat): (d: seq<Pair>)
    ensures |d| <= 2 && Zero(d)
  {
    if n == 0 then [] else if n == 1 then [0, 0] else if n == 2 then [0] else Fill(n - 3)
  }

  lemma SextetStreamFirst(p: Pair, q: Pair, r: Pair, v: seq<Sextet>)
    ensures SextetStream([SextetOf(p, q, r)] + v) == [p, q, r] + SextetStream(v)
  {
    PairsOfSextetOf(p, q, r);
    assert ([SextetOf(p, q, r)] + v)[1..] == v;
  }

  lemma {:induction false} StreamOfSextets(d: seq<Pair>)
    ensures SextetStream(Sextets(d)) == d + Fill(|d|)
  {
    if d == [] {
    } else if |d| == 1 {
      OneLeft(d[0]);
      assert d == [d[0]];
    } else if |d| == 2 {
      TwoLeft(d[0], d[1]);
      assert d == [d[0], d[1]];
    } else {
      StreamOfSextets(d[3..]);
      SextetStreamFirst(d[0], d[1], d[2], Sextets(d[3..]));
      ThreeFirst(d, Fill(|d| - 3));
    }
  }

  lemma OneLeft(p: Pair)
    ensures SextetStream(Sextets([p])) == [p, 0, 0]
  {
    PairsOfSextetOf(p, 0, 0);
    assert SextetStream([SextetOf(p, 0, 0)]) == [p, 0, 0] + SextetStream([SextetOf(p, 0, 0)][1..]);
  }

  lemma TwoLeft(p: Pair, q: Pair)
    ensures SextetStream(Sextets([p, q])) == [p, q, 0]
  {
    PairsOfSextetOf(p, q, 0);
    assert SextetStream([SextetOf(p, q, 0)]) == [p, q, 0] + SextetStream([SextetOf(p, q, 0)][1..]);
  }

  lemma ThreeFirst(d: seq<Pair>, more: seq<Pair>)
    requires |d| >= 3
    ensures [d[0], d[1], d[2]] + (d[3..] + more) == d + more
  {}

  /** Zero bits that the filling puts back can be dropped. */
  lemma {:induction false} SextetsDropZeros(d: seq<Pair>, n: nat, k: nat)
    requires n <= 2 && n <= |d| && |d| == 3 * k && Zero(d[|d| - n..])
    ensures Sextets(d[..|d| - n]) == Sextets(d)
  {
    var e := d[..|d| - n];
    if |d| == 3 {
      assert forall i :: |d| - n <= i < |d| ==> d[|d| - n..][i - (|d| - n)] == d[i];
    } else if |d| > 3 {
      assert d[3..][|d| - 3 - n..] == d[|d| - n..];
      SextetsDropZeros(d[3..], n, k - 1);
      assert e[3..] == d[3..][..|d| - 3 - n];
    }
  }

  lemma SextetsAreTight(bytes: seq<Byte>)
    ensures Tight(Sextets(Stream(bytes)))
  {
    var d := Stream(bytes);
    var v := Sextets(d);
    StreamLength(bytes);
    StreamOfSextets(d);
    SextetStreamLength(v);
    FilledLength(|v|, |bytes|, |Fill(|d|)|);
    WholeIs(|bytes|, |Fill(|d|)|);
    assert SextetStream(v)[|d|..] == Fill(|d|);
  }

  lemma FilledLength(v: nat, n: nat, f: nat)
    requires 3 * v == 4 * n + f && f <= 2
    ensures v % 4 != 1
  {}

  lemma {:induction false} WholeIs(n: nat, f: nat)
    requires f < 4
    ensures Whole(4 * n + f) == 4 * n
  {
    if n > 0 { WholeIs(n - 1, f); }
  }

  lemma BytesOfSextets(bytes: seq<Byte>)
    ensures Bytes(SextetStream(Sextets(Stream(bytes)))) == bytes
  {
    StreamOfSextets(Stream(bytes));
    BytesOfStream(bytes, Fill(|Stream(bytes)|));
  }

  lemma SextetsOfBytes(v: seq<Sextet>)
    requires Tight(v)
    ensures Sextets(Stream(Bytes(SextetStream(v)))) == v
  {
    var d := SextetStream(v);
    SextetStreamLength(v);
    StreamOfBytes(d);
    Leftover(|v|);
    SextetsDropZeros(d, |d| - Whole(|d|), |v|);
    SextetsOfStream(v);
  }

  lemma {:induction false} Leftover(n: nat)
    requires n % 4 != 1
    ensures 3 * n - Whole(3 * n) <= 2
  {
    if n >= 4 {
      Leftover(n - 4);
      assert Whole(3 * n) == 4 + Whole(3 * n - 4) && Whole(3 * n - 4) == 4 + Whole(3 * n - 8);
      assert Whole(3 * n - 8) == 4 + Whole(3 * n - 12);
    }
  }

  // -------------------------------------------------------------- sextets and symbols

  function Symbol(v: Sextet): char {
    if v < 26 then 'A' + v as char
    else if v < 52 then 'a' + (v - 26) as char
    else if v < 62 then '0' + (v - 52) as char
    else if v == 62 then '+' else '/'
  }

  /** The value of a symbol, None for a character outside the alphabet. */
  function Value(c: char): Option<Sextet> {
    if 'A' <= c <= 'Z' then Some((c - 'A') as int)
    else if 'a' <= c <= 'z' then Some((c - 'a') as int + 26)
    else if '0' <= c <= '9' then Some((c - '0') as int + 52)
    else if c == '+' then Some(62)
    else if c == '/' then Some(63)
    else None
  }

  function Spell(v: seq<Sextet>): string {
    if v == [] then "" else [Symbol(v[0])] + Spell(v[1..])
  }

  function Read(s: string): Option<seq<Sextet>> {
    if s == [] then Some([])
    else if Value(s[0]).None? || Read(s[1..]).None? then None
    else Some([Value(s[0]).value] + Read(s[1..]).value)
  }

  lemma ValueOfSymbol(v: Sextet)
    ensures Value(Symbol(v)) == Some(v) && Symbol(v) != '='
  {}

  lemma SymbolOfValue(c: char)
    requires Value(c).Some?
    ensures Symbol(Value(c).value) == c && c != '='
  {}

  lemma {:induction false} ReadSpell(v: seq<Sextet>)
    ensures Read(Spell(v)) == Some(v) && |Spell(v)| == |v| && '=' !in Spell(v)
  {
    if v != [] {
      ValueOfSymbol(v[0]);
      ReadSpell(v[1..]);
      assert Spell(v)[1..] == Spell(v[1..]) && v == [v[0]] + v[1..];
    }
  }

  lemma {:induction false} SpellRead(s: string)
    requires Read(s).Some?
    ensures Spell(Read(s).value) == s
  {
    if s != [] {
      SymbolOfValue(s[0]);
      SpellRead(s[1..]);
      assert s == [s[0]] + s[1..];
    }
  }

  // ------------------------------------------------------------------- padded text

  function Padding(n: nat): string {
    if n % 4 == 2 then "==" else if n % 4 == 3 then "=" else ""
  }

  function Encode(bytes: seq<Byte>): string {
    var v := Sextets(Stream(bytes));
    Spell(v) + Padding(|v|)
  }

  /** The text before the padding. */
  function Body(s: string): string {
    if |s| >= 2 && s[|s| - 2] == '=' && s[|s| - 1] == '=' then s[..|s| - 2]
    else if |s| >= 1 && s[|s| - 1] == '=' then s[..|s| - 1]
    else s
  }

  /** Canonical text: symbols for whole bytes with the remaining bits zero, padded to a
      multiple of four. */
  predicate Canonical(s: string) {
    Read(Body(s)).Some? && Tight(Read(Body(s)).value) && s == Body(s) + Padding(|Body(s)|)
  }

  function Decode(s: string): seq<Byte>
    requires Canonical(s)
  {
    Bytes(SextetStream(Read(Body(s)).value))
  }

  lemma BodyOfPadded(body: string, n: nat)
    requires '=' !in body
    ensures Body(body + Padding(n)) == body
  {
    var s := body + Padding(n);
    assert s[..|body|] == body;
    assert |body| > 0 ==> body[|body| - 1] in body;
    if Padding(n) == "" { assert s == body; }
  }

  lemma {:induction false} ReadLength(s: string)
    requires Read(s).Some?
    ensures |Read(s).value| == |s| && '=' !in s
  {
    if s != [] {
      SymbolOfValue(s[0]);
      ReadLength(s[1..]);
    }
  }

  /** Encoding gives canonical text, and decoding that gives the bytes back. */
  lemma DecodeEncode(bytes: seq<Byte>)
    ensures Canonical(Encode(bytes)) && Decode(Encode(bytes)) == bytes
  {
    var v := Sextets(Stream(bytes));
    SextetsAreTight(bytes);
    BytesOfSextets(bytes);
    ReadSpell(v);
    BodyOfPadded(Spell(v), |v|);
  }

  /** Canonical text is what encoding gives for the bytes it decodes to. */
  lemma EncodeDecode(s: string)
    requires Canonical(s)
    ensures Encode(Decode(s)) == s
  {
    SextetsOfBytes(Read(Body(s)).value);
    SpellRead(Body(s));
    ReadLength(Body(s));
  }

  /** The length of the encoding of `n` bytes. */
  function Quads(n: int): int { (n + 2) / 3 * 4 }

  lemma PaddedLength(n: nat, k: nat, f: nat)
    requires 3 * k == 4 * n + f && f <= 2
    ensures k + |Padding(k)| == Quads(n)
  {
    var m, e := n / 3, n % 3;
    assert n == 3 * m + e && k == 4 * m + (if e == 0 then 0 else e + 1);
    assert k % 4 == if e == 0 then 0 else e + 1;
  }

  lemma EncodedLength(bytes: seq<Byte>)
    ensures |Encode(bytes)| == Quads(|bytes|)
  {
    var d := Stream(bytes);
    var v := Sextets(d);
    StreamLength(bytes);
    StreamOfSextets(d);
    SextetStreamLength(v);
    ReadSpell(v);
    PaddedLength(|bytes|, |v|, |Fill(|d|)|);
  }

  const ALPHABET := "ABCDEFGHIJKLMNOPQRSTUVWXYZ" + "abcdefghijklmnopqrstuvwxyz" + "0123456789+/"

  /** The symbols are those of Table 1, in its order. */
  lemma SymbolsAre(v: Sextet)
    ensures Symbol(v) == ALPHABET[v]
  {
    if v < 26 {
      assert Symbol(v) == "ABCDEFGHIJKLMNOPQRSTUVWXYZ"[v];
    } else if v < 52 {
      assert Symbol(v) == "abcdefghijklmnopqrstuvwxyz"[v - 26];
    } else {
      assert Symbol(v) == "0123456789+/"[v - 52];
    }
  }

  /** The number that three pairs of bits stand for, the first being the highest. */
  function Six(p: int, q: int, r: int): int { 16 * p + 4 * q + r }

  lemma SextetIs(p: Pair, q: Pair, r: Pair)
    ensures SextetOf(p, q, r) == Six(p, q, r)
  {}

  lemma PairValues(b: Byte)
    ensures var d := PairsOfByte(b);
      && Six(d[0], d[1], d[2]) == b / 4 && Six(d[3], 0, 0) == b % 4 * 16
      && Six(0, d[0], d[1]) == b / 16 && Six(d[2], d[3], 0) == b % 16 * 4
      && Six(0, 0, d[0]) == b / 64 && Six(d[1], d[2], d[3]) == b % 64
  {}

  /** Three bytes are four sextets, and what follows is encoded by itself. */
  lemma GroupIs(a: Byte, b: Byte, c: Byte, rest: seq<Byte>)
    ensures Sextets(Stream([a, b, c] + rest))
         == [a / 4, a % 4 * 16 + b / 16, b % 16 * 4 + c / 64, c % 64] + Sextets(Stream(rest))
  {
    StreamThree(a, b, c, rest);
    TwelvePairs(PairsOfByte(a), PairsOfByte(b), PairsOfByte(c), Stream(rest));
    FirstSextet(a);
    Across(a, b);
    Between(b, c);
    LastSextet(c);
  }

  lemma FirstSextet(a: Byte)
    ensures var x := PairsOfByte(a); Six(x[0], x[1], x[2]) == a / 4
  {
    PairValues(a);
  }

  lemma LastSextet(c: Byte)
    ensures var z := PairsOfByte(c); Six(z[1], z[2], z[3]) == c % 64
  {
    PairValues(c);
  }

  lemma Across(a: Byte, b: Byte)
    ensures var x, y := PairsOfByte(a), PairsOfByte(b); Six(x[3], y[0], y[1]) == a % 4 * 16 + b / 16
  {
    PairValues(a);
    PairValues(b);
  }

  lemma Between(b: Byte, c: Byte)
    ensures var y, z := PairsOfByte(b), PairsOfByte(c); Six(y[2], y[3], z[0]) == b % 16 * 4 + c / 64
  {
    PairValues(b);
    PairValues(c);
  }

  lemma TwelvePairs(x: seq<Pair>, y: seq<Pair>, z: seq<Pair>, d: seq<Pair>)
    requires |x| == |y| == |z| == 4
    ensures Sextets(x + (y + (z + d))) ==
      [Six(x[0], x[1], x[2]), Six(x[3], y[0], y[1]), Six(y[2], y[3], z[0]), Six(z[1], z[2], z[3])] + Sextets(d)
  {
    var e, f := [z[1], z[2], z[3]] + d, [y[2], y[3]] + (z + d);
    Regroup(x, y + (z + d));
    Regroup(y, z + d);
    Regroup(z, d);
    ThreePairs(x[0], x[1], x[2], [x[3]] + (y + (z + d)));
    ThreePairs(x[3], y[0], y[1], f);
    ThreePairs(y[2], y[3], z[0], e);
    ThreePairs(z[1], z[2], z[3], d);
    FourFirst(Six(x[0], x[1], x[2]), Six(x[3], y[0], y[1]), Six(y[2], y[3], z[0]), Six(z[1], z[2], z[3]), Sextets(d));
  }

  lemma FourFirst(a: Sextet, b: Sextet, c: Sextet, d: Sextet, v: seq<Sextet>)
    ensures [a] + ([b] + ([c] + ([d] + v))) == [a, b, c, d] + v
  {}

  /** Four pairs, taken apart before the fourth, the third and the second. */
  lemma Regroup(x: seq<Pair>, d: seq<Pair>)
    requires |x| == 4
    ensures x + d == [x[0], x[1], x[2]] + ([x[3]] + d)
    ensures forall p: Pair :: [p] + (x + d) == [p, x[0], x[1]] + ([x[2], x[3]] + d)
    ensures forall p: Pair, q: Pair :: [p, q] + (x + d) == [p, q, x[0]] + ([x[1], x[2], x[3]] + d)
  {}

  lemma StreamThree(a: Byte, b: Byte, c: Byte, rest: seq<Byte>)
    ensures Stream([a, b, c] + rest) == PairsOfByte(a) + (PairsOfByte(b) + (PairsOfByte(c) + Stream(rest)))
  {
    assert [a, b, c] + rest == [a] + ([b] + ([c] + rest));
    ByteFirst(a, [b] + ([c] + rest));
    ByteFirst(b, [c] + rest);
    ByteFirst(c, rest);
  }

  lemma ByteFirst(b: Byte, rest: seq<Byte>)
    ensures Stream([b] + rest) == PairsOfByte(b) + Stream(rest)
  {
    assert ([b] + rest)[1..] == rest;
  }

  lemma ThreePairs(p: Pair, q: Pair, r: Pair, d: seq<Pair>)
    ensures 0 <= Six(p, q, r) < 64 && Sextets([p, q, r] + d) == [Six(p, q, r)] + Sextets(d)
  {
    SextetIs(p, q, r);
    assert ([p, q, r] + d)[3..] == d;
  }

  /** One byte left. */
  lemma OneByteIs(a: Byte)
    ensures Sextets(Stream([a])) == [a / 4, a % 4 * 16]
  {
    var x := PairsOfByte(a);
    OneByte(a);
    FirstSextet(a);
    LastPair(a);
    SextetIs(x[3], 0, 0);
    assert Sextets([x[3]]) == [Six(x[3], 0, 0)];
    ThreePairs(x[0], x[1], x[2], [x[3]]);
    assert x == [x[0], x[1], x[2]] + [x[3]];
    assert Sextets(x) == [Six(x[0], x[1], x[2])] + [Six(x[3], 0, 0)];
  }

  lemma LastPair(a: Byte)
    ensures Six(PairsOfByte(a)[3], 0, 0) == a % 4 * 16
  {}

  /** Two bytes left. */
  lemma TwoBytesAre(a: Byte, b: Byte)
    ensures Sextets(Stream([a, b])) == [a / 4, a % 4 * 16 + b / 16, b % 16 * 4]
  {
    var x, y := PairsOfByte(a), PairsOfByte(b);
    OneByte(b);
    assert [a, b][1..] == [b];
    FirstSextet(a);
    Across(a, b);
    PairValues(b);
    SextetIs(y[2], y[3], 0);
    assert Sextets([y[2], y[3]]) == [Six(y[2], y[3], 0)];
    ThreePairs(x[0], x[1], x[2], [x[3]] + y);
    ThreePairs(x[3], y[0], y[1], [y[2], y[3]]);
    assert x + y == [x[0], x[1], x[2]] + ([x[3]] + y) && [x[3]] + y == [x[3], y[0], y[1]] + [y[2], y[3]];
  }

  lemma OneByte(b: Byte)
    ensures Stream([b]) == PairsOfByte(b)
  {
    assert [b][1..] == [];
  }

  lemma QuadsGrow(m: int, n: int)
    requires 1 <= m <= n
    ensures 1 <= Quads(m) <= Quads(n) && Quads(m) % 4 == 0
  {}
}

/** Image blocks (packages/sdk/src/rich-image.ts) and the transport buffer they need
    (packages/runtime/src/external-mcp.ts:297-318). */
module ImageGate {
  import opened Options
  import opened Base64

  const RICH_IMAGE_HARD_MAX_BYTES := 5_000_000
  const TRANSPORT_BUFFER_BYTES := 1024 * 1024
  const RICH_TRANSPORT_HEADROOM_BYTES := 256 * 1024
  const RICH_TRANSPORT_HARD_MAX_BYTES := 8 * 1024 * 1024

  const PNG := "image/png"
  const JPEG := "image/jpeg"

  /** A value offered as a block: `data` is None when it is not a string. */
  datatype Block = NotAnObject | Block(kind: string, mimeType: string, data: Option<string>)

  datatype Code = ContractInvalid | SizeLimitExceeded | ConfigInvalid

  datatype Verdict = Accepted(mimeType: string, data: string) | Refused(code: Code)

  /** `Buffer.from(data, 'base64')` skips what it does not know; all that is asked of it
      is that it decodes what was encoded. */
  ghost predicate Decodes(decode: string -> seq<Byte>) {
    forall bytes :: decode(Encode(bytes)) == bytes
  }

  /** There are such decoders: the strict one is. */
  lemma StrictDecoderDecodes()
    ensures Decodes((s: string) => if Canonical(s) then Decode(s) else [])
  {
    forall bytes ensures Canonical(Encode(bytes)) && Decode(Encode(bytes)) == bytes { DecodeEncode(bytes); }
  }

  predicate PngMagic(bytes: seq<Byte>) {
    [137, 80, 78, 71, 13, 10, 26, 10] <= bytes
  }

  predicate JpegMagic(bytes: seq<Byte>) {
    [255, 216, 255] <= bytes
  }

  predicate LegalSize(size: Option<int>) {
    size.Some? && 1 <= size.value <= RICH_IMAGE_HARD_MAX_BYTES
  }

  /** validateRichImageBlock; `max` is None when it is not a safe integer. */
  function Validate(decode: string -> seq<Byte>, block: Block, max: Option<int>, mimeTypes: seq<string>): Verdict {
    if block.NotAnObject? || !LegalSize(max) then Refused(ContractInvalid)
    else if block.kind != "image" || block.mimeType !in [PNG, JPEG] || block.mimeType !in mimeTypes
            || block.data.None? || block.data.value == "" || |block.data.value| > Quads(max.value)
            || |block.data.value| % 4 != 0
      then Refused(ContractInvalid)
    else
      var bytes := decode(block.data.value);
      if bytes == [] || |bytes| > max.value || Encode(bytes) != block.data.value then Refused(SizeLimitExceeded)
      else if (block.mimeType == PNG && !PngMagic(bytes)) || (block.mimeType == JPEG && !JpegMagic(bytes))
        then Refused(ContractInvalid)
      else Accepted(block.mimeType, block.data.value)
  }

  /** What an acceptable block is, without decoding leniently and encoding again. */
  predicate Acceptable(block: Block, max: Option<int>, mimeTypes: seq<string>) {
    && LegalSize(max) && block.Block? && block.kind == "image" && block.mimeType in mimeTypes
    && block.data.Some? && Canonical(block.data.value)
    && var bytes := Decode(block.data.value);
       && 1 <= |bytes| <= max.value
       && ((block.mimeType == PNG && PngMagic(bytes)) || (block.mimeType == JPEG && JpegMagic(bytes)))
  }

  /** A block is accepted exactly when its data is the canonical encoding of 1 to max bytes
      of an allowed type, and is then returned as it was. */
  lemma AcceptedExactly(decode: string -> seq<Byte>, block: Block, max: Option<int>, mimeTypes: seq<string>)
    requires Decodes(decode)
    ensures Validate(decode, block, max, mimeTypes).Accepted? <==> Acceptable(block, max, mimeTypes)
    ensures Acceptable(block, max, mimeTypes) ==>
      Validate(decode, block, max, mimeTypes) == Accepted(block.mimeType, block.data.value)
  {
    if LegalSize(max) && block.Block? && block.data.Some? {
      var data := block.data.value;
      EncodingChecked(decode, data);
      if Canonical(data) && 1 <= |Decode(data)| <= max.value { QuadsGrow(|Decode(data)|, max.value); }
    }
  }

  /** Decoding leniently and encoding again tells the canonical texts apart. */
  lemma EncodingChecked(decode: string -> seq<Byte>, data: string)
    requires Decodes(decode)
    ensures Encode(decode(data)) == data <==> Canonical(data)
    ensures Canonical(data) ==> decode(data) == Decode(data)
    ensures Canonical(data) ==> |data| == Quads(|decode(data)|)
  {
    DecodeEncode(decode(data));
    EncodedLength(decode(data));
    if Canonical(data) { EncodeDecode(data); }
  }

  /** externalMcpTransportBufferBytes; `size` is the image policy's limit, None when images
      are not enabled. The result is None when the limit is refused. */
  function TransportBuffer(stdio: bool, size: Option<int>): Option<int> {
    if !stdio || size.None? then Some(TRANSPORT_BUFFER_BYTES)
    else if !LegalSize(size) then None
    else
      var wanted := Quads(size.value) + RICH_TRANSPORT_HEADROOM_BYTES;
      var raised := if wanted < TRANSPORT_BUFFER_BYTES then TRANSPORT_BUFFER_BYTES else wanted;
      Some(if RICH_TRANSPORT_HARD_MAX_BYTES < raised then RICH_TRANSPORT_HARD_MAX_BYTES else raised)
  }

  /** For every legal policy the buffer holds any block the gate accepts, and all of the
      headroom beside it: the cap of 8 MiB never cuts in. */
  lemma BufferHoldsAcceptedBlocks(decode: string -> seq<Byte>, block: Block, size: int, mimeTypes: seq<string>)
    requires Decodes(decode) && LegalSize(Some(size))
    requires Validate(decode, block, Some(size), mimeTypes).Accepted?
    ensures TransportBuffer(true, Some(size)).Some?
    ensures |block.data.value| + RICH_TRANSPORT_HEADROOM_BYTES <= TransportBuffer(true, Some(size)).value
    ensures TransportBuffer(true, Some(size)).value < RICH_TRANSPORT_HARD_MAX_BYTES
  {
    AcceptedExactly(decode, block, Some(size), mimeTypes);
  }

  /** The bound is met: full-size data takes exactly what the buffer sets aside for it. */
  lemma LongestBlockFits(bytes: seq<Byte>, size: int)
    requires LegalSize(Some(size)) && |bytes| <= size
    ensures |Encode(bytes)| <= Quads(size) && (|bytes| == size ==> |Encode(bytes)| == Quads(size))
    ensures Quads(size) + RICH_TRANSPORT_HEADROOM_BYTES <= TransportBuffer(true, Some(size)).value
  {
    EncodedLength(bytes);
    if bytes != [] { QuadsGrow(|bytes|, size); }
  }

  /** Everything but the decoded bytes is as it should be. */
  predicate Offered(block: Block, max: int, mimeTypes: seq<string>) {
    && block.Block? && block.kind == "image" && block.mimeType in ["image/png", "image/jpeg"]
    && block.mimeType in mimeTypes
    && block.data.Some? && 1 <= |block.data.value| <= (max + 2) / 3 * 4 && |block.data.value| % 4 == 0
  }

  /** Which of the two errors: the size limit speaks for data that is not canonical, empty or
      too long once decoded; everything else is a broken contract. */
  lemma RefusedExactly(decode: string -> seq<Byte>, block: Block, max: Option<int>, mimeTypes: seq<string>)
    requires Decodes(decode)
    ensures var r := Validate(decode, block, max, mimeTypes);
      && (r == Refused(SizeLimitExceeded) <==>
            && max.Some? && 1 <= max.value <= 5_000_000 && Offered(block, max.value, mimeTypes)
            && (Canonical(block.data.value) ==> !(1 <= |Decode(block.data.value)| <= max.value)))
      && (r.Refused? ==> r.code.SizeLimitExceeded? || r.code.ContractInvalid?)
  {
    if block.Block? && block.data.Some? { EncodingChecked(decode, block.data.value); }
  }

  /** The signatures: an accepted PNG begins with \x89PNG\r\n\x1a\n, an accepted JPEG with
      \xff\xd8\xff. */
  lemma AcceptedBegins(decode: string -> seq<Byte>, block: Block, max: Option<int>, mimeTypes: seq<string>)
    requires Decodes(decode) && Validate(decode, block, max, mimeTypes).Accepted?
    ensures block.Block? && block.data.Some? && Canonical(block.data.value)
    ensures var bytes := Decode(block.data.value);
      && (block.mimeType == "image/png" ==>
            |bytes| >= 8 && bytes[..8] == [0x89, 0x50, 0x4E, 0x47, 0x0D, 0x0A, 0x1A, 0x0A])
      && (block.mimeType == "image/jpeg" ==> |bytes| >= 3 && bytes[..3] == [0xFF, 0xD8, 0xFF])
      && (block.mimeType == "image/png" || block.mimeType == "image/jpeg")
  {
    AcceptedExactly(decode, block, max, mimeTypes);
  }
}
