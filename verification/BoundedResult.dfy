/** Tool results cut to a byte limit (packages/mcp-server/src/bounded-result.ts). */
module BoundedResult {
  import opened Options
  import opened Text
  import opened Utf8
  import opened CanonicalJson

  // ------------------------------------------------------------------ JSON.stringify

  /** `JSON.stringify`: keys in the order they stand, a hole as null. */
  function Stringify(v: Json): Text
    decreases v, 1
  {
    match v
    case Null => NULL_TEXT
    case Bool(b) => BoolText(b)
    case Number(n) => NumberText(n)
    case String(s) => Quote(s)
    case Array(items) => [OPEN_BRACKET] + Join(StringifyItems(items)) + [CLOSE_BRACKET]
    case Object(entries) => [OPEN_BRACE] + Join(StringifyEntries(entries)) + [CLOSE_BRACE]
  }

  function BoolText(b: bool): Text { if b then TRUE_TEXT else FALSE_TEXT }

  function StringifyItems(items: seq<Element>): seq<Text>
    decreases items, 0
  {
    if items == [] then []
    else [StringifyItem(items[0])] + StringifyItems(items[1..])
  }

  function StringifyItem(e: Element): Text
    decreases e, 2
  {
    if e.Hole? then NULL_TEXT else Stringify(e.value)
  }

  function StringifyEntries(entries: seq<Keyed<Json>>): seq<Text>
    decreases entries, 0
  {
    if entries == [] then []
    else [Quote(entries[0].key) + [COLON] + Stringify(entries[0].value)] + StringifyEntries(entries[1..])
  }

  // ------------------------------------------------------------------------ preview

  /** The first `n` characters, a surrogate pair counting as one. */
  function Characters(s: Text, n: nat): Text {
    if n == 0 || s == [] then []
    else if Paired(s) then s[..2] + Characters(s[2..], n - 1)
    else s[..1] + Characters(s[1..], n - 1)
  }

  function First<T>(s: seq<T>, n: nat): seq<T> { if |s| <= n then s else s[..n] }

  const DEPTH := 8

  /** preview */
  function Preview(v: Json, width: nat, depth: nat): Json
    decreases depth, 0, 1
  {
    match v
    case String(s) => String(Characters(s, width))
    case Array(items) => if depth == 0 then Null else Array(PreviewItems(First(items, width), width, depth - 1))
    case Object(entries) => if depth == 0 then Null else Object(PreviewEntries(First(entries, width), width, depth - 1))
    case _ => v
  }

  function PreviewItems(items: seq<Element>, width: nat, depth: nat): (r: seq<Element>)
    ensures |r| == |items|
    decreases depth, |items|, 2
  {
    if items == [] then []
    else
      [if items[0].Hole? then Hole else Item(Preview(items[0].value, width, depth))]
      + PreviewItems(items[1..], width, depth)
  }

  function PreviewEntries(entries: seq<Keyed<Json>>, width: nat, depth: nat): (r: seq<Keyed<Json>>)
    ensures |r| == |entries|
    decreases depth, |entries|, 2
  {
    if entries == [] then []
    else [Keyed(entries[0].key, Preview(entries[0].value, width, depth))] + PreviewEntries(entries[1..], width, depth)
  }

  // ------------------------------------------------------------------- the envelope

  function Ascii(s: string): (t: Text)
    ensures |t| == |s|
  {
    seq(|s|, i requires 0 <= i < |s| => if s[i] as int < 128 then s[i] as int else 63)
  }

  function Digits(n: nat): Text {
    if n < 10 then [48 + n] else Digits(n / 10) + [48 + n % 10]
  }

  const DATA := Ascii("{\"data\":")
  const TRUNCATION := Ascii(",\"truncation\":{\"truncated\":")
  const ORIGINAL_BYTES := Ascii(",\"originalBytes\":")
  const RETURNED_BYTES := Ascii(",\"returnedBytes\":")
  const LIMIT_BYTES := Ascii(",\"limitBytes\":")
  const ENVELOPE_END := Ascii("}}")
  const CONTENT := Ascii("{\"content\":[{\"type\":\"text\",\"text\":")
  const STRUCTURED := Ascii("}],\"structuredContent\":")
  const IS_ERROR := Ascii(",\"isError\":")
  const RESULT_END := Ascii("}")

  /** The data with the account of its truncation. */
  datatype Envelope = Envelope(data: Json, truncated: bool, originalBytes: nat, returnedBytes: nat, limitBytes: nat)

  function EnvelopeText(e: Envelope): Text {
    DATA + Stringify(e.data) + TRUNCATION + BoolText(e.truncated) + ORIGINAL_BYTES + Digits(e.originalBytes)
    + RETURNED_BYTES + Digits(e.returnedBytes) + LIMIT_BYTES + Digits(e.limitBytes) + ENVELOPE_END
  }

  /** The serialised result: the envelope's text as a string, and the envelope itself. */
  function ResultText(e: Envelope, isError: bool): Text {
    CONTENT + Quote(EnvelopeText(e)) + STRUCTURED + EnvelopeText(e) + IS_ERROR + BoolText(isError) + RESULT_END
  }

  const MIN_BYTES := 1024
  const MAX_BYTES := 64 * 1024
  const RESERVED := 256
  const SAFE_INTEGERS := 0x20_0000_0000_0000

  /** `make` */
  function Make(original: Json, value: Json, truncated: bool, limit: nat): Envelope {
    Envelope(value, truncated, Bytes(Stringify(original)), Bytes(Stringify(value)), limit)
  }

  predicate Fits(e: Envelope, isError: bool) {
    Bytes(ResultText(e, isError)) <= e.limitBytes - RESERVED
  }

  datatype Outcome = Result(envelope: Envelope) | RangeError | TypeError

  // --------------------------------------------------------------- the null fallback

  /** Characters that take one byte and no six-character escape. */
  predicate Plain(s: Text) {
    forall i :: 0 <= i < |s| ==> 32 <= s[i] < 127
  }

  lemma {:induction false} PlainBytes(s: Text)
    requires Plain(s)
    ensures Bytes(s) == |s|
  {
    if s != [] { PlainBytes(s[1..]); }
  }

  lemma {:induction false} PlainEscape(s: Text)
    requires Plain(s)
    ensures Plain(Escape(s)) && |Escape(s)| <= 2 * |s|
  {
    if s != [] { PlainEscape(s[1..]); }
  }

  lemma {:induction false} PlainDigits(n: nat)
    ensures Plain(Digits(n)) && Digits(n) != []
  {
    if n >= 10 { PlainDigits(n / 10); }
  }

  function Ten(k: nat): nat { if k == 0 then 1 else 10 * Ten(k - 1) }

  lemma {:induction false} DigitsLength(n: nat, k: nat)
    requires n < Ten(k) && k > 0
    ensures |Digits(n)| <= k
  {
    if n >= 10 {
      assert k > 1 by { assert Ten(1) == 10 * Ten(0); }
      DigitsLength(n / 10, k - 1);
    }
  }

  lemma PlainData()
    ensures Plain(DATA) && |DATA| <= 8
  {}

  lemma PlainTruncation()
    ensures Plain(TRUNCATION) && |TRUNCATION| <= 27
  {}

  lemma PlainOriginalBytes()
    ensures Plain(ORIGINAL_BYTES) && |ORIGINAL_BYTES| <= 17
  {}

  lemma PlainReturnedBytes()
    ensures Plain(RETURNED_BYTES) && |RETURNED_BYTES| <= 17
  {}

  lemma PlainLimitBytes()
    ensures Plain(LIMIT_BYTES) && |LIMIT_BYTES| <= 14
  {}

  lemma PlainEnvelopeEnd()
    ensures Plain(ENVELOPE_END) && |ENVELOPE_END| <= 2
  {}

  lemma PlainContent()
    ensures Plain(CONTENT) && |CONTENT| <= 34
  {}

  lemma PlainStructured()
    ensures Plain(STRUCTURED) && |STRUCTURED| <= 23
  {}

  lemma PlainIsError()
    ensures Plain(IS_ERROR) && |IS_ERROR| <= 11
  {}

  lemma PlainResultEnd()
    ensures Plain(RESULT_END) && |RESULT_END| <= 1
  {}

  lemma PlainConcat(s: Text, t: Text)
    requires Plain(s) && Plain(t)
    ensures Plain(s + t)
  {}

  lemma PlainConcat5(a: Text, b: Text, c: Text, d: Text, e: Text)
    requires Plain(a) && Plain(b) && Plain(c) && Plain(d) && Plain(e)
    ensures Plain(a + b + c + d + e)
  {
    PlainConcat(a, b);
    PlainConcat(a + b, c);
    PlainConcat(a + b + c, d);
    PlainConcat(a + b + c + d, e);
  }

  /** Eleven plain texts after one another. */
  lemma PlainEnvelope(a: Text, b: Text, c: Text, d: Text, e: Text, f: Text, g: Text, h: Text, i: Text, j: Text, k: Text)
    requires Plain(a) && Plain(b) && Plain(c) && Plain(d) && Plain(e) && Plain(f)
    requires Plain(g) && Plain(h) && Plain(i) && Plain(j) && Plain(k)
    ensures Plain(a + b + c + d + e + f + g + h + i + j + k)
  {
    PlainConcat5(a, b, c, d, e);
    PlainConcat5(a + b + c + d + e, f, g, h, i);
    PlainConcat(a + b + c + d + e + f + g + h + i, j);
    PlainConcat(a + b + c + d + e + f + g + h + i + j, k);
  }

  lemma PlainResult(a: Text, b: Text, c: Text, d: Text, e: Text, f: Text, g: Text)
    requires Plain(a) && Plain(b) && Plain(c) && Plain(d) && Plain(e) && Plain(f) && Plain(g)
    ensures Bytes(a + b + c + d + e + f + g) == |a| + |b| + |c| + |d| + |e| + |f| + |g|
  {
    PlainConcat5(a, b, c, d, e);
    PlainConcat(a + b + c + d + e, f);
    PlainConcat(a + b + c + d + e + f, g);
    PlainBytes(a + b + c + d + e + f + g);
  }

  lemma PlainBool(b: bool)
    ensures Plain(BoolText(b)) && |BoolText(b)| <= 5
  {}

  lemma PlainQuote(text: Text)
    requires Plain(text)
    ensures Plain(Quote(text)) && |Quote(text)| <= 2 * |text| + 2
  {
    PlainEscape(text);
    PlainConcat([QUOTATION], Escape(text));
    PlainConcat([QUOTATION] + Escape(text), [QUOTATION]);
  }

  lemma PlainDigitTexts(e: Envelope)
    requires e.originalBytes < SAFE_INTEGERS && e.returnedBytes == 4 && e.limitBytes <= MAX_BYTES
    ensures Plain(Digits(e.originalBytes)) && Plain(Digits(e.returnedBytes)) && Plain(Digits(e.limitBytes))
    ensures |Digits(e.originalBytes)| <= 16 && |Digits(e.returnedBytes)| <= 1 && |Digits(e.limitBytes)| <= 5
  {
    PlainDigits(e.originalBytes);
    PlainDigits(e.returnedBytes);
    PlainDigits(e.limitBytes);
    TenOf();
    DigitsLength(e.originalBytes, 16);
    DigitsLength(e.returnedBytes, 1);
    DigitsLength(e.limitBytes, 5);
  }

  /** The envelope around null is plain and short. */
  lemma NullEnvelope(e: Envelope)
    requires e.data == Null && e.originalBytes < SAFE_INTEGERS && e.returnedBytes == 4 && e.limitBytes <= MAX_BYTES
    ensures Plain(EnvelopeText(e)) && |EnvelopeText(e)| <= 140
  {
    PlainData();
    PlainTruncation();
    PlainOriginalBytes();
    PlainReturnedBytes();
    PlainLimitBytes();
    PlainEnvelopeEnd();
    PlainDigitTexts(e);
    PlainEnvelope(DATA, Stringify(e.data), TRUNCATION, BoolText(e.truncated), ORIGINAL_BYTES, Digits(e.originalBytes),
                  RETURNED_BYTES, Digits(e.returnedBytes), LIMIT_BYTES, Digits(e.limitBytes), ENVELOPE_END);
  }

  lemma TenOf()
    ensures Ten(16) > SAFE_INTEGERS && Ten(5) > MAX_BYTES && Ten(1) == 10
  {
    assert Ten(5) == 100_000;
    assert Ten(10) == 10_000_000_000;
    assert Ten(16) == 10_000_000_000_000_000;
  }

  /** The fallback, which is returned without being measured, fits every legal limit. */
  lemma NullFits(original: Json, limit: nat, isError: bool)
    requires Bytes(Stringify(original)) < SAFE_INTEGERS && MIN_BYTES <= limit <= MAX_BYTES
    ensures Fits(Make(original, Null, true, limit), isError)
  {
    var e := Make(original, Null, true, limit);
    PlainBytes(NULL_TEXT);
    NullEnvelope(e);
    NullResult(EnvelopeText(e), isError);
  }

  lemma NullResult(text: Text, isError: bool)
    requires Plain(text) && |text| <= 140
    ensures Bytes(CONTENT + Quote(text) + STRUCTURED + text + IS_ERROR + BoolText(isError) + RESULT_END)
         <= MIN_BYTES - RESERVED
  {
    PlainQuote(text);
    PlainContent();
    PlainStructured();
    PlainIsError();
    PlainResultEnd();
    PlainBool(isError);
    PlainResult(CONTENT, Quote(text), STRUCTURED, text, IS_ERROR, BoolText(isError), RESULT_END);
  }

  // ------------------------------------------------------------------- the reduction

  /** The first width of 512, 256, ... 1 that fits. */
  function Reduced(v: Json, width: nat, limit: nat, isError: bool): Option<Json> {
    if width == 0 then None
    else if Fits(Make(v, Preview(v, width, DEPTH), true, limit), isError) then Some(Preview(v, width, DEPTH))
    else Reduced(v, width / 2, limit, isError)
  }

  /** The widths tried from `width` on. */
  function Tried(width: nat): set<nat> {
    if width == 0 then {} else {width} + Tried(width / 2)
  }

  predicate FitsAt(v: Json, width: nat, limit: nat, isError: bool) {
    Fits(Make(v, Preview(v, width, DEPTH), true, limit), isError)
  }

  lemma {:induction false} TriedIsLess(width: nat)
    ensures forall w :: w in Tried(width) ==> w <= width
  {
    if width > 0 { TriedIsLess(width / 2); }
  }

  lemma WidestStays(v: Json, w: nat, width: nat, limit: nat, isError: bool)
    requires width > 0 && Widest(v, w, width / 2, limit, isError) && !FitsAt(v, width, limit, isError)
    ensures Widest(v, w, width, limit, isError)
  {}

  /** What comes back is the preview at the greatest width tried that fits, if any fits. */
  lemma {:induction false} ReducedIsWidest(v: Json, width: nat, limit: nat, isError: bool)
    ensures var r := Reduced(v, width, limit, isError);
      if r.None? then forall w :: w in Tried(width) ==> !FitsAt(v, w, limit, isError)
      else exists w :: w in Tried(width) && r.value == Preview(v, w, DEPTH) && Widest(v, w, width, limit, isError)
  {
    if width > 0 {
      ReducedIsWidest(v, width / 2, limit, isError);
      var r := Reduced(v, width, limit, isError);
      if FitsAt(v, width, limit, isError) {
        TriedIsLess(width);
        assert Widest(v, width, width, limit, isError);
      } else if r.Some? {
        var w :| w in Tried(width / 2) && r.value == Preview(v, w, DEPTH) && Widest(v, w, width / 2, limit, isError);
        WidestStays(v, w, width, limit, isError);
      }
    }
  }

  predicate Widest(v: Json, w: nat, width: nat, limit: nat, isError: bool) {
    FitsAt(v, w, limit, isError) && forall u :: u in Tried(width) && u > w ==> !FitsAt(v, u, limit, isError)
  }

  /** boundedResult; `data` is None when it is not JSON, `limit` when it is not a safe integer. */
  method Bound(data: Option<Json>, isError: bool, limit: Option<int>) returns (r: Outcome)
    requires data.Some? ==> Bytes(Stringify(data.value)) < SAFE_INTEGERS
    ensures r.RangeError? <==> limit.None? || !(MIN_BYTES <= limit.value <= MAX_BYTES)
    ensures r.RangeError? <==> limit.None? || limit.value < 1_024 || limit.value > 65_536
    ensures r.Result? ==> Bytes(ResultText(r.envelope, isError)) <= limit.value - 256
    ensures r.TypeError? <==> !r.RangeError? && data.None?
    ensures r.Result? ==> Fits(r.envelope, isError) && r.envelope.limitBytes == limit.value
    ensures r.Result? ==> r.envelope.originalBytes == Bytes(Stringify(data.value))
    ensures r.Result? ==> r.envelope.returnedBytes == Bytes(Stringify(r.envelope.data))
    ensures r.Result? && !r.envelope.truncated ==> r.envelope.data == data.value
    ensures r.Result? && r.envelope.truncated ==> !Fits(Make(data.value, data.value, false, limit.value), isError)
    ensures r.Result? && r.envelope.truncated ==>
              r.envelope.data == Reduced(data.value, 512, limit.value, isError).Or(Null)
  {
    if limit.None? || limit.value < MIN_BYTES || limit.value > MAX_BYTES { return RangeError; }
    if data.None? { return TypeError; }
    var v, bytes := data.value, limit.value;
    var full := Make(v, v, false, bytes);
    if Fits(full, isError) { return Result(full); }
    var width := 512;
    while width >= 1
      invariant 0 <= width <= 512
      invariant Reduced(v, width, bytes, isError) == Reduced(v, 512, bytes, isError)
    {
      var reduced := Make(v, Preview(v, width, DEPTH), true, bytes);
      if Fits(reduced, isError) { return Result(reduced); }
      width := width / 2;
    }
    NullFits(v, bytes, isError);
    return Result(Make(v, Null, true, bytes));
  }

  // ---------------------------------------------------------- previews of previews

  lemma {:induction false} CharactersPrefix(s: Text, n: nat)
    ensures |Characters(s, n)| <= |s| && Characters(s, n) == s[..|Characters(s, n)|]
    ensures Paired(s) && n > 0 ==> |Characters(s, n)| >= 2
    ensures n > 1 && |s| > 1 ==> |Characters(s, n)| >= 2
  {
    if n > 0 && s != [] {
      CharactersPrefix(if Paired(s) then s[2..] else s[1..], n - 1);
    }
  }

  /** Cutting twice is cutting to the smaller number. */
  lemma {:induction false} CharactersTwice(s: Text, m: nat, n: nat)
    requires n <= m
    ensures Characters(Characters(s, m), n) == Characters(s, n)
    decreases n
  {
    if n > 0 && s != [] {
      var t := Characters(s, m);
      CharactersPrefix(s, m);
      if Paired(s) {
        assert t == s[..2] + Characters(s[2..], m - 1);
        assert Paired(t) && t[2..] == Characters(s[2..], m - 1) && t[..2] == s[..2];
        CharactersTwice(s[2..], m - 1, n - 1);
      } else {
        assert t == s[..1] + Characters(s[1..], m - 1);
        assert !Paired(t) && t[1..] == Characters(s[1..], m - 1) && t[..1] == s[..1];
        CharactersTwice(s[1..], m - 1, n - 1);
      }
    }
  }

  lemma FirstTwice<T>(s: seq<T>, m: nat, n: nat)
    requires n <= m
    ensures First(First(s, m), n) == First(s, n)
  {}

  lemma {:induction false} PreviewItemsFirst(items: seq<Element>, width: nat, depth: nat, n: nat)
    ensures First(PreviewItems(items, width, depth), n) == PreviewItems(First(items, n), width, depth)
    decreases |items|
  {
    if items != [] && n > 0 {
      PreviewItemsFirst(items[1..], width, depth, n - 1);
      assert First(items, n) == [items[0]] + First(items[1..], n - 1);
    }
  }

  lemma {:induction false} PreviewEntriesFirst(entries: seq<Keyed<Json>>, width: nat, depth: nat, n: nat)
    ensures First(PreviewEntries(entries, width, depth), n) == PreviewEntries(First(entries, n), width, depth)
    decreases |entries|
  {
    if entries != [] && n > 0 {
      PreviewEntriesFirst(entries[1..], width, depth, n - 1);
      assert First(entries, n) == [entries[0]] + First(entries[1..], n - 1);
    }
  }

  /** A preview of a preview, at a smaller width, is the preview at that width alone. */
  lemma {:induction false} PreviewTwice(v: Json, m: nat, n: nat, depth: nat)
    requires n <= m
    ensures Preview(Preview(v, m, depth), n, depth) == Preview(v, n, depth)
    decreases depth, 0, 1
  {
    match v
    case String(s) => CharactersTwice(s, m, n);
    case Array(items) =>
      if depth > 0 {
        PreviewItemsFirst(First(items, m), m, depth - 1, n);
        FirstTwice(items, m, n);
        PreviewItemsTwice(First(items, n), m, n, depth - 1);
      }
    case Object(entries) =>
      if depth > 0 {
        PreviewEntriesFirst(First(entries, m), m, depth - 1, n);
        FirstTwice(entries, m, n);
        PreviewEntriesTwice(First(entries, n), m, n, depth - 1);
      }
    case _ =>
  }

  lemma {:induction false} PreviewItemsTwice(items: seq<Element>, m: nat, n: nat, depth: nat)
    requires n <= m
    ensures PreviewItems(PreviewItems(items, m, depth), n, depth) == PreviewItems(items, n, depth)
    decreases depth, |items|, 2
  {
    if items != [] {
      if items[0].Item? { PreviewTwice(items[0].value, m, n, depth); }
      PreviewItemsTwice(items[1..], m, n, depth);
      assert PreviewItems(items, m, depth)[1..] == PreviewItems(items[1..], m, depth);
    }
  }

  lemma {:induction false} PreviewEntriesTwice(entries: seq<Keyed<Json>>, m: nat, n: nat, depth: nat)
    requires n <= m
    ensures PreviewEntries(PreviewEntries(entries, m, depth), n, depth) == PreviewEntries(entries, n, depth)
    decreases depth, |entries|, 2
  {
    if entries != [] {
      PreviewTwice(entries[0].value, m, n, depth);
      PreviewEntriesTwice(entries[1..], m, n, depth);
      assert PreviewEntries(entries, m, depth)[1..] == PreviewEntries(entries[1..], m, depth);
    }
  }

  // ------------------------------------------------------------- what a preview shows

  /** The number of characters. */
  function Count(s: Text): nat {
    if s == [] then 0 else 1 + Count(if Paired(s) then s[2..] else s[1..])
  }

  /** The text is the first characters of another, `width` of them or all; no pair is split. */
  predicate Begins(t: Text, s: Text, width: nat) {
    && |t| <= |s| && t == s[..|t|] && Count(t) + Count(s[|t|..]) == Count(s)
    && Count(t) == if Count(s) <= width then Count(s) else width
  }

  lemma {:induction false} CharactersBegin(s: Text, n: nat)
    ensures Begins(Characters(s, n), s, n)
    decreases n
  {
    if n > 0 && s != [] {
      var k := if Paired(s) then 2 else 1;
      var t, more := Characters(s, n), Characters(s[k..], n - 1);
      CharactersBegin(s[k..], n - 1);
      CharactersPrefix(s, n);
      assert t == s[..k] + more && t[k..] == more && s[k..][|more|..] == s[|t|..];
      assert Paired(t) <==> Paired(s);
    }
  }

  /** What a value shows `depth` levels down at a width: scalars as they are, strings by their
      first characters, arrays and objects by their first members, deeper ones as null. */
  predicate Shows(v: Json, p: Json, width: nat, depth: nat) {
    match v
    case String(s) => p.String? && Begins(p.s, s, width)
    case Array(items) =>
      if depth == 0 then p == Null
      else
        && p.Array? && |p.items| == (if |items| < width then |items| else width)
        && forall i :: 0 <= i < |p.items| ==>
             if items[i].Hole? then p.items[i].Hole?
             else p.items[i].Item? && Shows(items[i].value, p.items[i].value, width, depth - 1)
    case Object(entries) =>
      if depth == 0 then p == Null
      else
        && p.Object? && |p.entries| == (if |entries| < width then |entries| else width)
        && forall i :: 0 <= i < |p.entries| ==>
             p.entries[i].key == entries[i].key && Shows(entries[i].value, p.entries[i].value, width, depth - 1)
    case _ => p == v
  }

  lemma {:induction false} PreviewShows(v: Json, width: nat, depth: nat)
    ensures Shows(v, Preview(v, width, depth), width, depth)
    decreases depth, 0
  {
    match v
    case String(s) => CharactersBegin(s, width);
    case Array(items) => if depth > 0 { ItemsShown(First(items, width), width, depth - 1); }
    case Object(entries) => if depth > 0 { EntriesShown(First(entries, width), width, depth - 1); }
    case _ =>
  }

  lemma {:induction false} ItemsShown(items: seq<Element>, width: nat, depth: nat)
    ensures forall i :: 0 <= i < |items| ==>
      var p := PreviewItems(items, width, depth)[i];
      if items[i].Hole? then p.Hole? else p.Item? && Shows(items[i].value, p.value, width, depth)
    decreases depth, 1, |items|
  {
    if items != [] {
      if items[0].Item? { PreviewShows(items[0].value, width, depth); }
      ItemsShown(items[1..], width, depth);
    }
  }

  lemma {:induction false} EntriesShown(entries: seq<Keyed<Json>>, width: nat, depth: nat)
    ensures forall i :: 0 <= i < |entries| ==>
      var p := PreviewEntries(entries, width, depth)[i];
      p.key == entries[i].key && Shows(entries[i].value, p.value, width, depth)
    decreases depth, 1, |entries|
  {
    if entries != [] {
      PreviewShows(entries[0].value, width, depth);
      EntriesShown(entries[1..], width, depth);
    }
  }
}
