/** What a client reads of a bounded result: its text is JSON, and the envelope it finds in
    the text content is the structured content. */
module ResultReader {
  import opened Options
  import opened Text
  import opened CanonicalJson
  import opened CanonicalInjective
  import opened BoundedResult
  import opened JsonReader

  /** The text has the items of each array and the members of each object in their order;
      a hole reads as null. */
  predicate Mirrors(v: Json, t: Tree) {
    match v
    case Null => t.NullTree?
    case Bool(b) => t == Truth(b)
    case Number(n) => t == Num(if n.NegativeZero? then ['0' as int] else n.token)
    case String(s) => t == Str(s)
    case Array(items) =>
      && t.Arr? && |t.items| == |items|
      && forall i :: 0 <= i < |items| ==>
           if items[i].Hole? then t.items[i].NullTree? else Mirrors(items[i].value, t.items[i])
    case Object(entries) =>
      && t.Obj? && |t.members| == |entries|
      && forall i :: 0 <= i < |entries| ==>
           t.members[i].key == entries[i].key && Mirrors(entries[i].value, t.members[i].value)
  }

  lemma {:induction false} StringifyReads(v: Json) returns (t: Tree)
    ensures ReadsAs(Stringify(v), t) && Mirrors(v, t)
    decreases v, 0
  {
    match v {
      case Null => t := NullTree; WordReads(NULL_TEXT, t);
      case Bool(b) => t := Truth(b); WordReads(BoolText(b), t);
      case Number(n) => t := Num(NumberText(n)); NumberReads(NumberText(n));
      case String(s) => t := Str(s); StringReads(s);
      case Array(items) =>
        var ts := ItemsStringified(items);
        ArrayReads(StringifyItems(items), ts);
        t := Arr(ts);
      case Object(entries) =>
        var ms := EntriesStringified(entries);
        ObjectReads(StringifyEntries(entries), ms);
        t := Obj(ms);
    }
  }

  lemma {:induction false} ItemsStringified(items: seq<Element>) returns (ts: seq<Tree>)
    ensures |ts| == |items| && |StringifyItems(items)| == |items|
    ensures forall i :: 0 <= i < |items| ==>
      && ReadsAs(StringifyItems(items)[i], ts[i])
      && if items[i].Hole? then ts[i].NullTree? else Mirrors(items[i].value, ts[i])
    decreases items, 0
  {
    if items == [] {
      ts := [];
    } else {
      var t := ItemStringified(items[0]);
      var more := ItemsStringified(items[1..]);
      ts := [t] + more;
    }
  }

  lemma {:induction false} ItemStringified(e: Element) returns (t: Tree)
    ensures ReadsAs(StringifyItem(e), t) && if e.Hole? then t.NullTree? else Mirrors(e.value, t)
    decreases e, 1
  {
    if e.Hole? {
      t := NullTree;
      WordReads(NULL_TEXT, t);
    } else {
      t := StringifyReads(e.value);
    }
  }

  lemma {:induction false} EntriesStringified(entries: seq<Keyed<Json>>) returns (ms: seq<Keyed<Tree>>)
    ensures |ms| == |entries| && |StringifyEntries(entries)| == |entries|
    ensures forall i :: 0 <= i < |entries| ==>
      && MemberReadsAs(StringifyEntries(entries)[i], ms[i])
      && ms[i].key == entries[i].key && Mirrors(entries[i].value, ms[i].value)
    decreases entries, 0
  {
    if entries == [] {
      ms := [];
    } else {
      var e := entries[0];
      var t := StringifyReads(e.value);
      var more := EntriesStringified(entries[1..]);
      ms := [Keyed(e.key, t)] + more;
      assert MemberReadsAs(Quote(e.key) + [COLON] + Stringify(e.value), Keyed(e.key, t));
    }
  }

  /** Every text of `JSON.stringify` reads as the value it was made of. */
  lemma StringifyIsJson(v: Json)
    ensures Read(Stringify(v)).Some? && Mirrors(v, Read(Stringify(v)).value)
  {
    var t := StringifyReads(v);
    WholeText(Stringify(v), t);
  }

  // ------------------------------------------------------------------ the envelope

  /** The number that decimal digits stand for. */
  function Amount(digits: Text): int {
    if digits == [] then 0
    else 10 * Amount(digits[..|digits| - 1]) + digits[|digits| - 1] - '0' as int
  }

  lemma {:induction false} DigitsAmount(n: nat)
    ensures Amount(Digits(n)) == n && IsNumberToken(Digits(n))
    ensures n > 0 ==> Digits(n)[0] != '0' as int
  {
    if n < 10 {
      assert [48 + n][..0] == [];
    } else {
      DigitsAmount(n / 10);
      var front := Digits(n / 10);
      assert Digits(n)[..|Digits(n)| - 1] == front;
      forall i | 0 <= i < |Digits(n)| ensures 48 <= Digits(n)[i] <= 57 || Digits(n)[i] in {43, 45, 46, 101} {
        if i < |front| { assert Digits(n)[i] == front[i]; }
      }
    }
  }

  lemma AmountReads(n: nat, rest: Text)
    requires Follows(rest)
    ensures ReadValue(Digits(n) + rest) == Reading(Num(Digits(n)), rest)
  {
    DigitsAmount(n);
    NumberReads(Digits(n));
  }

  predicate Letters(k: string) {
    forall i :: 0 <= i < |k| ==> 'a' <= k[i] <= 'z' || 'A' <= k[i] <= 'Z'
  }

  lemma AsciiConcat(a: string, b: string)
    ensures Ascii(a + b) == Ascii(a) + Ascii(b)
  {}

  lemma {:induction false} LettersRead(k: string, w: Text)
    requires Letters(k)
    ensures ReadString(Ascii(k) + ([QUOTATION] + w)) == Reading(Ascii(k), w)
  {
    var rest := [QUOTATION] + w;
    if k == "" {
      assert Ascii(k) + rest == rest && rest[1..] == w;
    } else {
      LettersRead(k[1..], w);
      var u := Ascii(k)[0];
      assert k == [k[0]] + k[1..];
      AsciiConcat([k[0]], k[1..]);
      assert Ascii(k) == [u] + Ascii(k[1..]);
      Assoc([u], Ascii(k[1..]), rest);
      LetterReads(u, Ascii(k[1..]) + rest);
      StringStep(u, Ascii(k[1..]), [u], Ascii(k[1..]) + rest, w);
    }
  }

  lemma LetterReads(u: CodeUnit, s: Text)
    requires 'A' as int <= u <= 'Z' as int || 'a' as int <= u <= 'z' as int
    ensures ReadUnit([u] + s) == Reading(u, s)
  {
    assert ([u] + s)[1..] == s;
  }

  function Key(k: string): Text { Ascii("\"" + k + "\":") }

  /** A key and its colon in front of a value. */
  lemma MemberFrom(k: string, w: Text, t: Tree, rest: Text)
    requires Letters(k) && ReadValue(w) == Reading(t, rest)
    ensures ReadMember(Key(k) + w) == Reading(Keyed(Ascii(k), t), rest)
  {
    AsciiConcat("\"", k + "\":");
    AsciiConcat(k, "\":");
    assert "\"" + k + "\":" == "\"" + (k + "\":");
    assert Ascii("\"") == [QUOTATION] && Ascii("\":") == [QUOTATION, COLON];
    Assoc([QUOTATION], Ascii(k) + [QUOTATION, COLON], w);
    Assoc(Ascii(k), [QUOTATION, COLON], w);
    var after := [COLON] + w;
    assert [QUOTATION, COLON] + w == [QUOTATION] + after;
    LettersRead(k, after);
    var x := Key(k) + w;
    assert x[1..] == Ascii(k) + ([QUOTATION] + after) && after[1..] == w;
  }

  lemma LastMember(k: string, w: Text, t: Tree, s: Text)
    requires Letters(k) && ReadValue(w) == Reading(t, [CLOSE_BRACE] + s)
    ensures ReadMembers(Key(k) + w) == Reading([Keyed(Ascii(k), t)], s)
  {
    MemberFrom(k, w, t, [CLOSE_BRACE] + s);
    assert ([CLOSE_BRACE] + s)[1..] == s;
  }

  lemma MoreMembers(k: string, w: Text, t: Tree, more: Text, ms: seq<Keyed<Tree>>, s: Text)
    requires Letters(k) && ReadValue(w) == Reading(t, [COMMA] + more) && ReadMembers(more) == Reading(ms, s)
    ensures ReadMembers(Key(k) + w) == Reading([Keyed(Ascii(k), t)] + ms, s)
  {
    MemberFrom(k, w, t, [COMMA] + more);
    assert ([COMMA] + more)[1..] == more;
  }

  function AccountTree(e: Envelope): Tree {
    Obj([Keyed(Ascii("truncated"), Truth(e.truncated)),
         Keyed(Ascii("originalBytes"), Num(Digits(e.originalBytes))),
         Keyed(Ascii("returnedBytes"), Num(Digits(e.returnedBytes))),
         Keyed(Ascii("limitBytes"), Num(Digits(e.limitBytes)))])
  }

  function EnvelopeTree(data: Tree, e: Envelope): Tree {
    Obj([Keyed(Ascii("data"), data), Keyed(Ascii("truncation"), AccountTree(e))])
  }

  /** The members of the account from its limit, its returned bytes, its original bytes on. */
  function LimitThen(e: Envelope, s: Text): Text {
    Key("limitBytes") + (Digits(e.limitBytes) + ([CLOSE_BRACE] + s))
  }

  function ReturnedThen(e: Envelope, s: Text): Text {
    Key("returnedBytes") + (Digits(e.returnedBytes) + ([COMMA] + LimitThen(e, s)))
  }

  function OriginalThen(e: Envelope, s: Text): Text {
    Key("originalBytes") + (Digits(e.originalBytes) + ([COMMA] + ReturnedThen(e, s)))
  }

  function AccountThen(e: Envelope, s: Text): Text {
    [OPEN_BRACE] + (Key("truncated") + (BoolText(e.truncated) + ([COMMA] + OriginalThen(e, s))))
  }

  function LimitMembers(e: Envelope): seq<Keyed<Tree>> { [Keyed(Ascii("limitBytes"), Num(Digits(e.limitBytes)))] }

  function ReturnedMembers(e: Envelope): seq<Keyed<Tree>> {
    [Keyed(Ascii("returnedBytes"), Num(Digits(e.returnedBytes)))] + LimitMembers(e)
  }

  function OriginalMembers(e: Envelope): seq<Keyed<Tree>> {
    [Keyed(Ascii("originalBytes"), Num(Digits(e.originalBytes)))] + ReturnedMembers(e)
  }

  lemma LimitReads(e: Envelope, s: Text)
    ensures ReadMembers(LimitThen(e, s)) == Reading(LimitMembers(e), s)
  {
    AmountReads(e.limitBytes, [CLOSE_BRACE] + s);
    LastMember("limitBytes", Digits(e.limitBytes) + ([CLOSE_BRACE] + s), Num(Digits(e.limitBytes)), s);
  }

  lemma ReturnedReads(e: Envelope, s: Text)
    ensures ReadMembers(ReturnedThen(e, s)) == Reading(ReturnedMembers(e), s)
  {
    var more := LimitThen(e, s);
    LimitReads(e, s);
    AmountReads(e.returnedBytes, [COMMA] + more);
    MoreMembers("returnedBytes", Digits(e.returnedBytes) + ([COMMA] + more), Num(Digits(e.returnedBytes)), more,
                LimitMembers(e), s);
  }

  lemma OriginalReads(e: Envelope, s: Text)
    ensures ReadMembers(OriginalThen(e, s)) == Reading(OriginalMembers(e), s)
  {
    var more := ReturnedThen(e, s);
    ReturnedReads(e, s);
    AmountReads(e.originalBytes, [COMMA] + more);
    MoreMembers("originalBytes", Digits(e.originalBytes) + ([COMMA] + more), Num(Digits(e.originalBytes)), more,
                ReturnedMembers(e), s);
  }

  lemma BoolReads(b: bool)
    ensures ReadsAs(BoolText(b), Truth(b))
  {
    WordReads(BoolText(b), Truth(b));
  }

  lemma AccountReads(e: Envelope, s: Text)
    ensures ReadValue(AccountThen(e, s)) == Reading(AccountTree(e), s)
  {
    var more := OriginalThen(e, s);
    OriginalReads(e, s);
    BoolReads(e.truncated);
    assert Follows([COMMA] + more);
    var body := Key("truncated") + (BoolText(e.truncated) + ([COMMA] + more));
    MoreMembers("truncated", BoolText(e.truncated) + ([COMMA] + more), Truth(e.truncated), more,
                OriginalMembers(e), s);
    KeyStarts("truncated", BoolText(e.truncated) + ([COMMA] + more));
    BodyReads(body, ReadMembers(body).value, s);
    assert ReadMembers(body).value == AccountTree(e).members;
  }

  lemma KeyStarts(k: string, w: Text)
    ensures Key(k) + w != [] && (Key(k) + w)[0] == QUOTATION
  {}

  function EnvelopeThen(e: Envelope, s: Text): Text {
    [OPEN_BRACE] + (Key("data") + (Stringify(e.data)
      + ([COMMA] + (Key("truncation") + AccountThen(e, [CLOSE_BRACE] + s)))))
  }

  lemma EnvelopeThenReads(e: Envelope, data: Tree, s: Text)
    requires ReadsAs(Stringify(e.data), data)
    ensures ReadValue(EnvelopeThen(e, s)) == Reading(EnvelopeTree(data, e), s)
  {
    var account := AccountThen(e, [CLOSE_BRACE] + s);
    AccountReads(e, [CLOSE_BRACE] + s);
    LastMember("truncation", account, AccountTree(e), s);
    var more := Key("truncation") + account;
    assert Follows([COMMA] + more);
    var body := Key("data") + (Stringify(e.data) + ([COMMA] + more));
    MoreMembers("data", Stringify(e.data) + ([COMMA] + more), data, more,
                [Keyed(Ascii("truncation"), AccountTree(e))], s);
    KeyStarts("data", Stringify(e.data) + ([COMMA] + more));
    BodyReads(body, ReadMembers(body).value, s);
    assert ReadMembers(body).value == EnvelopeTree(data, e).members;
  }

  lemma Separated(k: string)
    ensures Ascii(",\"" + k + "\":") == [COMMA] + Key(k)
  {
    AsciiConcat(",", "\"" + k + "\":");
    assert ",\"" + k + "\":" == "," + ("\"" + k + "\":");
    assert Ascii(",") == [COMMA];
  }

  lemma Pieces()
    ensures ORIGINAL_BYTES == [COMMA] + Key("originalBytes")
    ensures RETURNED_BYTES == [COMMA] + Key("returnedBytes")
    ensures LIMIT_BYTES == [COMMA] + Key("limitBytes")
    ensures IS_ERROR == [COMMA] + Key("isError")
  {
    Separated("originalBytes");
    Separated("returnedBytes");
    Separated("limitBytes");
    Separated("isError");
    assert ",\"" + "originalBytes" + "\":" == ",\"originalBytes\":";
    assert ",\"" + "returnedBytes" + "\":" == ",\"returnedBytes\":";
    assert ",\"" + "limitBytes" + "\":" == ",\"limitBytes\":";
    assert ",\"" + "isError" + "\":" == ",\"isError\":";
  }

  lemma DataPiece()
    ensures DATA == [OPEN_BRACE] + Key("data")
  {
    AsciiConcat("{", "\"" + "data" + "\":");
    assert "{" + ("\"" + "data" + "\":") == "{\"data\":";
    assert Ascii("{") == [OPEN_BRACE];
  }

  lemma TruncationPiece()
    ensures TRUNCATION == [COMMA] + Key("truncation") + ([OPEN_BRACE] + Key("truncated"))
  {
    Separated("truncation");
    AsciiConcat("{", "\"" + "truncated" + "\":");
    AsciiConcat(",\"" + "truncation" + "\":", "{" + ("\"" + "truncated" + "\":"));
    assert ",\"" + "truncation" + "\":" + ("{" + ("\"" + "truncated" + "\":")) == ",\"truncation\":{\"truncated\":";
    assert Ascii("{") == [OPEN_BRACE];
  }

  lemma EndPieces()
    ensures ENVELOPE_END == [CLOSE_BRACE] + [CLOSE_BRACE] && RESULT_END == [CLOSE_BRACE]
  {}

  /** Seven texts after one another, grouped from the right. */
  lemma FromTheRight(a: Text, b: Text, c: Text, d: Text, e: Text, f: Text, g: Text)
    ensures a + b + c + d + e + f + g == a + (b + (c + (d + (e + (f + g)))))
  {
    Assoc(a + b + c + d + e, f, g);
    Assoc(a + b + c + d, e, f + g);
    Assoc(a + b + c, d, e + (f + g));
    Assoc(a + b, c, d + (e + (f + g)));
    Assoc(a, b, c + (d + (e + (f + g))));
  }

  /** The text of an envelope, as the reader takes it apart. */
  lemma EnvelopeTextIs(e: Envelope, s: Text)
    ensures EnvelopeText(e) + s == EnvelopeThen(e, s)
  {
    var front := DATA + Stringify(e.data) + TRUNCATION + BoolText(e.truncated);
    var o, r, l := Digits(e.originalBytes), Digits(e.returnedBytes), Digits(e.limitBytes);
    Assoc(front + ORIGINAL_BYTES + o + RETURNED_BYTES + r + LIMIT_BYTES + l, ENVELOPE_END, s);
    FromTheRight(front, ORIGINAL_BYTES, o, RETURNED_BYTES, r, LIMIT_BYTES, l + (ENVELOPE_END + s));
    Assoc(front + ORIGINAL_BYTES + o + RETURNED_BYTES + r + LIMIT_BYTES, l, ENVELOPE_END + s);
    AmountsAre(e, s);
    var amounts := [COMMA] + OriginalThen(e, [CLOSE_BRACE] + s);
    Assoc(DATA + Stringify(e.data) + TRUNCATION, BoolText(e.truncated), amounts);
    Assoc(DATA + Stringify(e.data), TRUNCATION, BoolText(e.truncated) + amounts);
    Assoc(DATA, Stringify(e.data), TRUNCATION + (BoolText(e.truncated) + amounts));
    AccountIs(BoolText(e.truncated) + amounts);
    DataPiece();
    Assoc([OPEN_BRACE], Key("data"), Stringify(e.data) + (TRUNCATION + (BoolText(e.truncated) + amounts)));
  }

  lemma AmountsAre(e: Envelope, s: Text)
    ensures ORIGINAL_BYTES + (Digits(e.originalBytes) + (RETURNED_BYTES + (Digits(e.returnedBytes)
              + (LIMIT_BYTES + (Digits(e.limitBytes) + (ENVELOPE_END + s))))))
         == [COMMA] + OriginalThen(e, [CLOSE_BRACE] + s)
  {
    Pieces();
    EndPieces();
    Assoc([CLOSE_BRACE], [CLOSE_BRACE], s);
    var l := Digits(e.limitBytes) + ([CLOSE_BRACE] + ([CLOSE_BRACE] + s));
    Assoc([COMMA], Key("limitBytes"), l);
    var r := Digits(e.returnedBytes) + ([COMMA] + (Key("limitBytes") + l));
    Assoc([COMMA], Key("returnedBytes"), r);
    Assoc([COMMA], Key("originalBytes"), Digits(e.originalBytes) + ([COMMA] + (Key("returnedBytes") + r)));
  }

  lemma AccountIs(w: Text)
    ensures TRUNCATION + w == [COMMA] + (Key("truncation") + ([OPEN_BRACE] + (Key("truncated") + w)))
  {
    TruncationPiece();
    Assoc([COMMA] + Key("truncation"), [OPEN_BRACE] + Key("truncated"), w);
    Assoc([COMMA], Key("truncation"), [OPEN_BRACE] + Key("truncated") + w);
    Assoc([OPEN_BRACE], Key("truncated"), w);
  }

  /** The text of an envelope reads as the envelope, its data mirrored and its counts in digits. */
  lemma EnvelopeReads(e: Envelope) returns (data: Tree)
    ensures ReadsAs(EnvelopeText(e), EnvelopeTree(data, e)) && Mirrors(e.data, data)
  {
    data := StringifyReads(e.data);
    var t := EnvelopeTree(data, e);
    forall s: Text | Follows(s) ensures ReadValue(EnvelopeText(e) + s) == Reading(t, s) {
      EnvelopeTextIs(e, s);
      EnvelopeThenReads(e, data, s);
    }
    EnvelopeTextIs(e, []);
    assert EnvelopeText(e) + [] == EnvelopeText(e);
  }

  // -------------------------------------------------------------------- the result

  /** A result as a client reads it: the text, the structured content and the error flag. */
  function ResultTree(text: Text, structured: Tree, isError: bool): Tree {
    var block := Obj([Keyed(Ascii("type"), Str(Ascii("text"))), Keyed(Ascii("text"), Str(text))]);
    Obj([Keyed(Ascii("content"), Arr([block])),
         Keyed(Ascii("structuredContent"), structured),
         Keyed(Ascii("isError"), Truth(isError))])
  }

  function Quoted(k: string): Text { Ascii("\"" + k + "\"") }

  lemma QuotedReads(k: string, w: Text)
    requires Letters(k)
    ensures ReadValue(Quoted(k) + w) == Reading(Str(Ascii(k)), w)
  {
    AsciiConcat("\"", k + "\"");
    AsciiConcat(k, "\"");
    assert "\"" + k + "\"" == "\"" + (k + "\"");
    assert Ascii("\"") == [QUOTATION];
    Assoc([QUOTATION], Ascii(k) + [QUOTATION], w);
    Assoc(Ascii(k), [QUOTATION], w);
    LettersRead(k, w);
    var x := Quoted(k) + w;
    assert x[0] == QUOTATION && x[1..] == Ascii(k) + ([QUOTATION] + w);
  }

  function BlockThen(text: Text, s: Text): Text {
    Key("type") + (Quoted("text") + ([COMMA] + (Key("text") + (Quote(text) + ([CLOSE_BRACE] + s)))))
  }

  function BlockMembers(text: Text): seq<Keyed<Tree>> {
    [Keyed(Ascii("type"), Str(Ascii("text")))] + [Keyed(Ascii("text"), Str(text))]
  }

  lemma BlockReads(text: Text, s: Text)
    ensures ReadValue([OPEN_BRACE] + BlockThen(text, s)) == Reading(Obj(BlockMembers(text)), s)
  {
    var w := Quote(text) + ([CLOSE_BRACE] + s);
    StringReads(text);
    assert Follows([CLOSE_BRACE] + s);
    LastMember("text", w, Str(text), s);
    QuotedReads("text", [COMMA] + (Key("text") + w));
    MoreMembers("type", Quoted("text") + ([COMMA] + (Key("text") + w)), Str(Ascii("text")), Key("text") + w,
                [Keyed(Ascii("text"), Str(text))], s);
    KeyStarts("type", Quoted("text") + ([COMMA] + (Key("text") + w)));
    BodyReads(BlockThen(text, s), BlockMembers(text), s);
  }

  lemma ContentReads(text: Text, s: Text)
    ensures ReadValue([OPEN_BRACKET] + ([OPEN_BRACE] + BlockThen(text, [CLOSE_BRACKET] + s)))
         == Reading(Arr([Obj(BlockMembers(text))]), s)
  {
    var body := [OPEN_BRACE] + BlockThen(text, [CLOSE_BRACKET] + s);
    BlockReads(text, [CLOSE_BRACKET] + s);
    assert ([CLOSE_BRACKET] + s)[1..] == s;
    assert ReadItems(body) == Reading([Obj(BlockMembers(text))], s);
    ItemsBodyReads(body, [Obj(BlockMembers(text))], s);
  }

  function FlagThen(isError: bool): Text { Key("isError") + (BoolText(isError) + [CLOSE_BRACE]) }

  function StructuredThen(structured: Text, isError: bool): Text {
    Key("structuredContent") + (structured + ([COMMA] + FlagThen(isError)))
  }

  function ResultThen(text: Text, structured: Text, isError: bool): Text {
    [OPEN_BRACE] + (Key("content") + ([OPEN_BRACKET] + ([OPEN_BRACE]
      + BlockThen(text, [CLOSE_BRACKET] + ([COMMA] + StructuredThen(structured, isError))))))
  }

  function FlagMembers(isError: bool): seq<Keyed<Tree>> { [Keyed(Ascii("isError"), Truth(isError))] }

  lemma StructuredReads(structured: Text, t: Tree, isError: bool)
    requires ReadsAs(structured, t)
    ensures ReadMembers(StructuredThen(structured, isError))
         == Reading([Keyed(Ascii("structuredContent"), t)] + FlagMembers(isError), [])
  {
    BoolReads(isError);
    assert [CLOSE_BRACE] + [] == [CLOSE_BRACE] && Follows([CLOSE_BRACE]);
    LastMember("isError", BoolText(isError) + [CLOSE_BRACE], Truth(isError), []);
    assert Follows([COMMA] + FlagThen(isError));
    MoreMembers("structuredContent", structured + ([COMMA] + FlagThen(isError)), t, FlagThen(isError),
                FlagMembers(isError), []);
  }

  lemma ResultThenReads(text: Text, structured: Text, t: Tree, isError: bool)
    requires ReadsAs(structured, t)
    ensures Read(ResultThen(text, structured, isError)) == Some(ResultTree(text, t, isError))
  {
    var more := StructuredThen(structured, isError);
    StructuredReads(structured, t, isError);
    var w := [OPEN_BRACKET] + ([OPEN_BRACE] + BlockThen(text, [CLOSE_BRACKET] + ([COMMA] + more)));
    ContentReads(text, [COMMA] + more);
    var ms := [Keyed(Ascii("structuredContent"), t)] + FlagMembers(isError);
    MoreMembers("content", w, Arr([Obj(BlockMembers(text))]), more, ms, []);
    KeyStarts("content", w);
    BodyReads(Key("content") + w, [Keyed(Ascii("content"), Arr([Obj(BlockMembers(text))]))] + ms, []);
    ResultMembers(text, t, isError);
  }

  lemma ResultMembers(text: Text, t: Tree, isError: bool)
    ensures ResultTree(text, t, isError)
         == Obj([Keyed(Ascii("content"), Arr([Obj(BlockMembers(text))]))]
                + ([Keyed(Ascii("structuredContent"), t)] + FlagMembers(isError)))
  {
    assert BlockMembers(text) == [Keyed(Ascii("type"), Str(Ascii("text"))), Keyed(Ascii("text"), Str(text))];
    assert [Keyed(Ascii("structuredContent"), t)] + FlagMembers(isError)
        == [Keyed(Ascii("structuredContent"), t), Keyed(Ascii("isError"), Truth(isError))];
  }

  lemma ContentString()
    ensures ("{" + ("\"" + "content" + "\":")) + ("[" + "{") + (("\"" + "type" + "\":") + ("\"" + "text" + "\""))
            + (",\"" + "text" + "\":")
         == "{\"content\":[{\"type\":\"text\",\"text\":"
  {}

  lemma ContentPiece()
    ensures CONTENT == ([OPEN_BRACE] + Key("content")) + ([OPEN_BRACKET] + [OPEN_BRACE])
                       + (Key("type") + Quoted("text")) + ([COMMA] + Key("text"))
  {
    ContentString();
    Separated("text");
    AsciiConcat("{", "\"" + "content" + "\":");
    AsciiConcat("[", "{");
    AsciiConcat("\"" + "type" + "\":", "\"" + "text" + "\"");
    assert Ascii("{") == [OPEN_BRACE] && Ascii("[") == [OPEN_BRACKET];
    AsciiConcat4("{" + ("\"" + "content" + "\":"), "[" + "{",
                 ("\"" + "type" + "\":") + ("\"" + "text" + "\""), ",\"" + "text" + "\":");
  }

  lemma AsciiConcat4(a: string, b: string, c: string, d: string)
    ensures Ascii(a + b + c + d) == Ascii(a) + Ascii(b) + Ascii(c) + Ascii(d)
  {
    AsciiConcat(a, b);
    AsciiConcat(a + b, c);
    AsciiConcat(a + b + c, d);
  }

  lemma StructuredPiece()
    ensures STRUCTURED == [CLOSE_BRACE] + [CLOSE_BRACKET] + ([COMMA] + Key("structuredContent"))
  {
    Separated("structuredContent");
    AsciiConcat("}", "]");
    AsciiConcat("}" + "]", ",\"" + "structuredContent" + "\":");
    assert Ascii("}") == [CLOSE_BRACE] && Ascii("]") == [CLOSE_BRACKET];
    assert "}" + "]" + (",\"" + "structuredContent" + "\":") == "}],\"structuredContent\":";
  }

  lemma ContentIs(w: Text)
    ensures CONTENT + w == [OPEN_BRACE] + (Key("content") + ([OPEN_BRACKET] + ([OPEN_BRACE]
                           + (Key("type") + (Quoted("text") + ([COMMA] + (Key("text") + w)))))))
  {
    ContentPiece();
    var a, b, c := [OPEN_BRACE] + Key("content"), [OPEN_BRACKET] + [OPEN_BRACE], Key("type") + Quoted("text");
    var d := [COMMA] + Key("text");
    Assoc(a + b + c, d, w);
    Assoc(a + b, c, d + w);
    Assoc(a, b, c + (d + w));
    Assoc([COMMA], Key("text"), w);
    Assoc(Key("type"), Quoted("text"), d + w);
    Assoc([OPEN_BRACKET], [OPEN_BRACE], c + (d + w));
    Assoc([OPEN_BRACE], Key("content"), b + (c + (d + w)));
  }

  lemma StructuredIs(structured: Text, isError: bool)
    ensures STRUCTURED + (structured + (IS_ERROR + (BoolText(isError) + RESULT_END)))
         == [CLOSE_BRACE] + ([CLOSE_BRACKET] + ([COMMA] + StructuredThen(structured, isError)))
  {
    StructuredPiece();
    Pieces();
    EndPieces();
    var flag := BoolText(isError) + [CLOSE_BRACE];
    Assoc([COMMA], Key("isError"), flag);
    var w := structured + ([COMMA] + FlagThen(isError));
    Assoc([CLOSE_BRACE] + [CLOSE_BRACKET], [COMMA] + Key("structuredContent"), w);
    Assoc([CLOSE_BRACE], [CLOSE_BRACKET], [COMMA] + Key("structuredContent") + w);
    Assoc([COMMA], Key("structuredContent"), w);
  }

  /** The serialised result is JSON; its text content is JSON again, and is the same envelope
      as the structured content. */
  lemma ResultIsJson(e: Envelope, isError: bool) returns (data: Tree)
    ensures Mirrors(e.data, data) && Read(EnvelopeText(e)) == Some(EnvelopeTree(data, e))
    ensures Read(ResultText(e, isError)) == Some(ResultTree(EnvelopeText(e), EnvelopeTree(data, e), isError))
    ensures Amount(Digits(e.originalBytes)) == e.originalBytes && Amount(Digits(e.returnedBytes)) == e.returnedBytes
    ensures Amount(Digits(e.limitBytes)) == e.limitBytes
  {
    DigitsAmount(e.originalBytes);
    DigitsAmount(e.returnedBytes);
    DigitsAmount(e.limitBytes);
    data := EnvelopeReads(e);
    WholeText(EnvelopeText(e), EnvelopeTree(data, e));
    ResultTextIs(EnvelopeText(e), isError);
    ResultThenReads(EnvelopeText(e), EnvelopeText(e), EnvelopeTree(data, e), isError);
  }

  lemma WholeText(x: Text, t: Tree)
    requires ReadsAs(x, t)
    ensures Read(x) == Some(t)
  {
    assert x + [] == x && Follows([]);
  }

  lemma ResultTextIs(text: Text, isError: bool)
    ensures CONTENT + Quote(text) + STRUCTURED + text + IS_ERROR + BoolText(isError) + RESULT_END
         == ResultThen(text, text, isError)
  {
    FromTheRight(CONTENT, Quote(text), STRUCTURED, text, IS_ERROR, BoolText(isError), RESULT_END);
    StructuredIs(text, isError);
    ContentIs(Quote(text) + ([CLOSE_BRACE] + ([CLOSE_BRACKET] + ([COMMA] + StructuredThen(text, isError)))));
  }
}
