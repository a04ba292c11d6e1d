/** The canonical JSON printer that capability inputs are hashed through
    (packages/core/src/capabilities/capability-registry.ts).  Text is a sequence
    of UTF-16 code units; the grammar is RFC 8259, sections 4, 5 and 7. */
module CanonicalJson {
  import opened Options
  import opened Text
  import opened Utf8

  const BACKSLASH: CodeUnit := 92
  const QUOTATION: CodeUnit := 34
  const COMMA: CodeUnit := 44
  const COLON: CodeUnit := 58
  const OPEN_BRACKET: CodeUnit := 91
  const CLOSE_BRACKET: CodeUnit := 93
  const OPEN_BRACE: CodeUnit := 123
  const CLOSE_BRACE: CodeUnit := 125
  const NULL_TEXT: Text := [110, 117, 108, 108]
  const TRUE_TEXT: Text := [116, 114, 117, 101]
  const FALSE_TEXT: Text := [102, 97, 108, 115, 101]

  // ---------------------------------------------------------------- strings

  function HexDigit(d: int): CodeUnit
    requires 0 <= d < 16
  {
    if d < 10 then 48 + d else 87 + d
  }

  function Hex4(u: CodeUnit): Text {
    [HexDigit(u / 16 / 16 / 16), HexDigit(u / 16 / 16 % 16), HexDigit(u / 16 % 16), HexDigit(u % 16)]
  }

  /** One code unit of a JSON string; a surrogate arrives here only when unpaired. */
  function EscapeUnit(u: CodeUnit): Text {
    if u == 8 then [BACKSLASH, 98]
    else if u == 9 then [BACKSLASH, 116]
    else if u == 10 then [BACKSLASH, 110]
    else if u == 12 then [BACKSLASH, 102]
    else if u == 13 then [BACKSLASH, 114]
    else if u == QUOTATION || u == BACKSLASH then [BACKSLASH, u]
    else if u < 32 || High(u) || Low(u) then [BACKSLASH, 117] + Hex4(u)
    else [u]
  }

  function Escape(s: Text): Text {
    if s == [] then []
    else if Paired(s) then s[..2] + Escape(s[2..])
    else EscapeUnit(s[0]) + Escape(s[1..])
  }

  /** `JSON.stringify` of a string. */
  function Quote(s: Text): Text {
    [QUOTATION] + Escape(s) + [QUOTATION]
  }

  // ----------------------------------------------------------------- values

  predicate IsNumberToken(t: Text) {
    t != [] && forall i :: 0 <= i < |t| ==> 48 <= t[i] <= 57 || t[i] in {43, 45, 46, 101}
  }

  /** The shortest decimal text of a finite double; one text per double, except
      that both zeros print as "0". */
  type Token = t: Text | IsNumberToken(t) witness [48]

  datatype JsNumber = NegativeZero | Decimal(token: Token)

  function NumberText(n: JsNumber): Token {
    if n.NegativeZero? then [48] else n.token
  }

  /** An array slot; a sparse array has holes. */
  datatype Element = Hole | Item(value: Json)

  datatype Json =
    | Null
    | Bool(b: bool)
    | Number(n: JsNumber)
    | String(s: Text)
    | Array(items: seq<Element>)
    | Object(entries: seq<Keyed<Json>>)

  predicate WellKeyed(v: Json) {
    match v
    case Array(items) => forall i :: 0 <= i < |items| && items[i].Item? ==> WellKeyed(items[i].value)
    case Object(entries) => DistinctKeys(entries) && forall i :: 0 <= i < |entries| ==> WellKeyed(entries[i].value)
    case _ => true
  }

  // --------------------------------------------------------------- printing

  function Join(ts: seq<Text>): Text {
    if ts == [] then [] else if |ts| == 1 then ts[0] else ts[0] + [COMMA] + Join(ts[1..])
  }

  function Texts(ms: seq<Keyed<Text>>): seq<Text> {
    if ms == [] then [] else [ms[0].value] + Texts(ms[1..])
  }

  function Print(v: Json): Text
    decreases v, 1
  {
    match v
    case Null => NULL_TEXT
    case Bool(b) => if b then TRUE_TEXT else FALSE_TEXT
    case Number(n) => NumberText(n)
    case String(s) => Quote(s)
    case Array(items) => [OPEN_BRACKET] + Join(PrintElements(items)) + [CLOSE_BRACKET]
    case Object(entries) =>
      [OPEN_BRACE] + Join(Texts(SortByKey(PrintMembers(entries)))) + [CLOSE_BRACE]
  }

  function PrintElement(e: Element): Text
    decreases e, 2
  {
    if e.Hole? then [] else Print(e.value)
  }

  function PrintElements(items: seq<Element>): seq<Text>
    decreases items, 0
  {
    if items == [] then [] else [PrintElement(items[0])] + PrintElements(items[1..])
  }

  function PrintMember(e: Keyed<Json>): Text
    decreases e, 2
  {
    Quote(e.key) + [COLON] + Print(e.value)
  }

  function PrintMembers(entries: seq<Keyed<Json>>): seq<Keyed<Text>>
    decreases entries, 0
  {
    if entries == [] then []
    else [Keyed(entries[0].key, PrintMember(entries[0]))] + PrintMembers(entries[1..])
  }

  // ---------------------------------------------------------------- meaning

  /** What a value means: an object is an unordered map, -0 is 0, and an array
      with one slot that is a hole is not told apart from the empty array. */
  datatype Value =
    | VNull
    | VBool(b: bool)
    | VNumber(token: Text)
    | VString(s: Text)
    | VArray(items: seq<Option<Value>>)
    | VObject(members: map<Text, Value>)

  function Meaning(v: Json): Value
    decreases v, 1
  {
    match v
    case Null => VNull
    case Bool(b) => VBool(b)
    case Number(n) => VNumber(NumberText(n))
    case String(s) => VString(s)
    case Array(items) => VArray(if items == [Hole] then [] else MeaningElements(items))
    case Object(entries) => VObject(ToMap(MeaningMembers(entries)))
  }

  function MeaningElement(e: Element): Option<Value>
    decreases e, 2
  {
    if e.Hole? then None else Some(Meaning(e.value))
  }

  function MeaningElements(items: seq<Element>): seq<Option<Value>>
    decreases items, 0
  {
    if items == [] then [] else [MeaningElement(items[0])] + MeaningElements(items[1..])
  }

  function MeaningMembers(entries: seq<Keyed<Json>>): seq<Keyed<Value>>
    decreases entries, 0
  {
    if entries == [] then []
    else [Keyed(entries[0].key, Meaning(entries[0].value))] + MeaningMembers(entries[1..])
  }

  function ToMap<T>(s: seq<Keyed<T>>): map<Text, T> {
    if s == [] then map[] else ToMap(s[1..])[s[0].key := s[0].value]
  }
}
