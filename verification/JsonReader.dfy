/** A reader of JSON text without insignificant whitespace (RFC 8259, sections 2 to 7),
    and what it finds in the texts that `canonicalJson` and `JSON.stringify` write. */
module JsonReader {
  import opened Options
  import opened Text
  import opened Utf8
  import opened CanonicalJson
  import opened CanonicalInjective
  import opened CanonicalGraph

  /** A JSON text as it stands: numbers by their digits, members in their order. */
  datatype Tree =
    | NullTree
    | Truth(b: bool)
    | Num(digits: Text)
    | Str(s: Text)
    | Arr(items: seq<Tree>)
    | Obj(members: seq<Keyed<Tree>>)

  datatype Reading<+T> = Refused | Reading(value: T, rest: Text)

  // ---------------------------------------------------------------- the reader

  predicate Begins(s: Text, c: CodeUnit) { s != [] && s[0] == c }

  /** The digits of section 7 and the letters a to f in either case. */
  function HexValue(c: CodeUnit): (d: Option<int>)
    ensures d.Some? ==> 0 <= d.value < 16
  {
    if '0' as int <= c <= '9' as int then Some(c - '0' as int)
    else if 'a' as int <= c <= 'f' as int then Some(c - 'a' as int + 10)
    else if 'A' as int <= c <= 'F' as int then Some(c - 'A' as int + 10)
    else None
  }

  function FourDigits(s: Text): Reading<CodeUnit> {
    if |s| < 4 then Refused
    else
      var a, b, c, d := HexValue(s[0]), HexValue(s[1]), HexValue(s[2]), HexValue(s[3]);
      if a.None? || b.None? || c.None? || d.None? then Refused
      else Reading(((a.value * 16 + b.value) * 16 + c.value) * 16 + d.value, s[4..])
  }

  /** One code unit of a string, written as itself or escaped. */
  function ReadUnit(s: Text): (r: Reading<CodeUnit>)
    requires s != []
    ensures r.Reading? ==> |r.rest| < |s|
  {
    if s[0] < 32 || s[0] == '"' as int then Refused
    else if s[0] != '\\' as int then Reading(s[0], s[1..])
    else if |s| == 1 then Refused
    else
      var c, rest := s[1], s[2..];
      if c == '"' as int || c == '\\' as int || c == '/' as int then Reading(c, rest)
      else if c == 'b' as int then Reading(8, rest)
      else if c == 't' as int then Reading(9, rest)
      else if c == 'n' as int then Reading(10, rest)
      else if c == 'f' as int then Reading(12, rest)
      else if c == 'r' as int then Reading(13, rest)
      else if c == 'u' as int then FourDigits(rest)
      else Refused
  }

  /** A string from behind its opening quotation mark on. */
  function ReadString(s: Text): (r: Reading<Text>)
    ensures r.Reading? ==> |r.rest| < |s|
    decreases |s|
  {
    if s == [] then Refused
    else if s[0] == '"' as int then Reading([], s[1..])
    else
      var u := ReadUnit(s);
      if u.Refused? then Refused
      else
        var more := ReadString(u.rest);
        if more.Refused? then Refused else Reading([u.value] + more.value, more.rest)
  }

  predicate NumberUnit(c: CodeUnit) {
    '0' as int <= c <= '9' as int
    || c == '+' as int || c == '-' as int || c == '.' as int || c == 'e' as int || c == 'E' as int
  }

  /** The length of the number a text begins with. */
  function NumberLength(s: Text): (n: nat)
    ensures n <= |s|
  {
    if s != [] && NumberUnit(s[0]) then 1 + NumberLength(s[1..]) else 0
  }

  function Word(s: Text, word: Text, t: Tree): (r: Reading<Tree>)
    requires word != []
    ensures r.Reading? ==> |r.rest| < |s|
  {
    if |s| >= |word| && s[..|word|] == word then Reading(t, s[|word|..]) else Refused
  }

  function ReadValue(s: Text): (r: Reading<Tree>)
    ensures r.Reading? ==> |r.rest| < |s|
    decreases |s|, 1
  {
    if s == [] then Refused
    else if s[0] == 'n' as int then Word(s, ['n' as int, 'u' as int, 'l' as int, 'l' as int], NullTree)
    else if s[0] == 't' as int then Word(s, ['t' as int, 'r' as int, 'u' as int, 'e' as int], Truth(true))
    else if s[0] == 'f' as int then Word(s, ['f' as int, 'a' as int, 'l' as int, 's' as int, 'e' as int], Truth(false))
    else if s[0] == '"' as int then
      var text := ReadString(s[1..]);
      if text.Refused? then Refused else Reading(Str(text.value), text.rest)
    else if s[0] == '[' as int then
      if Begins(s[1..], ']' as int) then Reading(Arr([]), s[2..])
      else
        var items := ReadItems(s[1..]);
        if items.Refused? then Refused else Reading(Arr(items.value), items.rest)
    else if s[0] == '{' as int then
      if Begins(s[1..], '}' as int) then Reading(Obj([]), s[2..])
      else
        var members := ReadMembers(s[1..]);
        if members.Refused? then Refused else Reading(Obj(members.value), members.rest)
    else if NumberUnit(s[0]) then Reading(Num(s[..NumberLength(s)]), s[NumberLength(s)..])
    else Refused
  }

  /** The values of an array and its closing bracket. */
  function ReadItems(s: Text): (r: Reading<seq<Tree>>)
    ensures r.Reading? ==> |r.rest| < |s|
    decreases |s|, 2
  {
    var first := ReadValue(s);
    if first.Refused? then Refused
    else if Begins(first.rest, ']' as int) then Reading([first.value], first.rest[1..])
    else if Begins(first.rest, ',' as int) then
      var more := ReadItems(first.rest[1..]);
      if more.Refused? then Refused else Reading([first.value] + more.value, more.rest)
    else Refused
  }

  function ReadMember(s: Text): (r: Reading<Keyed<Tree>>)
    ensures r.Reading? ==> |r.rest| < |s|
    decreases |s|, 2
  {
    if !Begins(s, '"' as int) then Refused
    else
      var key := ReadString(s[1..]);
      if key.Refused? || !Begins(key.rest, ':' as int) then Refused
      else
        var value := ReadValue(key.rest[1..]);
        if value.Refused? then Refused else Reading(Keyed(key.value, value.value), value.rest)
  }

  /** The members of an object and its closing brace. */
  function ReadMembers(s: Text): (r: Reading<seq<Keyed<Tree>>>)
    ensures r.Reading? ==> |r.rest| < |s|
    decreases |s|, 3
  {
    var first := ReadMember(s);
    if first.Refused? then Refused
    else if Begins(first.rest, '}' as int) then Reading([first.value], first.rest[1..])
    else if Begins(first.rest, ',' as int) then
      var more := ReadMembers(first.rest[1..]);
      if more.Refused? then Refused else Reading([first.value] + more.value, more.rest)
    else Refused
  }

  /** A whole text is one value. */
  function Read(s: Text): Option<Tree> {
    var r := ReadValue(s);
    if r.Reading? && r.rest == [] then Some(r.value) else None
  }

  // ------------------------------------------------------ what is read of a piece

  /** Before anything that may follow a value, `x` reads as `t`. */
  ghost predicate ReadsAs(x: Text, t: Tree) {
    x != [] && !Follows(x) && forall s: Text :: Follows(s) ==> ReadValue(x + s) == Reading(t, s)
  }

  lemma WordReads(word: Text, t: Tree)
    requires (word, t) in {(NULL_TEXT, NullTree), (TRUE_TEXT, Truth(true)), (FALSE_TEXT, Truth(false))}
    ensures ReadsAs(word, t)
  {
    forall s: Text | Follows(s) ensures ReadValue(word + s) == Reading(t, s) {
      assert (word + s)[..|word|] == word && (word + s)[|word|..] == s;
    }
  }

  lemma {:induction false} NumberEnds(x: Text, s: Text)
    requires Follows(s) && forall i :: 0 <= i < |x| ==> NumberUnit(x[i])
    ensures NumberLength(x + s) == |x|
  {
    if x == [] {
      assert x + s == s;
    } else {
      assert (x + s)[1..] == x[1..] + s;
      NumberEnds(x[1..], s);
    }
  }

  lemma NumberReads(x: Token)
    ensures ReadsAs(x, Num(x))
  {
    assert x[0] != 34 && x[0] != 91 && x[0] != 123;
    forall s: Text | Follows(s) ensures ReadValue(x + s) == Reading(Num(x), s) {
      NumberEnds(x, s);
      assert (x + s)[0] == x[0] && (x + s)[..|x|] == x && (x + s)[|x|..] == s;
    }
  }

  lemma HexReads(u: CodeUnit, s: Text)
    ensures FourDigits(Hex4(u) + s) == Reading(u, s)
  {
    var x := Hex4(u) + s;
    DigitReads(u / 16 / 16 / 16);
    DigitReads(u / 16 / 16 % 16);
    DigitReads(u / 16 % 16);
    DigitReads(u % 16);
    assert x[..4] == Hex4(u) && x[4..] == s;
    assert x[0] == Hex4(u)[0] && x[1] == Hex4(u)[1] && x[2] == Hex4(u)[2] && x[3] == Hex4(u)[3];
  }

  lemma DigitReads(d: int)
    requires 0 <= d < 16
    ensures HexValue(HexDigit(d)) == Some(d)
  {}

  /** The escape of a unit reads as that unit. */
  lemma UnitReads(u: CodeUnit, s: Text)
    ensures EscapeUnit(u)[0] != '"' as int
    ensures ReadUnit(EscapeUnit(u) + s) == Reading(u, s)
  {
    var x := EscapeUnit(u) + s;
    if u in {8, 9, 10, 12, 13, QUOTATION, BACKSLASH} {
      assert x[0] == BACKSLASH && x[1] == EscapeUnit(u)[1] && x[2..] == s;
    } else if u < 32 || High(u) || Low(u) {
      Assoc([BACKSLASH, 117], Hex4(u), s);
      assert x[0] == BACKSLASH && x[1] == 117 && x[2..] == Hex4(u) + s;
      HexReads(u, s);
    } else {
      assert x[0] == u && x[1..] == s;
    }
  }

  /** No more is escaped than has to be: short escapes where there are any, otherwise four
      hexadecimal digits, in lower case. */
  lemma EscapesAre(u: CodeUnit)
    ensures EscapeUnit(u) ==
      if u == 8 then ['\\' as int, 'b' as int]
      else if u == 9 then ['\\' as int, 't' as int]
      else if u == 10 then ['\\' as int, 'n' as int]
      else if u == 12 then ['\\' as int, 'f' as int]
      else if u == 13 then ['\\' as int, 'r' as int]
      else if u == '"' as int || u == '\\' as int then ['\\' as int, u]
      else if u < 16 then ['\\' as int, 'u' as int, '0' as int, '0' as int, '0' as int, Lower(u)]
      else if u < 32 then ['\\' as int, 'u' as int, '0' as int, '0' as int, '1' as int, Lower(u - 16)]
      else if 0xD800 <= u < 0xE000 then
        ['\\' as int, 'u' as int, 'd' as int, Lower((u - 0xD000) / 256), Lower(u % 256 / 16), Lower(u % 16)]
      else [u]
  {
    if 0xD800 <= u < 0xE000 { HighDigits(u); }
  }

  lemma HighDigits(u: CodeUnit)
    requires 0xD800 <= u < 0xE000
    ensures u / 16 / 16 / 16 == 13 && u / 16 / 16 % 16 == (u - 0xD000) / 256 && u / 16 % 16 == u % 256 / 16
  {}

  /** A hexadecimal digit in lower case. */
  function Lower(d: int): int { if d < 10 then '0' as int + d else 'a' as int + (d - 10) }

  lemma {:induction false} StringReadsBack(x: Text, s: Text)
    ensures ReadString(EscapeThen(x, s)) == Reading(x, s)
    decreases |x|
  {
    if x == [] {
      assert EscapeThen(x, s)[1..] == s;
    } else if Paired(x) {
      StringReadsBack(x[2..], s);
      PairStep(x[0], x[1], EscapeThen(x[2..], s));
      assert x[..2] == [x[0], x[1]] && x == [x[0], x[1]] + x[2..];
    } else {
      StringReadsBack(x[1..], s);
      UnitReads(x[0], EscapeThen(x[1..], s));
      StringStep(x[0], x[1..], EscapeUnit(x[0]), EscapeThen(x[1..], s), s);
      assert [x[0]] + x[1..] == x;
    }
  }

  lemma StringStep(u: CodeUnit, x: Text, unit: Text, rest: Text, s: Text)
    requires unit != [] && unit[0] != '"' as int && ReadUnit(unit + rest) == Reading(u, rest)
    requires ReadString(rest) == Reading(x, s)
    ensures ReadString(unit + rest) == Reading([u] + x, s)
  {}

  lemma PairStep(u: CodeUnit, v: CodeUnit, rest: Text)
    requires High(u) && Low(v) && ReadString(rest).Reading?
    ensures ReadString([u, v] + rest) == Reading([u, v] + ReadString(rest).value, ReadString(rest).rest)
  {
    PlainUnit(v, rest);
    PlainUnit(u, [v] + rest);
    TwoUnits(u, v, rest);
    TwoUnits(u, v, ReadString(rest).value);
  }

  lemma TwoUnits(u: CodeUnit, v: CodeUnit, s: Text)
    ensures [u, v] + s == [u] + ([v] + s)
  {}

  /** A surrogate stands as itself when it is paired. */
  lemma PlainUnit(u: CodeUnit, rest: Text)
    requires High(u) || Low(u)
    requires ReadString(rest).Reading?
    ensures ReadString([u] + rest) == Reading([u] + ReadString(rest).value, ReadString(rest).rest)
  {
    assert ([u] + rest)[1..] == rest;
    StringStep(u, ReadString(rest).value, [u], rest, ReadString(rest).rest);
  }

  lemma StringReads(x: Text)
    ensures ReadsAs(Quote(x), Str(x))
  {
    forall s: Text | Follows(s) ensures ReadValue(Quote(x) + s) == Reading(Str(x), s) {
      QuoteThen(x, s);
      StringReadsBack(x, s);
      assert (Quote(x) + s)[1..] == EscapeThen(x, s);
    }
  }

  /** Between brackets, separated by commas, the texts read as the items of an array. */
  lemma {:induction false} ItemsRead(xs: seq<Text>, ts: seq<Tree>, s: Text)
    requires |xs| == |ts| && xs != [] && forall i :: 0 <= i < |xs| ==> ReadsAs(xs[i], ts[i])
    ensures ReadItems(xs[0] + Tail(xs[1..], CLOSE_BRACKET, s)) == Reading(ts, s)
  {
    var rest := Tail(xs[1..], CLOSE_BRACKET, s);
    assert ReadValue(xs[0] + rest) == Reading(ts[0], rest);
    if |xs| == 1 {
      assert rest == [CLOSE_BRACKET] + s && rest[1..] == s && ts == [ts[0]];
    } else {
      TailStep(xs[1..], CLOSE_BRACKET, s);
      ItemsRead(xs[1..], ts[1..], s);
      assert rest[1..] == xs[1..][0] + Tail(xs[1..][1..], CLOSE_BRACKET, s);
      assert ts == [ts[0]] + ts[1..];
    }
  }

  lemma ArrayReads(xs: seq<Text>, ts: seq<Tree>)
    requires |xs| == |ts| && forall i :: 0 <= i < |xs| ==> ReadsAs(xs[i], ts[i])
    ensures ReadsAs([OPEN_BRACKET] + Join(xs) + [CLOSE_BRACKET], Arr(ts))
  {
    var x := [OPEN_BRACKET] + Join(xs) + [CLOSE_BRACKET];
    forall s: Text | Follows(s) ensures ReadValue(x + s) == Reading(Arr(ts), s) {
      Bracketed(OPEN_BRACKET, Join(xs), CLOSE_BRACKET, s);
      if xs == [] {
        assert x + s == [OPEN_BRACKET] + ([CLOSE_BRACKET] + s);
        EmptyArrayReads(s);
      } else {
        JoinTail(xs, CLOSE_BRACKET, s);
        ItemsRead(xs, ts, s);
        StartsAs(xs[0], ts[0], Tail(xs[1..], CLOSE_BRACKET, s));
        ItemsBodyReads(xs[0] + Tail(xs[1..], CLOSE_BRACKET, s), ts, s);
      }
    }
  }

  lemma StartsAs(x: Text, t: Tree, s: Text)
    requires ReadsAs(x, t)
    ensures x + s != [] && (x + s)[0] == x[0] && x[0] != CLOSE_BRACKET
  {}

  lemma EmptyArrayReads(s: Text)
    ensures ReadValue([OPEN_BRACKET] + ([CLOSE_BRACKET] + s)) == Reading(Arr([]), s)
  {
    var x := [OPEN_BRACKET] + ([CLOSE_BRACKET] + s);
    assert x[1..] == [CLOSE_BRACKET] + s && x[2..] == s;
  }

  lemma ItemsBodyReads(body: Text, ts: seq<Tree>, s: Text)
    requires ReadItems(body) == Reading(ts, s) && body != [] && body[0] != CLOSE_BRACKET
    ensures ReadValue([OPEN_BRACKET] + body) == Reading(Arr(ts), s)
  {
    var x := [OPEN_BRACKET] + body;
    assert x[1..] == body && x[0] == '[' as int;
    assert !Begins(x[1..], ']' as int);
  }

  /** The text of a member: its key, a colon and its value. */
  ghost predicate MemberReadsAs(x: Text, m: Keyed<Tree>) {
    exists y: Text :: ReadsAs(y, m.value) && x == Quote(m.key) + [COLON] + y
  }

  lemma MemberReads(x: Text, m: Keyed<Tree>, s: Text)
    requires MemberReadsAs(x, m) && Follows(s)
    ensures ReadMember(x + s) == Reading(m, s) && x != [] && x[0] == QUOTATION
  {
    var y: Text :| ReadsAs(y, m.value) && x == Quote(m.key) + [COLON] + y;
    Assoc(Quote(m.key), [COLON], y);
    Assoc(Quote(m.key), [COLON] + y, s);
    Assoc([COLON], y, s);
    var rest := [COLON] + (y + s);
    QuoteThen(m.key, rest);
    StringReadsBack(m.key, rest);
    assert (x + s)[1..] == EscapeThen(m.key, rest) && rest[1..] == y + s;
  }

  lemma {:induction false} MembersRead(xs: seq<Text>, ms: seq<Keyed<Tree>>, s: Text)
    requires |xs| == |ms| && xs != [] && forall i :: 0 <= i < |xs| ==> MemberReadsAs(xs[i], ms[i])
    ensures ReadMembers(xs[0] + Tail(xs[1..], CLOSE_BRACE, s)) == Reading(ms, s)
  {
    var rest := Tail(xs[1..], CLOSE_BRACE, s);
    MemberReads(xs[0], ms[0], rest);
    if |xs| == 1 {
      assert rest == [CLOSE_BRACE] + s && rest[1..] == s && ms == [ms[0]];
    } else {
      TailStep(xs[1..], CLOSE_BRACE, s);
      MembersRead(xs[1..], ms[1..], s);
      assert rest[1..] == xs[1..][0] + Tail(xs[1..][1..], CLOSE_BRACE, s);
      assert ms == [ms[0]] + ms[1..];
    }
  }

  lemma ObjectReads(xs: seq<Text>, ms: seq<Keyed<Tree>>)
    requires |xs| == |ms| && forall i :: 0 <= i < |xs| ==> MemberReadsAs(xs[i], ms[i])
    ensures ReadsAs([OPEN_BRACE] + Join(xs) + [CLOSE_BRACE], Obj(ms))
  {
    var x := [OPEN_BRACE] + Join(xs) + [CLOSE_BRACE];
    forall s: Text | Follows(s) ensures ReadValue(x + s) == Reading(Obj(ms), s) {
      Bracketed(OPEN_BRACE, Join(xs), CLOSE_BRACE, s);
      if xs == [] {
        assert x + s == [OPEN_BRACE] + ([CLOSE_BRACE] + s);
        EmptyObjectReads(s);
      } else {
        MembersBodyReads(xs, ms, s);
      }
    }
  }

  lemma MembersBodyReads(xs: seq<Text>, ms: seq<Keyed<Tree>>, s: Text)
    requires |xs| == |ms| && xs != [] && forall i :: 0 <= i < |xs| ==> MemberReadsAs(xs[i], ms[i])
    ensures ReadValue([OPEN_BRACE] + (Join(xs) + [CLOSE_BRACE] + s)) == Reading(Obj(ms), s)
  {
    JoinTail(xs, CLOSE_BRACE, s);
    MembersRead(xs, ms, s);
    MemberReads(xs[0], ms[0], Tail(xs[1..], CLOSE_BRACE, s));
    BodyReads(xs[0] + Tail(xs[1..], CLOSE_BRACE, s), ms, s);
  }

  lemma EmptyObjectReads(s: Text)
    ensures ReadValue([OPEN_BRACE] + ([CLOSE_BRACE] + s)) == Reading(Obj([]), s)
  {
    var x := [OPEN_BRACE] + ([CLOSE_BRACE] + s);
    assert x[1..] == [CLOSE_BRACE] + s && x[2..] == s;
  }

  lemma BodyReads(body: Text, ms: seq<Keyed<Tree>>, s: Text)
    requires ReadMembers(body) == Reading(ms, s) && body != [] && body[0] == QUOTATION
    ensures ReadValue([OPEN_BRACE] + body) == Reading(Obj(ms), s)
  {
    var x := [OPEN_BRACE] + body;
    assert x[1..] == body && x[0] == '{' as int;
    assert !Begins(x[1..], '}' as int);
  }

  // --------------------------------------------------------------- canonical text

  /** No array of the value has a hole. */
  predicate Whole(v: Json) {
    match v
    case Array(items) => forall i :: 0 <= i < |items| ==> items[i].Item? && Whole(items[i].value)
    case Object(entries) => forall i :: 0 <= i < |entries| ==> Whole(entries[i].value)
    case _ => true
  }

  /** The text has the items of each array in their order, and the members of each object
      in any order. */
  ghost predicate Agrees(v: Json, t: Tree)
    decreases v, 0
  {
    match v
    case Null => t.NullTree?
    case Bool(b) => t == Truth(b)
    case Number(n) => t == Num(if n.NegativeZero? then ['0' as int] else n.token)
    case String(s) => t == Str(s)
    case Array(items) =>
      t.Arr? && |t.items| == |items|
      && forall i :: 0 <= i < |items| ==> items[i].Item? && Agrees(items[i].value, t.items[i])
    case Object(entries) =>
      t.Obj? && |t.members| == |entries|
      && (forall i :: 0 <= i < |entries| ==> Has(t.members, entries[i]))
      && (forall j :: 0 <= j < |t.members| ==> IsOf(entries, t.members[j]))
  }

  ghost predicate AgreesMember(e: Keyed<Json>, m: Keyed<Tree>)
    decreases e, 0
  {
    m.key == e.key && Agrees(e.value, m.value)
  }

  ghost predicate Has(ms: seq<Keyed<Tree>>, e: Keyed<Json>)
    decreases e, 1
  {
    exists j :: 0 <= j < |ms| && AgreesMember(e, ms[j])
  }

  ghost predicate IsOf(entries: seq<Keyed<Json>>, m: Keyed<Tree>)
    decreases entries
  {
    exists i :: 0 <= i < |entries| && AgreesMember(entries[i], m)
  }

  /** Up to index `n` the keys are the same; there the first one ends or has the smaller unit. */
  predicate PartsAt(a: Text, b: Text, n: nat) {
    n <= |a| && n < |b| && (forall k :: 0 <= k < n ==> a[k] == b[k]) && (n < |a| ==> a[n] < b[n])
  }

  ghost predicate Before(a: Text, b: Text) { exists n: nat :: PartsAt(a, b, n) }

  /** The keys of every object stand in ascending order. */
  ghost predicate Ascending(t: Tree) {
    match t
    case Arr(items) => forall i :: 0 <= i < |items| ==> Ascending(items[i])
    case Obj(members) =>
      && (forall i, j :: 0 <= i < j < |members| ==> Before(members[i].key, members[j].key))
      && forall i :: 0 <= i < |members| ==> Ascending(members[i].value)
    case _ => true
  }

  lemma {:induction false} LessIs(a: Text, b: Text)
    ensures Less(a, b) <==> Before(a, b)
    decreases |a|
  {
    if b != [] && a != [] && a[0] == b[0] {
      LessIs(a[1..], b[1..]);
      if Less(a, b) {
        var n: nat :| PartsAt(a[1..], b[1..], n);
        PartsLater(a, b, n);
      }
      if Before(a, b) {
        var n: nat :| PartsAt(a, b, n);
        assert PartsAt(a[1..], b[1..], n - 1);
      }
    } else if Less(a, b) {
      assert PartsAt(a, b, 0);
    }
  }

  lemma PartsLater(a: Text, b: Text, n: nat)
    requires a != [] && b != [] && a[0] == b[0] && PartsAt(a[1..], b[1..], n)
    ensures PartsAt(a, b, n + 1)
  {
    forall k | 0 <= k < n + 1 ensures a[k] == b[k] {
      if k > 0 { assert a[1..][k - 1] == b[1..][k - 1]; }
    }
  }

  /** The canonical text of a value reads as that value, its keys ascending. */
  lemma {:induction false} PrintReads(v: Json) returns (t: Tree)
    requires WellKeyed(v) && Whole(v)
    ensures ReadsAs(Print(v), t) && Agrees(v, t) && Ascending(t)
    decreases v, 0
  {
    match v {
      case Null => t := NullTree; WordReads(NULL_TEXT, t);
      case Bool(b) => t := Truth(b); WordReads(if b then TRUE_TEXT else FALSE_TEXT, t);
      case Number(n) => t := Num(NumberText(n)); NumberReads(NumberText(n));
      case String(s) => t := Str(s); StringReads(s);
      case Array(items) =>
        var ts := ItemsPrinted(v, items);
        ArrayReads(PrintElements(items), ts);
        t := Arr(ts);
      case Object(entries) =>
        var xs := SortByKey(entries);
        SortPrinted(entries);
        SortedWellKeyed(entries, v);
        SortedWhole(v);
        var ms := MembersPrinted(v, xs);
        ObjectReads(Texts(PrintMembers(xs)), ms);
        t := Obj(ms);
        SortedAgrees(entries, ms);
    }
  }

  lemma {:induction false} ItemsPrinted(context: Json, items: seq<Element>) returns (ts: seq<Tree>)
    requires forall i :: 0 <= i < |items| ==>
      items[i].Item? && WellKeyed(items[i].value) && Whole(items[i].value) && items[i].value < context
    ensures |ts| == |items| && |PrintElements(items)| == |items|
    ensures forall i :: 0 <= i < |items| ==>
      ReadsAs(PrintElements(items)[i], ts[i]) && Agrees(items[i].value, ts[i]) && Ascending(ts[i])
    decreases context, 0, |items|
  {
    if items == [] {
      ts := [];
    } else {
      var t := PrintReads(items[0].value);
      var more := ItemsPrinted(context, items[1..]);
      ts := [t] + more;
    }
  }

  lemma {:induction false} MembersPrinted(context: Json, entries: seq<Keyed<Json>>) returns (ms: seq<Keyed<Tree>>)
    requires forall e :: e in entries ==> WellKeyed(e.value) && Whole(e.value) && e.value < context
    ensures |ms| == |entries| && |Texts(PrintMembers(entries))| == |entries|
    ensures forall i :: 0 <= i < |entries| ==>
      && MemberReadsAs(Texts(PrintMembers(entries))[i], ms[i])
      && AgreesMember(entries[i], ms[i]) && Ascending(ms[i].value)
    decreases context, 0, |entries|
  {
    if entries == [] {
      ms := [];
    } else {
      var e := entries[0];
      var t := PrintReads(e.value);
      var more := MembersPrinted(context, entries[1..]);
      ms := [Keyed(e.key, t)] + more;
      assert MemberReadsAs(PrintMember(e), Keyed(e.key, t));
    }
  }

  lemma SortedWhole(v: Json)
    requires v.Object? && WellKeyed(v) && Whole(v)
    ensures forall e :: e in SortByKey(v.entries) ==> Whole(e.value)
  {
    SortKeeps(v.entries);
    forall e | e in SortByKey(v.entries) ensures Whole(e.value) {
      assert e in multiset(SortByKey(v.entries));
      var i :| 0 <= i < |v.entries| && v.entries[i] == e;
    }
  }

  lemma SortedAgrees(entries: seq<Keyed<Json>>, ms: seq<Keyed<Tree>>)
    requires WellKeyed(Object(entries)) && |ms| == |SortByKey(entries)|
    requires forall i :: 0 <= i < |ms| ==> AgreesMember(SortByKey(entries)[i], ms[i]) && Ascending(ms[i].value)
    ensures Agrees(Object(entries), Obj(ms)) && Ascending(Obj(ms))
  {
    var xs := SortByKey(entries);
    SortedMembers(entries);
    SortedLength(entries);
    forall i | 0 <= i < |entries| ensures Has(ms, entries[i]) {
      assert entries[i] in xs;
      var j :| 0 <= j < |xs| && xs[j] == entries[i];
      assert AgreesMember(entries[i], ms[j]);
    }
    forall j | 0 <= j < |ms| ensures IsOf(entries, ms[j]) {
      assert xs[j] in entries;
      var i :| 0 <= i < |entries| && entries[i] == xs[j];
      assert AgreesMember(entries[i], ms[j]);
    }
    AscendingAs(xs, ms);
  }

  lemma SortedLength<T>(s: seq<Keyed<T>>)
    requires DistinctKeys(s)
    ensures |SortByKey(s)| == |s|
  {
    SortKeeps(s);
    assert |multiset(SortByKey(s))| == |SortByKey(s)| && |multiset(s)| == |s|;
  }

  lemma AscendingAs(xs: seq<Keyed<Json>>, ms: seq<Keyed<Tree>>)
    requires SortedKeys(xs) && |ms| == |xs|
    requires forall i :: 0 <= i < |ms| ==> ms[i].key == xs[i].key && Ascending(ms[i].value)
    ensures Ascending(Obj(ms))
  {
    forall i, j | 0 <= i < j < |ms| ensures Before(ms[i].key, ms[j].key) {
      LessIs(xs[i].key, xs[j].key);
    }
  }

  // ---------------------------------------------------------------- what it means

  /** What a tree means: an object is an unordered map. */
  function Meant(t: Tree): Value {
    match t
    case NullTree => VNull
    case Truth(b) => VBool(b)
    case Num(digits) => VNumber(digits)
    case Str(s) => VString(s)
    case Arr(items) => VArray(seq(|items|, i requires 0 <= i < |items| => Some(Meant(items[i]))))
    case Obj(members) =>
      VObject(ToMap(MeantMembers(members)))
  }

  lemma {:induction false} AgreesMeans(v: Json, t: Tree)
    requires Agrees(v, t) && WellKeyed(v) && Ascending(t)
    ensures Meant(t) == Meaning(v)
    decreases v, 0
  {
    match v {
      case Array(items) =>
        MeantElements(items);
        forall i | 0 <= i < |items| ensures Meant(t.items[i]) == Meaning(items[i].value) {
          AgreesMeans(items[i].value, t.items[i]);
        }
        assert Meant(t).items == MeaningElements(items);
      case Object(entries) =>
        forall e, m | e in entries && m in t.members && AgreesMember(e, m) ensures MeansMember(e, m) {
          AgreesMeans(e.value, m.value);
        }
        MembersMean(entries, t.members);
      case _ =>
    }
  }

  ghost predicate MeansMember(e: Keyed<Json>, m: Keyed<Tree>) {
    m.key == e.key && Meant(m.value) == Meaning(e.value)
  }

  function MeantMembers(ms: seq<Keyed<Tree>>): seq<Keyed<Value>> {
    seq(|ms|, i requires 0 <= i < |ms| => Keyed(ms[i].key, Meant(ms[i].value)))
  }

  lemma {:induction false} MeantElements(items: seq<Element>)
    requires forall i :: 0 <= i < |items| ==> items[i].Item?
    ensures |MeaningElements(items)| == |items|
    ensures forall i :: 0 <= i < |items| ==> MeaningElements(items)[i] == Some(Meaning(items[i].value))
  {
    if items != [] { MeantElements(items[1..]); }
  }

  lemma MembersMean(entries: seq<Keyed<Json>>, ms: seq<Keyed<Tree>>)
    requires DistinctKeys(entries) && Agrees(Object(entries), Obj(ms)) && Ascending(Obj(ms))
    requires forall e, m :: e in entries && m in ms && AgreesMember(e, m) ==> MeansMember(e, m)
    ensures Meant(Obj(ms)) == Meaning(Object(entries))
  {
    var a, b := MeaningMembers(entries), MeantMembers(ms);
    MeantKeys(entries);
    AscendingDistinct(ms);
    forall i | 0 <= i < |a| ensures a[i] in b { MemberIsMeant(entries, ms, i); }
    forall j | 0 <= j < |b| ensures b[j] in a { MeantIsMember(entries, ms, j); }
    SameMembersSameMap(a, b);
  }

  lemma MemberIsMeant(entries: seq<Keyed<Json>>, ms: seq<Keyed<Tree>>, i: nat)
    requires i < |entries| && Has(ms, entries[i])
    requires forall e, m :: e in entries && m in ms && AgreesMember(e, m) ==> MeansMember(e, m)
    ensures Keyed(entries[i].key, Meaning(entries[i].value)) in MeantMembers(ms)
  {
    var j :| 0 <= j < |ms| && AgreesMember(entries[i], ms[j]);
    assert MeansMember(entries[i], ms[j]) && MeantMembers(ms)[j].key == entries[i].key;
  }

  lemma MeantIsMember(entries: seq<Keyed<Json>>, ms: seq<Keyed<Tree>>, j: nat)
    requires j < |ms| && IsOf(entries, ms[j])
    requires forall e, m :: e in entries && m in ms && AgreesMember(e, m) ==> MeansMember(e, m)
    ensures MeantMembers(ms)[j] in MeaningMembers(entries)
  {
    var i :| 0 <= i < |entries| && AgreesMember(entries[i], ms[j]);
    MeantKeys(entries);
    assert MeansMember(entries[i], ms[j]) && MeaningMembers(entries)[i].key == ms[j].key;
  }

  lemma AscendingDistinct(ms: seq<Keyed<Tree>>)
    requires Ascending(Obj(ms))
    ensures DistinctKeys(MeantMembers(ms))
  {
    forall i, j | 0 <= i < j < |ms| ensures ms[i].key != ms[j].key {
      LessIs(ms[i].key, ms[j].key);
      LessIrreflexive(ms[i].key);
    }
  }

  // ------------------------------------------------------------------ main results

  /** The canonical text of a value without holes is JSON, and means that value. */
  lemma CanonicalTextIsJson(v: Json)
    requires WellKeyed(v) && Whole(v)
    ensures Read(Print(v)).Some?
    ensures var t := Read(Print(v)).value; Agrees(v, t) && Ascending(t) && Meant(t) == Meaning(v)
  {
    var t := PrintReads(v);
    assert Print(v) + [] == Print(v) && Follows([]);
    AgreesMeans(v, t);
  }

  /** So is the text of every accepted input without holes, however its objects are shared. */
  lemma AcceptedInputIsJson(h: Heap, v: JsValue, t: Json)
    requires Closed(h) && Known(h, v) && Denotes(h, v, t) && Whole(t)
    ensures Canonical(h, v, {}).Some? && Read(Canonical(h, v, {}).value).Some?
    ensures var r := Read(Canonical(h, v, {}).value).value; Agrees(t, r) && Ascending(r) && Meant(r) == Meaning(t)
  {
    AcceptsFiniteTrees(h, v, t);
    DenotesWellKeyed(h, v, t);
    CanonicalTextIsJson(t);
  }
}
