/** Two values print alike exactly when they mean the same. */
module CanonicalInjective {
  import opened Text
  import opened Utf8
  import opened CanonicalJson

  /** What may come after a value: nothing, a comma or a closing bracket. */
  predicate Follows(s: Text) {
    s == [] || s[0] in {COMMA, CLOSE_BRACKET, CLOSE_BRACE}
  }

  lemma DropFirst(a: Text, b: Text, s: Text, t: Text)
    requires a + s == b + t && |a| == |b|
    ensures a == b && s == t
  {
    assert a == (a + s)[..|a|] && b == (b + t)[..|b|];
    assert s == (a + s)[|a|..] && t == (b + t)[|b|..];
  }

  lemma Assoc(a: Text, b: Text, c: Text)
    ensures a + b + c == a + (b + c)
  {}

  lemma Assoc5(a: Text, b: Text, c: Text, d: Text, e: Text)
    ensures a + b + c + d + e == a + (b + (c + d + e))
  {
    Assoc(a + b, c, d);
    Assoc(a + b, c + d, e);
    Assoc(a, b, c + d + e);
  }

  lemma At(a: Text, s: Text, w: Text, i: nat)
    requires w == a + s && i < |w|
    ensures w[i] == if i < |a| then a[i] else s[i - |a|]
  {}

  // ---------------------------------------------------------------- strings

  lemma Hex4Injective(u: CodeUnit, v: CodeUnit)
    requires Hex4(u) == Hex4(v)
    ensures u == v
  {
    var a, b := Hex4(u), Hex4(v);
    assert a[3] == b[3] && a[2] == b[2] && a[1] == b[1] && a[0] == b[0];
    assert u % 16 == v % 16 && u / 16 % 16 == v / 16 % 16 && u / 16 / 16 % 16 == v / 16 / 16 % 16;
    assert u / 16 / 16 / 16 == v / 16 / 16 / 16;
  }

  lemma EscapeUnitCancel(u: CodeUnit, v: CodeUnit, s: Text, t: Text)
    requires EscapeUnit(u) + s == EscapeUnit(v) + t
    ensures u == v && s == t
  {
    var a, b := EscapeUnit(u) + s, EscapeUnit(v) + t;
    assert a[0] == b[0];
    if a[0] == BACKSLASH {
      assert a[1] == b[1];
      DropFirst(EscapeUnit(u), EscapeUnit(v), s, t);
      if a[1] == 117 {
        assert Hex4(u) == EscapeUnit(u)[2..] && Hex4(v) == EscapeUnit(v)[2..];
        Hex4Injective(u, v);
      }
    } else {
      DropFirst([u], [v], s, t);
    }
  }

  /** `Escape(x)`, the closing quotation mark, then `s`. */
  function EscapeThen(x: Text, s: Text): Text {
    if x == [] then [QUOTATION] + s
    else if Paired(x) then x[..2] + EscapeThen(x[2..], s)
    else EscapeUnit(x[0]) + EscapeThen(x[1..], s)
  }

  lemma {:induction false} EscapeThenIs(x: Text, s: Text)
    ensures Escape(x) + [QUOTATION] + s == EscapeThen(x, s)
  {
    if x == [] {
      assert Escape(x) + [QUOTATION] == [QUOTATION];
    } else {
      var n := if Paired(x) then 2 else 1;
      var first := if Paired(x) then x[..2] else EscapeUnit(x[0]);
      EscapeThenIs(x[n..], s);
      Assoc(first, Escape(x[n..]), [QUOTATION]);
      Assoc(first, Escape(x[n..]) + [QUOTATION], s);
    }
  }

  /** The first unit tells the closing mark, a surrogate pair and an escape apart. */
  lemma EscapeThenFirst(x: Text, s: Text)
    ensures EscapeThen(x, s) != []
    ensures EscapeThen(x, s)[0] == QUOTATION <==> x == []
    ensures High(EscapeThen(x, s)[0]) <==> Paired(x)
  {}

  lemma {:induction false} EscapeCancel(x: Text, y: Text, s: Text, t: Text)
    requires EscapeThen(x, s) == EscapeThen(y, t)
    ensures x == y && s == t
    decreases |x|
  {
    EscapeThenFirst(x, s);
    EscapeThenFirst(y, t);
    if x == [] {
      DropFirst([QUOTATION], [QUOTATION], s, t);
    } else if Paired(x) {
      DropFirst(x[..2], y[..2], EscapeThen(x[2..], s), EscapeThen(y[2..], t));
      EscapeCancel(x[2..], y[2..], s, t);
      assert x == x[..2] + x[2..] && y == y[..2] + y[2..];
    } else {
      EscapeUnitCancel(x[0], y[0], EscapeThen(x[1..], s), EscapeThen(y[1..], t));
      EscapeCancel(x[1..], y[1..], s, t);
      assert x == [x[0]] + x[1..] && y == [y[0]] + y[1..];
    }
  }

  lemma QuoteThen(x: Text, s: Text)
    ensures Quote(x) + s == [QUOTATION] + EscapeThen(x, s)
  {
    EscapeThenIs(x, s);
    Assoc([QUOTATION], Escape(x), [QUOTATION]);
    Assoc([QUOTATION], Escape(x) + [QUOTATION], s);
  }

  lemma QuoteCancel(x: Text, y: Text, s: Text, t: Text)
    requires Quote(x) + s == Quote(y) + t
    ensures x == y && s == t
  {
    QuoteThen(x, s);
    QuoteThen(y, t);
    DropFirst([QUOTATION], [QUOTATION], EscapeThen(x, s), EscapeThen(y, t));
    EscapeCancel(x, y, s, t);
  }

  lemma TokenCancel(a: Token, b: Token, s: Text, t: Text)
    requires Follows(s) && Follows(t) && a + s == b + t
    ensures a == b && s == t
  {
    var w := a + s;
    if |a| != |b| {
      var i := if |a| < |b| then |a| else |b|;
      At(a, s, w, i);
      At(b, t, w, i);
    }
    DropFirst(a, b, s, t);
  }

  // -------------------------------------------------------------- sequences

  /** The rest of a comma-separated list from the comma or closing bracket on. */
  function Tail(ts: seq<Text>, close: CodeUnit, s: Text): Text {
    if ts == [] then [close] + s else [COMMA] + ts[0] + Tail(ts[1..], close, s)
  }

  lemma {:induction false} JoinTail(ts: seq<Text>, close: CodeUnit, s: Text)
    requires ts != []
    ensures Join(ts) + [close] + s == ts[0] + Tail(ts[1..], close, s)
  {
    if |ts| == 1 {
      Assoc(ts[0], [close], s);
    } else {
      JoinTail(ts[1..], close, s);
      Assoc5(ts[0], [COMMA], Join(ts[1..]), [close], s);
      Assoc([COMMA], ts[1], Tail(ts[1..][1..], close, s));
    }
  }

  /** A printed value is nonempty and starts unlike anything that may follow one. */
  lemma PrintStart(v: Json)
    ensures Print(v) != [] && !Follows(Print(v))
  {
    if v.Number? {
      var t := NumberText(v.n);
      assert 48 <= t[0] <= 57 || t[0] in {43, 45, 46, 101};
    }
  }

  lemma SortPrinted(entries: seq<Keyed<Json>>)
    ensures SortByKey(PrintMembers(entries)) == PrintMembers(SortByKey(entries))
  {
    if entries != [] {
      SortPrinted(entries[1..]);
      InsertPrinted(entries[0], SortByKey(entries[1..]));
    }
  }

  lemma InsertPrinted(e: Keyed<Json>, s: seq<Keyed<Json>>)
    ensures Insert(Keyed(e.key, PrintMember(e)), PrintMembers(s)) == PrintMembers(Insert(e, s))
  {
    if s != [] && !Less(e.key, s[0].key) { InsertPrinted(e, s[1..]); }
  }

  lemma SortMeant(entries: seq<Keyed<Json>>)
    ensures SortByKey(MeaningMembers(entries)) == MeaningMembers(SortByKey(entries))
  {
    if entries != [] {
      SortMeant(entries[1..]);
      InsertMeant(entries[0], SortByKey(entries[1..]));
    }
  }

  lemma InsertMeant(e: Keyed<Json>, s: seq<Keyed<Json>>)
    ensures Insert(Keyed(e.key, Meaning(e.value)), MeaningMembers(s)) == MeaningMembers(Insert(e, s))
  {
    if s != [] && !Less(e.key, s[0].key) { InsertMeant(e, s[1..]); }
  }

  lemma MeantKeys(entries: seq<Keyed<Json>>)
    ensures |MeaningMembers(entries)| == |entries|
    ensures forall i :: 0 <= i < |entries| ==>
      MeaningMembers(entries)[i] == Keyed(entries[i].key, Meaning(entries[i].value))
  {
    if entries != [] { MeantKeys(entries[1..]); }
  }

  // ------------------------------------------------- equal text, equal meaning

  /** The first unit of a printed value tells which kind of value it is. */
  lemma StartTellsKind(a: Json, b: Json)
    requires Print(a) != [] && Print(b) != [] && Print(a)[0] == Print(b)[0]
    ensures a.Null? <==> b.Null?
    ensures a.Bool? <==> b.Bool?
    ensures a.Bool? ==> a == b
    ensures a.Number? <==> b.Number?
    ensures a.String? <==> b.String?
    ensures a.Array? <==> b.Array?
    ensures a.Object? <==> b.Object?
  {
    if a.Number? { NumberStart(a); }
    if b.Number? { NumberStart(b); }
  }

  lemma NumberStart(a: Json)
    requires a.Number?
    ensures 48 <= Print(a)[0] <= 57 || Print(a)[0] in {43, 45, 46, 101}
  {
    var t := NumberText(a.n);
    assert t == Print(a);
  }

  lemma {:induction false} Cancel(a: Json, b: Json, s: Text, t: Text)
    requires WellKeyed(a) && WellKeyed(b) && Follows(s) && Follows(t)
    requires Print(a) + s == Print(b) + t
    ensures Meaning(a) == Meaning(b) && s == t
    decreases a, 0
  {
    PrintStart(a);
    PrintStart(b);
    At(Print(a), s, Print(a) + s, 0);
    At(Print(b), t, Print(b) + t, 0);
    StartTellsKind(a, b);
    match a {
      case Number(n) => TokenCancel(NumberText(n), NumberText(b.n), s, t);
      case String(x) => QuoteCancel(x, b.s, s, t);
      case Array(items) => CancelArray(a, b, s, t);
      case Object(entries) => CancelObject(a, b, s, t);
      case _ => DropFirst(Print(a), Print(b), s, t);
    }
  }

  /** An array body starts with the closing bracket just when it prints as nothing. */
  lemma ArrayBodyStart(items: seq<Element>, s: Text)
    ensures Join(PrintElements(items)) + [CLOSE_BRACKET] + s != []
    ensures (Join(PrintElements(items)) + [CLOSE_BRACKET] + s)[0] == CLOSE_BRACKET <==> items == [] || items == [Hole]
    ensures items == [] || items == [Hole] ==> Join(PrintElements(items)) + [CLOSE_BRACKET] + s == [CLOSE_BRACKET] + s
  {
    if items != [] {
      JoinTail(PrintElements(items), CLOSE_BRACKET, s);
      var rest := Tail(PrintElements(items[1..]), CLOSE_BRACKET, s);
      if items[0].Item? {
        PrintStart(items[0].value);
        At(Print(items[0].value), rest, Print(items[0].value) + rest, 0);
      } else {
        assert [] + rest == rest;
        assert items[1..] == [] ==> items == [Hole];
      }
    }
  }

  lemma {:induction false} CancelArray(a: Json, b: Json, s: Text, t: Text)
    requires a.Array? && b.Array? && WellKeyed(a) && WellKeyed(b) && Follows(s) && Follows(t)
    requires Print(a) + s == Print(b) + t
    ensures Meaning(a) == Meaning(b) && s == t
    decreases a, 0, |a.items| + 1
  {
    var xs, ys := a.items, b.items;
    var p, q := Join(PrintElements(xs)) + [CLOSE_BRACKET] + s, Join(PrintElements(ys)) + [CLOSE_BRACKET] + t;
    Bracketed(OPEN_BRACKET, Join(PrintElements(xs)), CLOSE_BRACKET, s);
    Bracketed(OPEN_BRACKET, Join(PrintElements(ys)), CLOSE_BRACKET, t);
    DropFirst([OPEN_BRACKET], [OPEN_BRACKET], p, q);
    ArrayBodyStart(xs, s);
    ArrayBodyStart(ys, t);
    if xs == [] || xs == [Hole] {
      DropFirst([CLOSE_BRACKET], [CLOSE_BRACKET], s, t);
    } else {
      JoinTail(PrintElements(xs), CLOSE_BRACKET, s);
      JoinTail(PrintElements(ys), CLOSE_BRACKET, t);
      CancelElement(a, xs, ys, s, t);
    }
  }

  lemma Bracketed(open: CodeUnit, body: Text, close: CodeUnit, s: Text)
    ensures [open] + body + [close] + s == [open] + (body + [close] + s)
  {
    Assoc([open], body, [close]);
    Assoc([open], body + [close], s);
  }

  lemma {:induction false} CancelElement(context: Json, xs: seq<Element>, ys: seq<Element>, s: Text, t: Text)
    requires xs != [] && ys != [] && Follows(s) && Follows(t)
    requires forall i :: 0 <= i < |xs| && xs[i].Item? ==> WellKeyed(xs[i].value) && xs[i].value < context
    requires forall i :: 0 <= i < |ys| && ys[i].Item? ==> WellKeyed(ys[i].value)
    requires PrintElement(xs[0]) + Tail(PrintElements(xs[1..]), CLOSE_BRACKET, s)
          == PrintElement(ys[0]) + Tail(PrintElements(ys[1..]), CLOSE_BRACKET, t)
    ensures MeaningElements(xs) == MeaningElements(ys) && s == t
    decreases context, 0, |xs|
  {
    var p, q := Tail(PrintElements(xs[1..]), CLOSE_BRACKET, s), Tail(PrintElements(ys[1..]), CLOSE_BRACKET, t);
    ElementStart(xs[0], p);
    ElementStart(ys[0], q);
    if xs[0].Item? { Cancel(xs[0].value, ys[0].value, p, q); }
    if xs[1..] == [] || ys[1..] == [] {
      DropFirst([CLOSE_BRACKET], [CLOSE_BRACKET], s, t);
    } else {
      TailStep(PrintElements(xs[1..]), CLOSE_BRACKET, s);
      TailStep(PrintElements(ys[1..]), CLOSE_BRACKET, t);
      DropFirst([COMMA], [COMMA], p[1..], q[1..]);
      CancelElement(context, xs[1..], ys[1..], s, t);
    }
  }

  lemma ElementStart(e: Element, p: Text)
    requires p != [] && Follows(p)
    ensures PrintElement(e) + p != []
    ensures e.Hole? <==> Follows(PrintElement(e) + p)
    ensures e.Hole? ==> PrintElement(e) + p == p
  {
    if e.Item? {
      PrintStart(e.value);
      At(Print(e.value), p, Print(e.value) + p, 0);
    }
  }

  lemma TailStep(ts: seq<Text>, close: CodeUnit, s: Text)
    requires ts != []
    ensures Tail(ts, close, s) == [COMMA] + (ts[0] + Tail(ts[1..], close, s))
  {
    Assoc([COMMA], ts[0], Tail(ts[1..], close, s));
  }

  lemma ObjectBodyStart(ms: seq<Keyed<Json>>, s: Text)
    ensures Join(Texts(PrintMembers(ms))) + [CLOSE_BRACE] + s != []
    ensures (Join(Texts(PrintMembers(ms))) + [CLOSE_BRACE] + s)[0] == CLOSE_BRACE <==> ms == []
    ensures ms == [] ==> Join(Texts(PrintMembers(ms))) + [CLOSE_BRACE] + s == [CLOSE_BRACE] + s
  {
    if ms != [] {
      var rest := Tail(Texts(PrintMembers(ms[1..])), CLOSE_BRACE, s);
      JoinTail(Texts(PrintMembers(ms)), CLOSE_BRACE, s);
      At(PrintMember(ms[0]), rest, PrintMember(ms[0]) + rest, 0);
      MemberThen(ms[0], rest);
    }
  }

  lemma {:induction false} CancelObject(a: Json, b: Json, s: Text, t: Text)
    requires a.Object? && b.Object? && WellKeyed(a) && WellKeyed(b) && Follows(s) && Follows(t)
    requires Print(a) + s == Print(b) + t
    ensures Meaning(a) == Meaning(b) && s == t
    decreases a, 0, |a.entries| + 1
  {
    var xs, ys := SortByKey(a.entries), SortByKey(b.entries);
    SortPrinted(a.entries);
    SortPrinted(b.entries);
    var p, q := Join(Texts(PrintMembers(xs))) + [CLOSE_BRACE] + s, Join(Texts(PrintMembers(ys))) + [CLOSE_BRACE] + t;
    Bracketed(OPEN_BRACE, Join(Texts(PrintMembers(xs))), CLOSE_BRACE, s);
    Bracketed(OPEN_BRACE, Join(Texts(PrintMembers(ys))), CLOSE_BRACE, t);
    DropFirst([OPEN_BRACE], [OPEN_BRACE], p, q);
    ObjectBodyStart(xs, s);
    ObjectBodyStart(ys, t);
    SortedWellKeyed(a.entries, a);
    SortedWellKeyed(b.entries, b);
    if xs == [] {
      DropFirst([CLOSE_BRACE], [CLOSE_BRACE], s, t);
    } else {
      SortKeeps(a.entries);
      assert |multiset(xs)| == |xs| && |multiset(a.entries)| == |a.entries|;
      JoinTail(Texts(PrintMembers(xs)), CLOSE_BRACE, s);
      JoinTail(Texts(PrintMembers(ys)), CLOSE_BRACE, t);
      CancelMember(a, xs, ys, s, t);
    }
    ToMapSorted(a.entries, b.entries);
  }

  lemma MemberThen(e: Keyed<Json>, p: Text)
    ensures PrintMember(e) + p == Quote(e.key) + ([COLON] + (Print(e.value) + p))
  {
    Assoc(Quote(e.key), [COLON], Print(e.value));
    Assoc(Quote(e.key), [COLON] + Print(e.value), p);
    Assoc([COLON], Print(e.value), p);
  }

  lemma {:induction false} CancelMember(context: Json, xs: seq<Keyed<Json>>, ys: seq<Keyed<Json>>, s: Text, t: Text)
    requires xs != [] && ys != [] && Follows(s) && Follows(t)
    requires forall e :: e in xs ==> WellKeyed(e.value) && e.value < context
    requires forall e :: e in ys ==> WellKeyed(e.value)
    requires PrintMember(xs[0]) + Tail(Texts(PrintMembers(xs[1..])), CLOSE_BRACE, s)
          == PrintMember(ys[0]) + Tail(Texts(PrintMembers(ys[1..])), CLOSE_BRACE, t)
    ensures MeaningMembers(xs) == MeaningMembers(ys) && s == t
    decreases context, 0, |xs|
  {
    var p, q := Tail(Texts(PrintMembers(xs[1..])), CLOSE_BRACE, s), Tail(Texts(PrintMembers(ys[1..])), CLOSE_BRACE, t);
    CancelOneMember(context, xs[0], ys[0], p, q);
    if xs[1..] == [] || ys[1..] == [] {
      DropFirst([CLOSE_BRACE], [CLOSE_BRACE], s, t);
    } else {
      TailStep(Texts(PrintMembers(xs[1..])), CLOSE_BRACE, s);
      TailStep(Texts(PrintMembers(ys[1..])), CLOSE_BRACE, t);
      DropFirst([COMMA], [COMMA], p[1..], q[1..]);
      CancelMember(context, xs[1..], ys[1..], s, t);
    }
  }

  lemma {:induction false} CancelOneMember(context: Json, x: Keyed<Json>, y: Keyed<Json>, p: Text, q: Text)
    requires WellKeyed(x.value) && WellKeyed(y.value) && x.value < context && Follows(p) && Follows(q)
    requires PrintMember(x) + p == PrintMember(y) + q
    ensures x.key == y.key && Meaning(x.value) == Meaning(y.value) && p == q
    decreases context, 0, 0
  {
    MemberThen(x, p);
    MemberThen(y, q);
    QuoteCancel(x.key, y.key, [COLON] + (Print(x.value) + p), [COLON] + (Print(y.value) + q));
    DropFirst([COLON], [COLON], Print(x.value) + p, Print(y.value) + q);
    Cancel(x.value, y.value, p, q);
  }

  lemma SortedWellKeyed(entries: seq<Keyed<Json>>, context: Json)
    requires context == Object(entries) && WellKeyed(context)
    ensures forall e :: e in SortByKey(entries) ==> WellKeyed(e.value) && e.value < context
  {
    SortKeeps(entries);
    forall e | e in SortByKey(entries) ensures WellKeyed(e.value) && e.value < context {
      assert e in multiset(SortByKey(entries));
      var i :| 0 <= i < |entries| && entries[i] == e;
    }
  }

  // --------------------------------------------------------- objects as maps

  lemma ToMapItems<T>(s: seq<Keyed<T>>)
    requires DistinctKeys(s)
    ensures forall k :: k in ToMap(s) ==> Keyed(k, ToMap(s)[k]) in s
    ensures forall i :: 0 <= i < |s| ==> s[i].key in ToMap(s) && ToMap(s)[s[i].key] == s[i].value
  {
    if s != [] {
      ToMapItems(s[1..]);
      forall i | 0 <= i < |s| ensures s[i].key in ToMap(s) && ToMap(s)[s[i].key] == s[i].value {
        if i > 0 { assert s[i] == s[1..][i - 1]; }
      }
    }
  }

  lemma SortedMembers<T>(s: seq<Keyed<T>>)
    requires DistinctKeys(s)
    ensures SortedKeys(SortByKey(s)) && forall x :: x in SortByKey(s) <==> x in s
  {
    SortKeeps(s);
    forall x ensures x in SortByKey(s) <==> x in s {
      assert x in SortByKey(s) <==> x in multiset(SortByKey(s));
      assert x in multiset(s) <==> x in s;
    }
  }

  lemma SameMapSameMembers<T>(a: seq<Keyed<T>>, b: seq<Keyed<T>>)
    requires DistinctKeys(a) && DistinctKeys(b) && ToMap(a) == ToMap(b)
    ensures forall x :: x in a ==> x in b
  {
    ToMapItems(a);
    ToMapItems(b);
    forall x | x in a ensures x in b { assert x == Keyed(x.key, ToMap(a)[x.key]); }
  }

  lemma SameMembersSameMap<T>(a: seq<Keyed<T>>, b: seq<Keyed<T>>)
    requires DistinctKeys(a) && DistinctKeys(b) && forall x :: x in a <==> x in b
    ensures ToMap(a) == ToMap(b)
  {
    ToMapItems(a);
    ToMapItems(b);
    assert forall k :: k in ToMap(a) ==> Keyed(k, ToMap(a)[k]) in b;
    assert forall k :: k in ToMap(b) ==> Keyed(k, ToMap(b)[k]) in a;
  }

  /** Two duplicate-free listings of the same map sort to the same listing. */
  lemma SameMapSameSort<T>(a: seq<Keyed<T>>, b: seq<Keyed<T>>)
    requires DistinctKeys(a) && DistinctKeys(b)
    ensures ToMap(a) == ToMap(b) <==> SortByKey(a) == SortByKey(b)
  {
    SortedMembers(a);
    SortedMembers(b);
    if ToMap(a) == ToMap(b) {
      SameMapSameMembers(a, b);
      SameMapSameMembers(b, a);
      SortedUnique(SortByKey(a), SortByKey(b));
    }
    if SortByKey(a) == SortByKey(b) { SameMembersSameMap(a, b); }
  }

  lemma ToMapSorted(a: seq<Keyed<Json>>, b: seq<Keyed<Json>>)
    requires DistinctKeys(a) && DistinctKeys(b)
    ensures ToMap(MeaningMembers(a)) == ToMap(MeaningMembers(b))
      <==> MeaningMembers(SortByKey(a)) == MeaningMembers(SortByKey(b))
  {
    MeantKeys(a);
    MeantKeys(b);
    SortMeant(a);
    SortMeant(b);
    SameMapSameSort(MeaningMembers(a), MeaningMembers(b));
  }

  // ------------------------------------------------- equal meaning, equal text

  lemma {:induction false} SameMeaningSameText(a: Json, b: Json)
    requires WellKeyed(a) && WellKeyed(b) && Meaning(a) == Meaning(b)
    ensures Print(a) == Print(b)
    decreases a, 0
  {
    match a {
      case Array(items) =>
        if items == [] || items == [Hole] {
          LoneHoleCollides();
          assert b.items == [] || b.items == [Hole];
        } else {
          SameElements(a, items, b.items);
        }
      case Object(entries) =>
        var xs, ys := SortByKey(entries), SortByKey(b.entries);
        ToMapSorted(entries, b.entries);
        SortedWellKeyed(entries, a);
        SortedWellKeyed(b.entries, b);
        SameMembers(a, xs, ys);
        SortPrinted(entries);
        SortPrinted(b.entries);
      case _ =>
    }
  }

  lemma {:induction false} SameElements(context: Json, xs: seq<Element>, ys: seq<Element>)
    requires forall i :: 0 <= i < |xs| && xs[i].Item? ==> WellKeyed(xs[i].value) && xs[i].value < context
    requires forall i :: 0 <= i < |ys| && ys[i].Item? ==> WellKeyed(ys[i].value)
    requires MeaningElements(xs) == MeaningElements(ys)
    ensures PrintElements(xs) == PrintElements(ys)
    decreases context, 0, |xs|
  {
    if xs != [] {
      assert MeaningElement(xs[0]) == MeaningElements(xs)[0] == MeaningElements(ys)[0] == MeaningElement(ys[0]);
      assert MeaningElements(xs[1..]) == MeaningElements(xs)[1..] == MeaningElements(ys[1..]);
      if xs[0].Item? { SameMeaningSameText(xs[0].value, ys[0].value); }
      SameElements(context, xs[1..], ys[1..]);
    }
  }

  lemma {:induction false} SameMembers(context: Json, xs: seq<Keyed<Json>>, ys: seq<Keyed<Json>>)
    requires forall e :: e in xs ==> WellKeyed(e.value) && e.value < context
    requires forall e :: e in ys ==> WellKeyed(e.value)
    requires MeaningMembers(xs) == MeaningMembers(ys)
    ensures PrintMembers(xs) == PrintMembers(ys)
    decreases context, 0, |xs|
  {
    if xs != [] {
      var x, y := xs[0], ys[0];
      assert Keyed(x.key, Meaning(x.value)) == MeaningMembers(xs)[0];
      assert MeaningMembers(xs)[0] == MeaningMembers(ys)[0] == Keyed(y.key, Meaning(y.value));
      assert MeaningMembers(xs[1..]) == MeaningMembers(xs)[1..] == MeaningMembers(ys[1..]);
      SameMeaningSameText(x.value, y.value);
      SameMembers(context, xs[1..], ys[1..]);
    }
  }

  // ------------------------------------------------------------ main results

  /** The canonical text identifies a value up to object key order. */
  lemma CanonicalTextIdentifies(a: Json, b: Json)
    requires WellKeyed(a) && WellKeyed(b)
    ensures Print(a) == Print(b) <==> Meaning(a) == Meaning(b)
  {
    if Print(a) == Print(b) {
      assert Print(a) + [] == Print(b) + [];
      Cancel(a, b, [], []);
    }
    if Meaning(a) == Meaning(b) { SameMeaningSameText(a, b); }
  }

  /** The one collision between different arrays: a lone hole prints as nothing. */
  lemma LoneHoleCollides()
    ensures Array([Hole]) != Array([]) && Print(Array([Hole])) == Print(Array([]))
  {
    assert PrintElements([Hole]) == [PrintElement(Hole)] + PrintElements([]);
  }
}
