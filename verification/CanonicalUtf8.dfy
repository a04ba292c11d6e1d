/** Canonical text comes back from its UTF-8 bytes: lone surrogates are escaped. */
module CanonicalUtf8 {
  import opened Text
  import opened Utf8
  import opened CanonicalJson

  lemma {:induction false} WellFormedConcat(a: Text, b: Text)
    requires WellFormed(a) && WellFormed(b)
    ensures WellFormed(a + b)
    decreases |a|
  {
    if a == [] {
      assert a + b == b;
    } else if Paired(a) {
      assert (a + b)[2..] == a[2..] + b;
      WellFormedConcat(a[2..], b);
    } else {
      assert (a + b)[1..] == a[1..] + b;
      WellFormedConcat(a[1..], b);
    }
  }

  lemma {:induction false} NoSurrogates(s: Text)
    requires forall i :: 0 <= i < |s| ==> !High(s[i]) && !Low(s[i])
    ensures WellFormed(s)
  {
    if s != [] { NoSurrogates(s[1..]); }
  }

  lemma EscapedUnit(u: CodeUnit)
    ensures WellFormed(EscapeUnit(u))
  {
    NoSurrogates(EscapeUnit(u));
  }

  /** A pair stays as it is, and a lone surrogate is escaped. */
  lemma {:induction false} EscapedIsWellFormed(s: Text)
    ensures WellFormed(Escape(s))
  {
    if s == [] {
    } else if Paired(s) {
      EscapedIsWellFormed(s[2..]);
      var e := s[..2] + Escape(s[2..]);
      assert Paired(e) && e[2..] == Escape(s[2..]);
    } else {
      EscapedUnit(s[0]);
      EscapedIsWellFormed(s[1..]);
      WellFormedConcat(EscapeUnit(s[0]), Escape(s[1..]));
    }
  }

  lemma QuotedIsWellFormed(s: Text)
    ensures WellFormed(Quote(s))
  {
    EscapedIsWellFormed(s);
    NoSurrogates([QUOTATION]);
    WellFormedConcat([QUOTATION], Escape(s));
    WellFormedConcat([QUOTATION] + Escape(s), [QUOTATION]);
  }

  predicate AllWellFormed(ts: seq<Text>) {
    forall t :: t in ts ==> WellFormed(t)
  }

  lemma {:induction false} JoinedIsWellFormed(ts: seq<Text>)
    requires AllWellFormed(ts)
    ensures WellFormed(Join(ts))
  {
    if |ts| > 1 {
      NoSurrogates([COMMA]);
      assert forall t :: t in ts[1..] ==> t in ts;
      JoinedIsWellFormed(ts[1..]);
      WellFormedConcat(ts[0], [COMMA]);
      WellFormedConcat(ts[0] + [COMMA], Join(ts[1..]));
    }
  }

  lemma BracketedIsWellFormed(open: CodeUnit, body: Text, close: CodeUnit)
    requires WellFormed(body) && open < 0xD800 && close < 0xD800
    ensures WellFormed([open] + body + [close])
  {
    NoSurrogates([open]);
    NoSurrogates([close]);
    WellFormedConcat([open], body);
    WellFormedConcat([open] + body, [close]);
  }

  lemma {:induction false} SortedFrom<T>(s: seq<Keyed<T>>)
    ensures forall e :: e in SortByKey(s) ==> e in s
  {
    if s != [] {
      SortedFrom(s[1..]);
      InsertKeeps(s[0], SortByKey(s[1..]));
      forall e | e in SortByKey(s) ensures e in s {
        assert e in multiset(SortByKey(s));
        assert e in multiset(SortByKey(s[1..])) || e == s[0];
      }
    }
  }

  lemma {:induction false} TextsFrom(ms: seq<Keyed<Text>>)
    ensures forall t :: t in Texts(ms) ==> exists m :: m in ms && m.value == t
  {
    if ms != [] {
      TextsFrom(ms[1..]);
      forall t | t in Texts(ms) ensures exists m :: m in ms && m.value == t {
        if t == ms[0].value {
          assert ms[0] in ms;
        } else {
          assert t in Texts(ms[1..]);
          var m :| m in ms[1..] && m.value == t;
          assert m in ms;
        }
      }
    }
  }

  /** The text of any value is well formed, whatever strings and keys it holds. */
  lemma {:induction false} PrintIsWellFormed(v: Json)
    ensures WellFormed(Print(v))
    decreases v, 1
  {
    match v
    case Null => NoSurrogates(NULL_TEXT);
    case Bool(b) => NoSurrogates(Print(v));
    case Number(n) => NoSurrogates(NumberText(n));
    case String(s) => QuotedIsWellFormed(s);
    case Array(items) =>
      ElementsAreWellFormed(items);
      JoinedIsWellFormed(PrintElements(items));
      BracketedIsWellFormed(OPEN_BRACKET, Join(PrintElements(items)), CLOSE_BRACKET);
    case Object(entries) =>
      MembersAreWellFormed(entries);
      var ms := SortByKey(PrintMembers(entries));
      SortedFrom(PrintMembers(entries));
      TextsFrom(ms);
      JoinedIsWellFormed(Texts(ms));
      BracketedIsWellFormed(OPEN_BRACE, Join(Texts(ms)), CLOSE_BRACE);
  }

  lemma {:induction false} ElementsAreWellFormed(items: seq<Element>)
    ensures AllWellFormed(PrintElements(items))
    decreases items, 0
  {
    if items != [] {
      ElementIsWellFormed(items[0]);
      ElementsAreWellFormed(items[1..]);
    }
  }

  lemma {:induction false} ElementIsWellFormed(e: Element)
    ensures WellFormed(PrintElement(e))
    decreases e, 2
  {
    if e.Item? { PrintIsWellFormed(e.value); }
  }

  lemma {:induction false} MembersAreWellFormed(entries: seq<Keyed<Json>>)
    ensures forall m :: m in PrintMembers(entries) ==> WellFormed(m.value)
    decreases entries, 0
  {
    if entries != [] {
      QuotedIsWellFormed(entries[0].key);
      NoSurrogates([COLON]);
      PrintIsWellFormed(entries[0].value);
      WellFormedConcat(Quote(entries[0].key), [COLON]);
      WellFormedConcat(Quote(entries[0].key) + [COLON], Print(entries[0].value));
      MembersAreWellFormed(entries[1..]);
    }
  }
}
