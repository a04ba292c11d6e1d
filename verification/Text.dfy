/** Strings as JavaScript holds them: sequences of UTF-16 code units, with the
    default `Array.prototype.sort` order on them and a sort by key. */
module Text {

  type CodeUnit = u: int | 0 <= u < 0x1_0000

  type Text = seq<CodeUnit>

  /** Code-unit order: the order of `sort()` without a comparator. */
  predicate Less(a: Text, b: Text)
    decreases |a|
  {
    b != [] && (a == [] || a[0] < b[0] || (a[0] == b[0] && Less(a[1..], b[1..])))
  }

  lemma LessTrichotomy(a: Text, b: Text)
    ensures Less(a, b) || Less(b, a) || a == b
  {
    if a != [] && b != [] && a[0] == b[0] {
      LessTrichotomy(a[1..], b[1..]);
      assert a == [a[0]] + a[1..] && b == [b[0]] + b[1..];
    }
  }

  lemma LessTransitive(a: Text, b: Text, c: Text)
    requires Less(a, b) && Less(b, c)
    ensures Less(a, c)
  {
    if a != [] && a[0] == b[0] && b[0] == c[0] {
      LessTransitive(a[1..], b[1..], c[1..]);
    }
  }

  lemma LessIrreflexive(a: Text)
    ensures !Less(a, a)
  {}

  /** A value under a key, as `Object.entries` lists it. */
  datatype Keyed<+T> = Keyed(key: Text, value: T)

  predicate DistinctKeys<T>(s: seq<Keyed<T>>) {
    forall i, j :: 0 <= i < j < |s| ==> s[i].key != s[j].key
  }

  predicate SortedKeys<T>(s: seq<Keyed<T>>) {
    forall i, j :: 0 <= i < j < |s| ==> Less(s[i].key, s[j].key)
  }

  function Insert<T>(e: Keyed<T>, s: seq<Keyed<T>>): seq<Keyed<T>> {
    if s == [] || Less(e.key, s[0].key) then [e] + s else [s[0]] + Insert(e, s[1..])
  }

  function SortByKey<T>(s: seq<Keyed<T>>): seq<Keyed<T>> {
    if s == [] then [] else Insert(s[0], SortByKey(s[1..]))
  }

  lemma {:induction false} InsertKeeps<T>(e: Keyed<T>, s: seq<Keyed<T>>)
    ensures multiset(Insert(e, s)) == multiset(s) + multiset{e}
  {
    if s != [] && !Less(e.key, s[0].key) {
      InsertKeeps(e, s[1..]);
      assert s == [s[0]] + s[1..];
    }
  }

  lemma {:induction false} InsertSorts<T>(e: Keyed<T>, s: seq<Keyed<T>>)
    requires SortedKeys(s) && forall i :: 0 <= i < |s| ==> s[i].key != e.key
    ensures SortedKeys(Insert(e, s))
  {
    if s == [] {
    } else if Less(e.key, s[0].key) {
      forall j | 0 <= j < |s| ensures Less(e.key, s[j].key) {
        if j > 0 { LessTransitive(e.key, s[0].key, s[j].key); }
      }
    } else {
      var r := Insert(e, s[1..]);
      InsertSorts(e, s[1..]);
      InsertKeeps(e, s[1..]);
      LessTrichotomy(e.key, s[0].key);
      forall i | 0 <= i < |r| ensures Less(s[0].key, r[i].key) {
        assert r[i] in multiset(r);
        if r[i] != e { var k :| 1 <= k < |s| && s[k] == r[i]; }
      }
    }
  }

  lemma {:induction false} SortKeeps<T>(s: seq<Keyed<T>>)
    requires DistinctKeys(s)
    ensures SortedKeys(SortByKey(s))
    ensures multiset(SortByKey(s)) == multiset(s)
  {
    if s != [] {
      SortKeeps(s[1..]);
      InsertKeeps(s[0], SortByKey(s[1..]));
      var r := SortByKey(s[1..]);
      forall i | 0 <= i < |r| ensures r[i].key != s[0].key {
        assert r[i] in multiset(r);
        var k :| 1 <= k < |s| && s[k] == r[i];
      }
      InsertSorts(s[0], r);
      assert s == [s[0]] + s[1..];
    }
  }

  /** A sorted listing is determined by its elements. */
  lemma {:induction false} SortedUnique<T>(a: seq<Keyed<T>>, b: seq<Keyed<T>>)
    requires SortedKeys(a) && SortedKeys(b)
    requires forall x :: x in a <==> x in b
    ensures a == b
  {
    assert a != [] ==> a[0] in b;
    assert b != [] ==> b[0] in a;
    if a == [] || b == [] {
    } else {
      if a[0] != b[0] {
        LessTransitive(a[0].key, b[0].key, a[0].key);
        LessIrreflexive(a[0].key);
      }
      assert a == [a[0]] + a[1..] && b == [b[0]] + b[1..];
      forall x ensures x in a[1..] <==> x in b[1..] {
        LessIrreflexive(a[0].key);
        if x in a[1..] { assert x in a; assert x != a[0]; }
        if x in b[1..] { assert x in b; assert x != b[0]; }
      }
      SortedUnique(a[1..], b[1..]);
    }
  }
}
