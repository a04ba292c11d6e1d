/** `canonicalJson` walks JavaScript objects, which share and may form cycles; the
    `seen` set holds the objects on the current path.  It accepts exactly the
    graphs that unfold to a finite JSON tree, and prints that tree. */
module CanonicalGraph {
  import opened Options
  import opened Text
  import opened CanonicalJson
  import opened Utf8
  import CanonicalInjective
  import CanonicalUtf8

  /** A JavaScript value; Unsupported is undefined, a function, a symbol or a bigint. */
  datatype JsValue =
    | JNull
    | JBool(b: bool)
    | JNumber(n: JsNumber)
    | JNotFinite
    | JString(s: Text)
    | JRef(id: int)
    | JUnsupported

  datatype Slot = Gap | Filled(v: JsValue)

  /** Exotic is an object whose prototype is neither Object.prototype nor null. */
  datatype HeapObject =
    | JArray(slots: seq<Slot>)
    | JPlain(entries: seq<Keyed<JsValue>>)
    | JExotic

  type Heap = map<int, HeapObject>

  predicate Known(h: Heap, v: JsValue) { v.JRef? ==> v.id in h }

  predicate KnownSlots(h: Heap, slots: seq<Slot>) {
    forall i :: 0 <= i < |slots| && slots[i].Filled? ==> Known(h, slots[i].v)
  }

  predicate KnownEntries(h: Heap, entries: seq<Keyed<JsValue>>) {
    forall i :: 0 <= i < |entries| ==> Known(h, entries[i].value)
  }

  /** No dangling references and no object with a repeated key. */
  predicate Closed(h: Heap) {
    forall id :: id in h ==> match h[id]
      case JArray(slots) => KnownSlots(h, slots)
      case JPlain(entries) => DistinctKeys(entries) && KnownEntries(h, entries)
      case JExotic => true
  }

  /** None stands for the INVALID_ARGUMENT error. */
  function Canonical(h: Heap, v: JsValue, seen: set<int>): Option<Text>
    requires Closed(h) && Known(h, v) && seen <= h.Keys
    decreases |h.Keys - seen|, 0
  {
    match v
    case JNull => Some(NULL_TEXT)
    case JBool(b) => Some(if b then TRUE_TEXT else FALSE_TEXT)
    case JNumber(n) => Some(NumberText(n))
    case JString(s) => Some(Quote(s))
    case JNotFinite => None
    case JUnsupported => None
    case JRef(id) =>
      if id in seen then None else
        Fewer(h, id, seen);
        match h[id]
        case JArray(slots) =>
          var ts := CanonicalSlots(h, slots, seen + {id});
          if ts.None? then None else Some([OPEN_BRACKET] + Join(ts.value) + [CLOSE_BRACKET])
        case JPlain(entries) =>
          var ms := CanonicalEntries(h, entries, seen + {id});
          if ms.None? then None else Some([OPEN_BRACE] + Join(Texts(SortByKey(ms.value))) + [CLOSE_BRACE])
        case JExotic => None
  }

  function CanonicalSlots(h: Heap, slots: seq<Slot>, seen: set<int>): Option<seq<Text>>
    requires Closed(h) && KnownSlots(h, slots) && seen <= h.Keys
    decreases |h.Keys - seen|, 1, |slots|
  {
    if slots == [] then Some([])
    else
      var t := if slots[0].Gap? then Some([]) else Canonical(h, slots[0].v, seen);
      var rest := CanonicalSlots(h, slots[1..], seen);
      if t.None? || rest.None? then None else Some([t.value] + rest.value)
  }

  function CanonicalEntries(h: Heap, entries: seq<Keyed<JsValue>>, seen: set<int>): Option<seq<Keyed<Text>>>
    requires Closed(h) && KnownEntries(h, entries) && seen <= h.Keys
    decreases |h.Keys - seen|, 1, |entries|
  {
    if entries == [] then Some([])
    else
      var e := entries[0];
      var t := Canonical(h, e.value, seen);
      var rest := CanonicalEntries(h, entries[1..], seen);
      if t.None? || rest.None? then None
      else Some([Keyed(e.key, Quote(e.key) + [COLON] + t.value)] + rest.value)
  }

  lemma Fewer(h: Heap, id: int, seen: set<int>)
    requires id in h && id !in seen
    ensures |h.Keys - (seen + {id})| < |h.Keys - seen|
  {
    assert h.Keys - seen == h.Keys - (seen + {id}) + {id};
  }

  /** The tree `t` is what `v` looks like when its references are followed. */
  predicate Denotes(h: Heap, v: JsValue, t: Json)
    decreases t
  {
    match t
    case Null => v.JNull?
    case Bool(b) => v == JBool(b)
    case Number(n) => v == JNumber(n)
    case String(s) => v == JString(s)
    case Array(items) =>
      v.JRef? && v.id in h && h[v.id].JArray? && |h[v.id].slots| == |items| &&
      forall i :: 0 <= i < |items| ==>
        if items[i].Hole? then h[v.id].slots[i].Gap?
        else h[v.id].slots[i].Filled? && Denotes(h, h[v.id].slots[i].v, items[i].value)
    case Object(entries) =>
      v.JRef? && v.id in h && h[v.id].JPlain? && |h[v.id].entries| == |entries| &&
      forall i :: 0 <= i < |entries| ==>
        h[v.id].entries[i].key == entries[i].key && Denotes(h, h[v.id].entries[i].value, entries[i].value)
  }

  lemma {:induction false} DenotesUnique(h: Heap, v: JsValue, t: Json, u: Json)
    requires Denotes(h, v, t) && Denotes(h, v, u)
    ensures t == u
    decreases t
  {
    match t {
      case Array(items) =>
        forall i | 0 <= i < |items| ensures items[i] == u.items[i] {
          if items[i].Item? { DenotesUnique(h, h[v.id].slots[i].v, items[i].value, u.items[i].value); }
        }
      case Object(entries) =>
        forall i | 0 <= i < |entries| ensures entries[i] == u.entries[i] {
          DenotesUnique(h, h[v.id].entries[i].value, entries[i].value, u.entries[i].value);
        }
      case _ =>
    }
  }

  lemma {:induction false} DenotesWellKeyed(h: Heap, v: JsValue, t: Json)
    requires Closed(h) && Denotes(h, v, t)
    ensures WellKeyed(t)
    decreases t
  {
    match t {
      case Array(items) =>
        forall i | 0 <= i < |items| && items[i].Item? ensures WellKeyed(items[i].value) {
          DenotesWellKeyed(h, h[v.id].slots[i].v, items[i].value);
        }
      case Object(entries) =>
        forall i | 0 <= i < |entries| ensures WellKeyed(entries[i].value) {
          DenotesWellKeyed(h, h[v.id].entries[i].value, entries[i].value);
        }
      case _ =>
    }
  }

  // -------------------------------------------------- accepted means a tree

  lemma {:induction false} Sound(h: Heap, v: JsValue, seen: set<int>) returns (t: Json)
    requires Closed(h) && Known(h, v) && seen <= h.Keys && Canonical(h, v, seen).Some?
    ensures Denotes(h, v, t) && Canonical(h, v, seen) == Some(Print(t))
    decreases |h.Keys - seen|, 0
  {
    match v {
      case JNull => t := Null;
      case JBool(b) => t := Bool(b);
      case JNumber(n) => t := Number(n);
      case JString(s) => t := String(s);
      case JRef(id) =>
        Fewer(h, id, seen);
        match h[id] {
          case JArray(slots) =>
            var items := SoundSlots(h, slots, seen + {id});
            t := Array(items);
          case JPlain(entries) =>
            var es := SoundEntries(h, entries, seen + {id});
            t := Object(es);
        }
    }
  }

  lemma {:induction false} SoundSlots(h: Heap, slots: seq<Slot>, seen: set<int>) returns (items: seq<Element>)
    requires Closed(h) && KnownSlots(h, slots) && seen <= h.Keys && CanonicalSlots(h, slots, seen).Some?
    ensures |items| == |slots| && CanonicalSlots(h, slots, seen) == Some(PrintElements(items))
    ensures forall i :: 0 <= i < |items| ==>
      if items[i].Hole? then slots[i].Gap? else slots[i].Filled? && Denotes(h, slots[i].v, items[i].value)
    decreases |h.Keys - seen|, 1, |slots|
  {
    if slots == [] {
      items := [];
    } else {
      var rest := SoundSlots(h, slots[1..], seen);
      if slots[0].Gap? {
        items := [Hole] + rest;
      } else {
        var t := Sound(h, slots[0].v, seen);
        items := [Item(t)] + rest;
      }
    }
  }

  lemma {:induction false} SoundEntries(h: Heap, entries: seq<Keyed<JsValue>>, seen: set<int>)
    returns (es: seq<Keyed<Json>>)
    requires Closed(h) && KnownEntries(h, entries) && seen <= h.Keys && CanonicalEntries(h, entries, seen).Some?
    ensures |es| == |entries| && CanonicalEntries(h, entries, seen) == Some(PrintMembers(es))
    ensures forall i :: 0 <= i < |es| ==>
      entries[i].key == es[i].key && Denotes(h, entries[i].value, es[i].value)
    decreases |h.Keys - seen|, 1, |entries|
  {
    if entries == [] {
      es := [];
    } else {
      var rest := SoundEntries(h, entries[1..], seen);
      var t := Sound(h, entries[0].value, seen);
      es := [Keyed(entries[0].key, t)] + rest;
    }
  }

  // ------------------------------------------------- a tree means accepted

  /** The objects on the path, each with its tree, all of them larger than `t`. */
  ghost predicate Above(h: Heap, above: map<int, Json>, t: Json) {
    forall id :: id in above ==> Denotes(h, JRef(id), above[id]) && t < above[id]
  }

  lemma {:induction false} Complete(h: Heap, v: JsValue, t: Json, above: map<int, Json>)
    requires Closed(h) && Known(h, v) && above.Keys <= h.Keys && Denotes(h, v, t) && Above(h, above, t)
    ensures Canonical(h, v, above.Keys) == Some(Print(t))
    decreases t, 1
  {
    if v.JRef? {
      if v.id in above { DenotesUnique(h, v, t, above[v.id]); }
      var wider := above[v.id := t];
      assert wider.Keys == above.Keys + {v.id};
      match t {
        case Array(items) => CompleteSlots(h, h[v.id].slots, t, items, wider);
        case Object(entries) => CompleteEntries(h, h[v.id].entries, t, entries, wider);
      }
    }
  }

  lemma {:induction false} CompleteSlots(h: Heap, slots: seq<Slot>, context: Json, items: seq<Element>,
                                         above: map<int, Json>)
    requires Closed(h) && KnownSlots(h, slots) && above.Keys <= h.Keys && |slots| == |items|
    requires forall i :: 0 <= i < |items| ==>
      if items[i].Hole? then slots[i].Gap? else slots[i].Filled? && Denotes(h, slots[i].v, items[i].value)
    requires forall i :: 0 <= i < |items| && items[i].Item? ==>
      items[i].value < context && Above(h, above, items[i].value)
    ensures CanonicalSlots(h, slots, above.Keys) == Some(PrintElements(items))
    decreases context, 0, |items|
  {
    if items != [] {
      if items[0].Item? { Complete(h, slots[0].v, items[0].value, above); }
      CompleteSlots(h, slots[1..], context, items[1..], above);
    }
  }

  lemma {:induction false} CompleteEntries(h: Heap, entries: seq<Keyed<JsValue>>, context: Json, es: seq<Keyed<Json>>,
                                           above: map<int, Json>)
    requires Closed(h) && KnownEntries(h, entries) && above.Keys <= h.Keys && |entries| == |es|
    requires forall i :: 0 <= i < |es| ==>
      entries[i].key == es[i].key && Denotes(h, entries[i].value, es[i].value)
    requires forall i :: 0 <= i < |es| ==> es[i].value < context && Above(h, above, es[i].value)
    ensures CanonicalEntries(h, entries, above.Keys) == Some(PrintMembers(es))
    decreases context, 0, |es|
  {
    if es != [] {
      Complete(h, entries[0].value, es[0].value, above);
      CompleteEntries(h, entries[1..], context, es[1..], above);
    }
  }

  // ------------------------------------------------------------ main results

  /** Accepted exactly when the graph unfolds to a finite tree of JSON values;
      sharing without a cycle is accepted. */
  lemma AcceptsFiniteTrees(h: Heap, v: JsValue, t: Json)
    requires Closed(h) && Known(h, v)
    ensures Canonical(h, v, {}).Some? <==> exists u :: Denotes(h, v, u)
    ensures Denotes(h, v, t) ==> Canonical(h, v, {}) == Some(Print(t))
  {
    if Canonical(h, v, {}).Some? {
      var u := Sound(h, v, {});
      assert Denotes(h, v, u);
      assert exists u :: Denotes(h, v, u);
    }
    var none: map<int, Json> := map[];
    assert none.Keys == {};
    if exists u :: Denotes(h, v, u) {
      var u :| Denotes(h, v, u);
      Complete(h, v, u, none);
    }
    if Denotes(h, v, t) { Complete(h, v, t, none); }
  }

  /** `inputHash`: the digest of the bytes of the canonical text, None where it throws. */
  function InputHash<Digest>(sha256: seq<Byte> -> Digest, h: Heap, v: JsValue): Option<Digest>
    requires Closed(h) && Known(h, v)
  {
    var text := Canonical(h, v, {});
    if text.None? then None else Some(sha256(Encode(text.value)))
  }

  /** With a digest that has no collisions, two inputs hash alike exactly when they mean the
      same JSON value, whatever heap they live in and however their keys are ordered. */
  lemma HashIdentifiesInput<Digest(!new)>(sha256: seq<Byte> -> Digest,
                                          g: Heap, v: JsValue, t: Json, h: Heap, w: JsValue, u: Json)
    requires forall x, y :: sha256(x) == sha256(y) ==> x == y
    requires Closed(g) && Known(g, v) && Denotes(g, v, t)
    requires Closed(h) && Known(h, w) && Denotes(h, w, u)
    ensures InputHash(sha256, g, v).Some? && InputHash(sha256, h, w).Some?
    ensures InputHash(sha256, g, v) == InputHash(sha256, h, w) <==> Meaning(t) == Meaning(u)
  {
    AcceptsFiniteTrees(g, v, t);
    AcceptsFiniteTrees(h, w, u);
    DenotesWellKeyed(g, v, t);
    DenotesWellKeyed(h, w, u);
    CanonicalInjective.CanonicalTextIdentifies(t, u);
    CanonicalUtf8.PrintIsWellFormed(t);
    CanonicalUtf8.PrintIsWellFormed(u);
    DecodeEncode(Print(t));
    DecodeEncode(Print(u));
  }
}
