/** Editing a file by an expected text and its replacement
    (packages/core/src/files/files-service.ts:131-145, 490-530). */
module PreciseEdits {
  import opened Options
  import opened Text
  import opened Utf8

  // ----------------------------------------------------------------- occurrences

  predicate OccursAt(text: Text, needle: Text, i: int) {
    0 <= i <= |text| && needle <= text[i..]
  }

  /** `indexOf` */
  function IndexOf(text: Text, needle: Text, from: nat): (r: Option<nat>)
    requires from <= |text|
    ensures r.Some? ==> from <= r.value && r.value + |needle| <= |text|
    decreases |text| - from
  {
    if OccursAt(text, needle, from) then Some(from)
    else if from == |text| then None
    else IndexOf(text, needle, from + 1)
  }

  /** It is the first occurrence from there on. */
  lemma {:induction false} IndexOfIsFirst(text: Text, needle: Text, from: nat)
    requires from <= |text|
    ensures var r := IndexOf(text, needle, from);
      && (r.Some? ==> OccursAt(text, needle, r.value))
      && forall i :: from <= i < r.Or(|text| + 1) ==> !OccursAt(text, needle, i)
    decreases |text| - from
  {
    if !OccursAt(text, needle, from) && from < |text| { IndexOfIsFirst(text, needle, from + 1); }
  }

  /** `split`, of the text from some place on. */
  function SplitFrom(text: Text, needle: Text, from: nat): (pieces: seq<Text>)
    requires needle != [] && from <= |text|
    ensures pieces != []
    decreases |text| - from
  {
    var i := IndexOf(text, needle, from);
    if i.None? then [text[from..]] else [text[from..i.value]] + SplitFrom(text, needle, i.value + |needle|)
  }

  function Split(text: Text, needle: Text): seq<Text>
    requires needle != []
  {
    SplitFrom(text, needle, 0)
  }

  /** `join` */
  function Join(pieces: seq<Text>, separator: Text): Text
    requires pieces != []
  {
    if |pieces| == 1 then pieces[0] else pieces[0] + separator + Join(pieces[1..], separator)
  }

  /** Reading from left to right, each occurrence met is replaced and skipped. */
  function RewriteFrom(text: Text, needle: Text, replacement: Text, from: nat): Text
    requires needle != [] && from <= |text|
    decreases |text| - from
  {
    if from == |text| then []
    else if OccursAt(text, needle, from) then replacement + RewriteFrom(text, needle, replacement, from + |needle|)
    else [text[from]] + RewriteFrom(text, needle, replacement, from + 1)
  }

  function Rewrite(text: Text, needle: Text, replacement: Text): Text
    requires needle != []
  {
    RewriteFrom(text, needle, replacement, 0)
  }

  function CountFrom(text: Text, needle: Text, from: nat): nat
    requires needle != [] && from <= |text|
  {
    |SplitFrom(text, needle, from)| - 1
  }

  function Count(text: Text, needle: Text): nat
    requires needle != []
  {
    CountFrom(text, needle, 0)
  }

  /** The counting loop counts the gaps between the pieces of `split`. */
  method CountOccurrences(text: Text, needle: Text) returns (count: nat)
    requires needle != []
    ensures count == Count(text, needle)
  {
    count := 0;
    var offset := 0;
    while true
      invariant offset <= |text|
      invariant count + CountFrom(text, needle, offset) == Count(text, needle)
      decreases |text| - offset
    {
      var found := IndexOf(text, needle, offset);
      if found.None? { return; }
      count := count + 1;
      offset := found.value + |needle|;
    }
  }

  // ---------------------------------------------------------------- split and join

  lemma Regroup(a: Text, b: Text, c: Text)
    ensures a + (b + c) == (a + b) + c
  {}

  lemma JoinFirst(piece: Text, pieces: seq<Text>, separator: Text)
    requires pieces != []
    ensures Join([piece] + pieces, separator) == piece + separator + Join(pieces, separator)
  {
    assert ([piece] + pieces)[1..] == pieces;
  }

  lemma {:induction false} JoinSplitFrom(text: Text, needle: Text, from: nat)
    requires needle != [] && from <= |text|
    ensures Join(SplitFrom(text, needle, from), needle) == text[from..]
    decreases |text| - from
  {
    var i := IndexOf(text, needle, from);
    if i.Some? {
      var next := i.value + |needle|;
      IndexOfIsFirst(text, needle, from);
      JoinSplitFrom(text, needle, next);
      JoinFirst(text[from..i.value], SplitFrom(text, needle, next), needle);
      ThreeParts(text, needle, from, i.value);
    }
  }

  lemma ThreeParts(text: Text, needle: Text, from: nat, i: nat)
    requires from <= i && OccursAt(text, needle, i)
    ensures text[from..] == text[from..i] + needle + text[i + |needle|..]
  {
    assert text[i..] == needle + text[i..][|needle|..];
    assert text[i..][|needle|..] == text[i + |needle|..];
  }

  /** Joining the pieces with the expected text gives the text back. */
  lemma JoinSplit(text: Text, needle: Text)
    requires needle != []
    ensures Join(Split(text, needle), needle) == text
  {
    JoinSplitFrom(text, needle, 0);
  }

  lemma {:induction false} JoinLength(pieces: seq<Text>, a: Text, b: Text)
    requires pieces != []
    ensures |Join(pieces, a)| + (|pieces| - 1) * |b| == |Join(pieces, b)| + (|pieces| - 1) * |a|
  {
    if |pieces| > 1 { JoinLength(pieces[1..], a, b); }
  }

  /** The length of the edited text. */
  lemma EditedLength(text: Text, needle: Text, replacement: Text)
    requires needle != []
    ensures |Rewrite(text, needle, replacement)| == |text| + Count(text, needle) * (|replacement| - |needle|)
  {
    JoinSplit(text, needle);
    SplitJoinIsRewrite(text, needle, replacement);
    JoinLength(Split(text, needle), needle, replacement);
    Distribute(Count(text, needle), |replacement|, |needle|);
  }

  lemma Distribute(n: int, a: int, b: int)
    ensures n * (a - b) == n * a - n * b
  {}

  /** Nothing is rewritten where there is no occurrence. */
  lemma {:induction false} RewriteSkips(text: Text, needle: Text, replacement: Text, from: nat, to: nat)
    requires needle != [] && from <= to <= |text| && forall i :: from <= i < to ==> !OccursAt(text, needle, i)
    ensures RewriteFrom(text, needle, replacement, from) == text[from..to] + RewriteFrom(text, needle, replacement, to)
    decreases |text| - from
  {
    if from < to {
      RewriteSkips(text, needle, replacement, from + 1, to);
      Regroup([text[from]], text[from + 1..to], RewriteFrom(text, needle, replacement, to));
      assert text[from..to] == [text[from]] + text[from + 1..to];
    }
  }

  /** Up to and with the first occurrence. */
  lemma RewriteFirst(text: Text, needle: Text, replacement: Text, from: nat)
    requires needle != [] && from <= |text| && IndexOf(text, needle, from).Some?
    ensures var i := IndexOf(text, needle, from).value;
      RewriteFrom(text, needle, replacement, from) ==
        text[from..i] + replacement + RewriteFrom(text, needle, replacement, i + |needle|)
  {
    var i := IndexOf(text, needle, from).value;
    IndexOfIsFirst(text, needle, from);
    RewriteSkips(text, needle, replacement, from, i);
    Regroup(text[from..i], replacement, RewriteFrom(text, needle, replacement, i + |needle|));
  }

  lemma RewriteNothing(text: Text, needle: Text, replacement: Text, from: nat)
    requires needle != [] && from <= |text| && IndexOf(text, needle, from).None?
    ensures RewriteFrom(text, needle, replacement, from) == text[from..]
  {
    IndexOfIsFirst(text, needle, from);
    RewriteSkips(text, needle, replacement, from, |text|);
    assert text[from..|text|] == text[from..];
  }

  lemma SplitFirst(text: Text, needle: Text, replacement: Text, from: nat)
    requires needle != [] && from <= |text| && IndexOf(text, needle, from).Some?
    ensures var i := IndexOf(text, needle, from).value;
      Join(SplitFrom(text, needle, from), replacement) ==
        text[from..i] + replacement + Join(SplitFrom(text, needle, i + |needle|), replacement)
  {
    var i := IndexOf(text, needle, from).value;
    JoinFirst(text[from..i], SplitFrom(text, needle, i + |needle|), replacement);
  }

  lemma {:induction false} SplitJoinFrom(text: Text, needle: Text, replacement: Text, from: nat)
    requires needle != [] && from <= |text|
    ensures Join(SplitFrom(text, needle, from), replacement) == RewriteFrom(text, needle, replacement, from)
    decreases |text| - from
  {
    var i := IndexOf(text, needle, from);
    if i.None? {
      RewriteNothing(text, needle, replacement, from);
    } else {
      var next := i.value + |needle|;
      SplitJoinFrom(text, needle, replacement, next);
      SplitFirst(text, needle, replacement, from);
      RewriteFirst(text, needle, replacement, from);
    }
  }

  /** Splitting and joining is the replacement of the leftmost occurrences that do not overlap. */
  lemma SplitJoinIsRewrite(text: Text, needle: Text, replacement: Text)
    requires needle != []
    ensures Join(Split(text, needle), replacement) == Rewrite(text, needle, replacement)
  {
    SplitJoinFrom(text, needle, replacement, 0);
  }

  // --------------------------------------------------------------- what is counted

  /** Occurrences in increasing order that do not overlap. */
  predicate Apart(text: Text, needle: Text, places: seq<nat>) {
    && (forall i :: 0 <= i < |places| ==> OccursAt(text, needle, places[i]))
    && (forall i, j :: 0 <= i < j < |places| ==> places[i] + |needle| <= places[j])
  }

  /** The places of the gaps between the pieces. */
  function PlacesFrom(text: Text, needle: Text, from: nat): (places: seq<nat>)
    requires needle != [] && from <= |text|
    ensures |places| == CountFrom(text, needle, from)
    ensures forall i :: 0 <= i < |places| ==> from <= places[i]
    decreases |text| - from
  {
    var i := IndexOf(text, needle, from);
    if i.None? then [] else [i.value] + PlacesFrom(text, needle, i.value + |needle|)
  }

  predicate Covered(places: seq<nat>, needle: Text, p: int) {
    exists i :: 0 <= i < |places| && places[i] <= p < places[i] + |needle|
  }

  lemma {:induction false} PlacesApart(text: Text, needle: Text, from: nat)
    requires needle != [] && from <= |text|
    ensures Apart(text, needle, PlacesFrom(text, needle, from))
    decreases |text| - from
  {
    var i := IndexOf(text, needle, from);
    if i.Some? {
      IndexOfIsFirst(text, needle, from);
      PlacesApart(text, needle, i.value + |needle|);
    }
  }

  lemma {:induction false} PlacesCover(text: Text, needle: Text, from: nat, p: int)
    requires needle != [] && from <= |text| && from <= p && OccursAt(text, needle, p)
    ensures Covered(PlacesFrom(text, needle, from), needle, p)
    decreases |text| - from
  {
    IndexOfIsFirst(text, needle, from);
    var first := IndexOf(text, needle, from).value;
    var rest := PlacesFrom(text, needle, first + |needle|);
    if p < first + |needle| {
      assert ([first] + rest)[0] == first;
    } else {
      PlacesCover(text, needle, first + |needle|, p);
      CoveredLater(first, rest, needle, p);
    }
  }

  lemma CoveredLater(first: nat, rest: seq<nat>, needle: Text, p: int)
    requires Covered(rest, needle, p)
    ensures Covered([first] + rest, needle, p)
  {
    var i :| 0 <= i < |rest| && rest[i] <= p < rest[i] + |needle|;
    assert ([first] + rest)[i + 1] == rest[i];
  }

  /** The counted occurrences are real, do not overlap, and miss nothing: every occurrence
      begins inside one of them. */
  lemma CountedAreLeftmost(text: Text, needle: Text)
    requires needle != []
    ensures var places := PlacesFrom(text, needle, 0);
      && |places| == Count(text, needle) && Apart(text, needle, places)
      && forall p :: OccursAt(text, needle, p) ==> Covered(places, needle, p)
  {
    PlacesApart(text, needle, 0);
    forall p | OccursAt(text, needle, p) ensures Covered(PlacesFrom(text, needle, 0), needle, p) {
      PlacesCover(text, needle, 0, p);
    }
  }

  lemma {:induction false} MaximalFrom(text: Text, needle: Text, from: nat, places: seq<nat>)
    requires needle != [] && from <= |text| && Apart(text, needle, places)
    requires places != [] ==> from <= places[0]
    ensures |places| <= CountFrom(text, needle, from)
    decreases |text| - from
  {
    if places != [] {
      IndexOfIsFirst(text, needle, from);
      assert OccursAt(text, needle, places[0]);
      MaximalFrom(text, needle, IndexOf(text, needle, from).value + |needle|, places[1..]);
    }
  }

  /** No other way to pick occurrences apart from one another picks more. */
  lemma CountIsMaximal(text: Text, needle: Text, places: seq<nat>)
    requires needle != [] && Apart(text, needle, places)
    ensures |places| <= Count(text, needle)
  {
    MaximalFrom(text, needle, 0, places);
  }

  // ------------------------------------------------------------------------ editing

  const HARD_TEXT_BYTES := 2 * 1024 * 1024

  const BYTE_ORDER_MARK: CodeUnit := 0xFEFF

  type Digest = string

  datatype Code = SizeLimitExceeded | BinaryNotSupported | StalePrecondition | InvalidArgument | ExpectedTextMismatch

  datatype Edited = Edited(file: Text, occurrences: nat) | Refused(code: Code)

  datatype Input = Input(
    expectedText: Text, replacementText: Text, expectedSha256: Option<Digest>, expectedOccurrences: Option<nat>)

  /** `ensureText`: no zero byte, and valid UTF-8. */
  predicate IsText(file: Text) { 0 !in file && WellFormed(file) }

  /** Decoding drops a byte order mark. */
  function Decoded(file: Text): Text {
    if file != [] && file[0] == BYTE_ORDER_MARK then file[1..] else file
  }

  /** `preciseEdit`, of a file that holds `file` when it is read and `found` when it is
      about to be replaced. */
  method PreciseEdit(hash: Text -> Digest, file: Text, found: Text, input: Input) returns (r: Edited)
    ensures r.Edited? <==> Editable(hash, file, found, input)
    ensures r.Edited? ==>
              r.file == Rewrite(Decoded(file), input.expectedText, input.replacementText) &&
              r.occurrences == input.expectedOccurrences.Or(1) == Count(Decoded(file), input.expectedText)
    ensures r.Refused? && r.code == ExpectedTextMismatch ==>
              input.expectedText != [] && Count(Decoded(file), input.expectedText) != input.expectedOccurrences.Or(1)
    ensures r == Refused(InvalidArgument) ==> input.expectedText == []
    ensures r == Refused(BinaryNotSupported) ==>
              !IsText(file) || !IsText(found) || (input.expectedText != [] && !WellFormed(Updated(file, input)))
    ensures r == Refused(SizeLimitExceeded) ==>
              || Bytes(file) > 2_097_152 || Bytes(found) > 2_097_152
              || (input.expectedText != [] && Bytes(Updated(file, input)) > 2_097_152)
    ensures r == Refused(StalePrecondition) ==>
              hash(found) != hash(file) || (input.expectedSha256.Some? && input.expectedSha256.value != hash(file))
  {
    if Bytes(file) > HARD_TEXT_BYTES { return Refused(SizeLimitExceeded); }
    if !IsText(file) { return Refused(BinaryNotSupported); }
    var text := Decoded(file);
    if input.expectedSha256.Some? && input.expectedSha256.value != hash(file) { return Refused(StalePrecondition); }
    if input.expectedText == [] { return Refused(InvalidArgument); }
    var occurrences := CountOccurrences(text, input.expectedText);
    if occurrences != input.expectedOccurrences.Or(1) { return Refused(ExpectedTextMismatch); }
    var updated := Join(Split(text, input.expectedText), input.replacementText);
    SplitJoinIsRewrite(text, input.expectedText, input.replacementText);
    if !WellFormed(updated) { return Refused(BinaryNotSupported); }
    if Bytes(updated) > HARD_TEXT_BYTES || Bytes(found) > HARD_TEXT_BYTES { return Refused(SizeLimitExceeded); }
    if !IsText(found) { return Refused(BinaryNotSupported); }
    if hash(found) != hash(file) { return Refused(StalePrecondition); }
    return Edited(updated, occurrences);
  }

  /** When an edit goes through. */
  predicate Editable(hash: Text -> Digest, file: Text, found: Text, input: Input) {
    && IsText(file) && Bytes(file) <= HARD_TEXT_BYTES && IsText(found) && Bytes(found) <= HARD_TEXT_BYTES
    && hash(found) == hash(file) && (input.expectedSha256.Some? ==> input.expectedSha256.value == hash(file))
    && input.expectedText != [] && Count(Decoded(file), input.expectedText) == input.expectedOccurrences.Or(1)
    && WellFormed(Updated(file, input)) && Bytes(Updated(file, input)) <= HARD_TEXT_BYTES
  }

  /** The text that an edit writes. */
  function Updated(file: Text, input: Input): Text
    requires input.expectedText != []
  {
    Rewrite(Decoded(file), input.expectedText, input.replacementText)
  }

  lemma {:induction false} RewriteShift(text: Text, needle: Text, replacement: Text, from: nat)
    requires needle != [] && 1 <= |text| && from <= |text[1..]|
    ensures RewriteFrom(text[1..], needle, replacement, from) == RewriteFrom(text, needle, replacement, from + 1)
    decreases |text| - from
  {
    assert text[1..][from..] == text[from + 1..];
    if from < |text[1..]| {
      if OccursAt(text, needle, from + 1) {
        RewriteShift(text, needle, replacement, from + |needle|);
      } else {
        RewriteShift(text, needle, replacement, from + 1);
      }
    }
  }

  /** The edit works on the text without its byte order mark, and writes none back: it is
      the edit of the whole file exactly when there is no mark to lose. */
  lemma MarkIsLostExactly(file: Text, needle: Text, replacement: Text)
    requires needle != [] && needle[0] != BYTE_ORDER_MARK
    ensures Rewrite(Decoded(file), needle, replacement) == Rewrite(file, needle, replacement) <==>
      (file == [] || file[0] != BYTE_ORDER_MARK)
  {
    if file != [] && file[0] == BYTE_ORDER_MARK {
      assert !OccursAt(file, needle, 0);
      RewriteShift(file, needle, replacement, 0);
    }
  }

  /** An expected text that begins with a mark is never found at the mark of the file: the
      edit counts none where the file holds no other, even if the file begins with it. */
  lemma MarkIsNeverFound(file: Text, needle: Text)
    requires needle != [] && needle[0] == BYTE_ORDER_MARK && BYTE_ORDER_MARK !in Decoded(file)
    ensures Count(Decoded(file), needle) == 0
  {
    var text := Decoded(file);
    forall p | 0 <= p < |text| ensures !OccursAt(text, needle, p) {
      assert text[p] in text && text[p..][0] == text[p];
    }
    IndexOfIsFirst(text, needle, 0);
  }
}
