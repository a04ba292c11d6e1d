/** The JSON-RPC line framer of the App Server client
    (packages/codex-agent/src/app-server-client.ts:289-326, 390-400). */
module LineFraming {
  import opened Options
  import opened Text
  import opened Utf8

  const NEWLINE: CodeUnit := 10

  const MAX_PROTOCOL_MESSAGE_BYTES := 8 * 1024 * 1024

  predicate Whitespace(u: CodeUnit) {
    || 9 <= u <= 13 || u == 0x20 || u == 0xA0 || u == 0x1680 || 0x2000 <= u <= 0x200A
    || u == 0x2028 || u == 0x2029 || u == 0x202F || u == 0x205F || u == 0x3000 || u == 0xFEFF
  }

  /** `trim` leaves nothing. */
  predicate Blank(s: Text) {
    forall i :: 0 <= i < |s| ==> Whitespace(s[i])
  }

  /** The first newline at or after `from`, or the length of the text. */
  function NewlineFrom(s: Text, from: nat): (n: nat)
    requires from <= |s|
    ensures from <= n <= |s| && (n < |s| ==> s[n] == NEWLINE)
    ensures forall i :: from <= i < n ==> s[i] != NEWLINE
    decreases |s| - from
  {
    if from == |s| || s[from] == NEWLINE then from else NewlineFrom(s, from + 1)
  }

  function Newline(s: Text): nat { NewlineFrom(s, 0) }

  datatype Reason = LineLimit | InvalidJson | Dispatching

  /** `parses` is JSON.parse; `closes` says, of the lines dispatched so far, whether
      dispatching the last of them closes the client. */
  datatype Env = Env(parses: Text -> bool, closes: seq<Text> -> bool)

  datatype Client = Client(buffer: Text, dispatched: seq<Text>, closing: Option<Reason>)

  const START := Client([], [], None)

  function Fail(c: Client, reason: Reason): Client { c.(closing := Some(reason)) }

  /** The loop of `#receive` and the check after it. */
  function Drain(env: Env, c: Client): Client
    decreases |c.buffer|
  {
    var n := Newline(c.buffer);
    if n == |c.buffer| then
      if Bytes(c.buffer) > MAX_PROTOCOL_MESSAGE_BYTES then Fail(c, LineLimit) else c
    else
      var line := c.buffer[..n];
      var c := c.(buffer := c.buffer[n + 1..]);
      if Bytes(line) > MAX_PROTOCOL_MESSAGE_BYTES then Fail(c, LineLimit)
      else if Blank(line) then Drain(env, c)
      else if !env.parses(line) then Fail(c, InvalidJson)
      else
        var c := c.(dispatched := c.dispatched + [line]);
        if env.closes(c.dispatched) then Fail(c, Dispatching) else Drain(env, c)
  }

  /** `#receive` */
  function Receive(env: Env, c: Client, chunk: Text): Client {
    if c.closing.Some? then c
    else
      var c := c.(buffer := c.buffer + chunk);
      if Bytes(c.buffer) > MAX_PROTOCOL_MESSAGE_BYTES && Newline(c.buffer) == |c.buffer| then Fail(c, LineLimit)
      else Drain(env, c)
  }

  function ReceiveAll(env: Env, c: Client, chunks: seq<Text>): Client {
    if chunks == [] then c else Receive(env, ReceiveAll(env, c, chunks[..|chunks| - 1]), chunks[|chunks| - 1])
  }

  function Joined(chunks: seq<Text>): Text {
    if chunks == [] then [] else Joined(chunks[..|chunks| - 1]) + chunks[|chunks| - 1]
  }

  // --------------------------------------------------------- framing a whole text

  /** `split('\n')`: the complete lines, then what follows the last newline. */
  function Pieces(s: Text): (p: seq<Text>)
    ensures p != []
    decreases |s|
  {
    if Newline(s) == |s| then [s] else [s[..Newline(s)]] + Pieces(s[Newline(s) + 1..])
  }

  function NonBlank(lines: seq<Text>): seq<Text> {
    if lines == [] then []
    else
      var last := lines[|lines| - 1];
      NonBlank(lines[..|lines| - 1]) + if Blank(last) then [] else [last]
  }

  /** Why framing stops at piece `i`, all earlier lines having passed. */
  function Stop(env: Env, pieces: seq<Text>, i: nat): Option<Reason>
    requires i < |pieces|
  {
    if Bytes(pieces[i]) > MAX_PROTOCOL_MESSAGE_BYTES then Some(LineLimit)
    else if i == |pieces| - 1 || Blank(pieces[i]) then None
    else if !env.parses(pieces[i]) then Some(InvalidJson)
    else if env.closes(NonBlank(pieces[..i + 1])) then Some(Dispatching)
    else None
  }

  /** The client has framed these pieces: it stopped at the first piece with a reason to stop,
      having dispatched the lines before it; or it dispatched every line and holds the rest. */
  ghost predicate Framed(env: Env, c: Client, pieces: seq<Text>)
    requires pieces != []
  {
    if c.closing.None? then
      && (forall i :: 0 <= i < |pieces| ==> Stop(env, pieces, i).None?)
      && c.dispatched == NonBlank(pieces[..|pieces| - 1])
      && c.buffer == pieces[|pieces| - 1]
    else
      exists i :: 0 <= i < |pieces| && StoppedAt(env, c, pieces, i)
  }

  ghost predicate StoppedAt(env: Env, c: Client, pieces: seq<Text>, i: nat)
    requires i < |pieces|
  {
    && Stop(env, pieces, i) == c.closing
    && (forall j :: 0 <= j < i ==> Stop(env, pieces, j).None?)
    && c.dispatched == NonBlank(pieces[..if c.closing == Some(Dispatching) then i + 1 else i])
  }

  // ------------------------------------------------------------------------ proofs

  /** More text only changes the last piece. */
  lemma {:induction false} PiecesAppend(a: Text, b: Text)
    ensures var p := Pieces(a); Pieces(a + b) == p[..|p| - 1] + Pieces(p[|p| - 1] + b)
    decreases |a|
  {
    var n := Newline(a);
    if n < |a| {
      NewlineAppend(a, b);
      var rest := a[n + 1..];
      assert (a + b)[n + 1..] == rest + b && (a + b)[..n] == a[..n];
      PiecesAppend(rest, b);
      var p := Pieces(rest);
      assert Pieces(a)[..|p|] == [a[..n]] + p[..|p| - 1];
    } else {
      assert Pieces(a)[..0] == [];
    }
  }

  lemma NewlineAppend(a: Text, b: Text)
    requires Newline(a) < |a|
    ensures Newline(a + b) == Newline(a)
  {
    assert (a + b)[Newline(a)] == NEWLINE;
    assert forall i :: 0 <= i < Newline(a) ==> (a + b)[i] == a[i];
  }

  /** The first piece only grows. */
  lemma FirstPieceGrows(a: Text, b: Text)
    requires Newline(a) == |a|
    ensures Bytes(a) <= Bytes(Pieces(a + b)[0])
  {
    var n := Newline(a + b);
    assert forall i :: 0 <= i < |a| ==> (a + b)[i] == a[i];
    assert n >= |a|;
    assert (a + b)[..n] == a + b[..n - |a|];
    assert (a + b)[..n] == Pieces(a + b)[0];
    BytesGrow(a, b[..n - |a|]);
  }

  lemma StopAgrees(env: Env, p: seq<Text>, q: seq<Text>, i: nat)
    requires i < |p| && i < |q| && p[..i + 1] == q[..i + 1] && ((i == |p| - 1) == (i == |q| - 1))
    ensures Stop(env, p, i) == Stop(env, q, i)
  {
    assert p[i] == p[..i + 1][i] && q[i] == q[..i + 1][i];
  }

  lemma NonBlankAppend(lines: seq<Text>, line: Text)
    ensures NonBlank(lines + [line]) == NonBlank(lines) + if Blank(line) then [] else [line]
  {
    assert (lines + [line])[..|lines|] == lines;
  }

  ghost predicate Passed(env: Env, pieces: seq<Text>, n: nat) {
    n <= |pieces| && forall i :: 0 <= i < n ==> Stop(env, pieces, i).None?
  }

  lemma PiecesShift(done: seq<Text>, s: Text)
    requires Newline(s) < |s|
    ensures var line := s[..Newline(s)];
      && done + Pieces(s) == (done + [line]) + Pieces(s[Newline(s) + 1..])
      && (done + Pieces(s))[|done|] == line && (done + Pieces(s))[..|done| + 1] == done + [line]
      && (done + Pieces(s))[..|done|] == done
      && NonBlank(done + [line]) == NonBlank(done) + if Blank(line) then [] else [line]
  {
    var line, rest := s[..Newline(s)], Pieces(s[Newline(s) + 1..]);
    NonBlankAppend(done, line);
    assert Pieces(s) == [line] + rest;
    Regroup(done, line, rest);
  }

  lemma Regroup(done: seq<Text>, line: Text, rest: seq<Text>)
    ensures var all := done + ([line] + rest);
      && all == (done + [line]) + rest && all[|done|] == line
      && all[..|done| + 1] == done + [line] && all[..|done|] == done
  {}

  /** Draining frames what the buffer holds, after the lines already framed. */
  lemma {:induction false} DrainFrames(env: Env, c: Client, done: seq<Text>)
    requires c.closing.None? && c.dispatched == NonBlank(done)
    requires Passed(env, done + Pieces(c.buffer), |done|)
    ensures Framed(env, Drain(env, c), done + Pieces(c.buffer))
    decreases |c.buffer|
  {
    var n := Newline(c.buffer);
    if n == |c.buffer| {
      DrainLast(env, c, done);
    } else if Stop(env, done + Pieces(c.buffer), |done|).None? {
      DrainGoesOn(env, c, done);
      PassedOn(env, c.buffer, done);
      PiecesShift(done, c.buffer);
      DrainFrames(env, Client(c.buffer[n + 1..], NonBlank(done + [c.buffer[..n]]), None), done + [c.buffer[..n]]);
    } else {
      DrainStops(env, c, done);
    }
  }

  lemma PassedOn(env: Env, s: Text, done: seq<Text>)
    requires Newline(s) < |s| && Passed(env, done + Pieces(s), |done|) && Stop(env, done + Pieces(s), |done|).None?
    ensures var more := done + [s[..Newline(s)]]; Passed(env, more + Pieces(s[Newline(s) + 1..]), |more|)
  {
    PiecesShift(done, s);
  }

  lemma DrainStops(env: Env, c: Client, done: seq<Text>)
    requires c.closing.None? && c.dispatched == NonBlank(done) && Newline(c.buffer) < |c.buffer|
    requires Passed(env, done + Pieces(c.buffer), |done|) && Stop(env, done + Pieces(c.buffer), |done|).Some?
    ensures Framed(env, Drain(env, c), done + Pieces(c.buffer))
  {
    PiecesShift(done, c.buffer);
    assert StoppedAt(env, Drain(env, c), done + Pieces(c.buffer), |done|);
  }

  lemma DrainGoesOn(env: Env, c: Client, done: seq<Text>)
    requires c.closing.None? && c.dispatched == NonBlank(done) && Newline(c.buffer) < |c.buffer|
    requires Stop(env, done + Pieces(c.buffer), |done|).None?
    ensures var n := Newline(c.buffer);
      Drain(env, c) == Drain(env, Client(c.buffer[n + 1..], NonBlank(done + [c.buffer[..n]]), None))
  {
    PiecesShift(done, c.buffer);
    assert c.dispatched + [] == c.dispatched;
  }

  lemma DrainLast(env: Env, c: Client, done: seq<Text>)
    requires c.closing.None? && c.dispatched == NonBlank(done) && Newline(c.buffer) == |c.buffer|
    requires Passed(env, done + [c.buffer], |done|)
    ensures Framed(env, Drain(env, c), done + [c.buffer])
  {
    var pieces := done + [c.buffer];
    assert pieces[..|done|] == done;
    if Bytes(c.buffer) > MAX_PROTOCOL_MESSAGE_BYTES {
      assert StoppedAt(env, Drain(env, c), pieces, |done|);
    }
  }

  lemma ReceiveDrains(env: Env, c: Client, chunk: Text)
    requires c.closing.None?
    ensures Receive(env, c, chunk) == Drain(env, c.(buffer := c.buffer + chunk))
  {}

  lemma ReceiveFrames(env: Env, c: Client, a: Text, b: Text)
    requires Framed(env, c, Pieces(a))
    ensures Framed(env, Receive(env, c, b), Pieces(a + b))
  {
    var p, q := Pieces(a), Pieces(a + b);
    var n := |p| - 1;
    PiecesAppend(a, b);
    if c.closing.None? {
      assert q[..n] == p[..n];
      SameStops(env, p, q, n);
      ReceiveDrains(env, c, b);
      DrainFrames(env, c.(buffer := c.buffer + b), p[..n]);
    } else {
      StopStays(env, c, a, b);
    }
  }

  /** The last piece has no newline. */
  lemma {:induction false} LastPiece(a: Text)
    ensures var last := Pieces(a)[|Pieces(a)| - 1]; Newline(last) == |last|
    decreases |a|
  {
    if Newline(a) < |a| { LastPiece(a[Newline(a) + 1..]); }
  }

  lemma StopStays(env: Env, c: Client, a: Text, b: Text)
    requires Framed(env, c, Pieces(a)) && c.closing.Some?
    ensures Framed(env, c, Pieces(a + b))
  {
    var p, q := Pieces(a), Pieces(a + b);
    var n := |p| - 1;
    PiecesAppend(a, b);
    var i: nat :| i < |p| && StoppedAt(env, c, p, i);
    if i < n {
      StoppedInside(env, c, p, q, n, i);
    } else {
      LastPiece(a);
      FirstPieceGrows(p[n], b);
      assert q[n] == Pieces(p[n] + b)[0];
      StoppedLast(env, c, p, q, n);
    }
    assert StoppedAt(env, c, q, i);
  }

  lemma SameStops(env: Env, p: seq<Text>, q: seq<Text>, n: nat)
    requires |p| == n + 1 <= |q| && q[..n] == p[..n]
    ensures forall j: nat :: j < n ==> Stop(env, q, j) == Stop(env, p, j)
  {
    forall j: nat | j < n ensures Stop(env, q, j) == Stop(env, p, j) {
      assert q[..n][..j + 1] == q[..j + 1] && p[..n][..j + 1] == p[..j + 1];
      StopAgrees(env, p, q, j);
    }
  }

  lemma StoppedInside(env: Env, c: Client, p: seq<Text>, q: seq<Text>, n: nat, i: nat)
    requires |p| == n + 1 <= |q| && q[..n] == p[..n] && i < n && StoppedAt(env, c, p, i)
    ensures StoppedAt(env, c, q, i)
  {
    SameStops(env, p, q, n);
    assert q[..n][..i + 1] == q[..i + 1] && p[..n][..i + 1] == p[..i + 1];
    assert q[..n][..i] == q[..i] && p[..n][..i] == p[..i];
  }

  lemma StoppedLast(env: Env, c: Client, p: seq<Text>, q: seq<Text>, n: nat)
    requires |p| == n + 1 <= |q| && q[..n] == p[..n] && c.closing.Some? && StoppedAt(env, c, p, n)
    requires Bytes(p[n]) <= Bytes(q[n])
    ensures StoppedAt(env, c, q, n)
  {
    SameStops(env, p, q, n);
  }

  // ------------------------------------------------------------------ main results

  /** However the text is cut into chunks, the client has framed the whole of it. */
  lemma {:induction false} EveryChunkingFrames(env: Env, chunks: seq<Text>)
    ensures Framed(env, ReceiveAll(env, START, chunks), Pieces(Joined(chunks)))
  {
    if chunks == [] {
      assert Pieces([]) == [[]];
    } else {
      var front := chunks[..|chunks| - 1];
      EveryChunkingFrames(env, front);
      ReceiveFrames(env, ReceiveAll(env, START, front), Joined(front), chunks[|chunks| - 1]);
    }
  }

  /** Framing leaves no choice, except for the buffer of a client that is closing. */
  lemma FramedOnce(env: Env, c: Client, d: Client, pieces: seq<Text>)
    requires pieces != [] && Framed(env, c, pieces) && Framed(env, d, pieces)
    ensures c.dispatched == d.dispatched && c.closing == d.closing && (c.closing.None? ==> c == d)
  {
    if c.closing.Some? && d.closing.Some? {
      var i: nat :| i < |pieces| && StoppedAt(env, c, pieces, i);
      var j: nat :| j < |pieces| && StoppedAt(env, d, pieces, j);
      assert i == j;
    }
  }

  /** Two ways of cutting the same text dispatch the same lines, close or not for the same
      reason, and leave the same text in the buffer of a client that stays open. */
  lemma ChunksDoNotMatter(env: Env, chunks: seq<Text>, others: seq<Text>)
    requires Joined(chunks) == Joined(others)
    ensures var c, d := ReceiveAll(env, START, chunks), ReceiveAll(env, START, others);
      c.dispatched == d.dispatched && c.closing == d.closing && (c.closing.None? ==> c == d)
  {
    EveryChunkingFrames(env, chunks);
    EveryChunkingFrames(env, others);
    FramedOnce(env, ReceiveAll(env, START, chunks), ReceiveAll(env, START, others), Pieces(Joined(chunks)));
  }

  function JoinLines(pieces: seq<Text>): Text
    requires pieces != []
  {
    if |pieces| == 1 then pieces[0] else pieces[0] + [NEWLINE] + JoinLines(pieces[1..])
  }

  /** The pieces are the text: joined by newlines they give it back, and none of them
      holds a newline. */
  lemma {:induction false} PiecesAreTheText(s: Text)
    ensures JoinLines(Pieces(s)) == s
    ensures forall i :: 0 <= i < |Pieces(s)| ==> NEWLINE !in Pieces(s)[i]
    decreases |s|
  {
    var n := Newline(s);
    if n < |s| {
      PiecesAreTheText(s[n + 1..]);
      assert Pieces(s)[1..] == Pieces(s[n + 1..]);
      assert s == s[..n] + [NEWLINE] + s[n + 1..];
    }
  }
}
