/** The App Server client's receiving side, with its buffer updated in place. */
module AppServer {
  import opened Options
  import opened Text
  import opened Utf8
  import opened LineFraming

  class AppServerClient {
    const env: Env
    var stdoutBuffer: Text
    /** The lines handed to `#dispatch`, in order. */
    var dispatched: seq<Text>
    var closing: Option<Reason>
    /** All text received so far. */
    ghost var received: Text

    constructor (env: Env)
      ensures this.env == env && State() == START && received == [] && Valid()
    {
      this.env := env;
      stdoutBuffer, dispatched, closing, received := [], [], None, [];
      new;
      assert Pieces([]) == [[]];
    }

    /** What was received is framed, however it came in. */
    ghost predicate Valid()
      reads this
    {
      Framed(env, State(), Pieces(received))
    }

    ghost function State(): Client
      reads this
    {
      Client(stdoutBuffer, dispatched, closing)
    }

    static method ByteLength(s: Text) returns (bytes: nat)
      ensures bytes == Bytes(s)
    {
      bytes := 0;
      var i := 0;
      while i < |s|
        invariant 0 <= i <= |s|
        invariant bytes + Bytes(s[i..]) == Bytes(s)
      {
        if i + 1 < |s| && High(s[i]) && Low(s[i + 1]) {
          assert s[i..][2..] == s[i + 2..];
          bytes, i := bytes + 4, i + 2;
        } else {
          assert s[i..][1..] == s[i + 1..];
          bytes := bytes + if s[i] < 0x80 then 1 else if s[i] < 0x800 then 2 else 3;
          i := i + 1;
        }
      }
    }

    method ProtocolFailure(reason: Reason)
      modifies this`closing
      ensures State() == if old(closing).Some? then old(State()) else Fail(old(State()), reason)
    {
      if closing.None? { closing := Some(reason); }
    }

    method Dispatch(line: Text)
      modifies this`closing, this`dispatched
      ensures dispatched == old(dispatched) + [line]
      ensures closing == if old(closing).None? && env.closes(dispatched) then Some(Dispatching) else old(closing)
    {
      dispatched := dispatched + [line];
      if env.closes(dispatched) { ProtocolFailure(Dispatching); }
    }

    method ReceiveChunk(chunk: Text)
      modifies this
      ensures State() == Receive(env, old(State()), chunk) && received == old(received) + chunk
      ensures old(Valid()) ==> Valid()
    {
      if Valid() { ReceiveFrames(env, State(), received, chunk); }
      received := received + chunk;
      if closing.Some? { return; }
      stdoutBuffer := stdoutBuffer + chunk;
      var bytes := ByteLength(stdoutBuffer);
      if bytes > MAX_PROTOCOL_MESSAGE_BYTES && Newline(stdoutBuffer) == |stdoutBuffer| {
        ProtocolFailure(LineLimit);
        return;
      }
      ghost var whole := Drain(env, State());
      while true
        invariant closing.None? && Drain(env, State()) == whole
        invariant received == old(received) + chunk
        decreases |stdoutBuffer|
      {
        var newline := Newline(stdoutBuffer);
        if newline == |stdoutBuffer| { break; }
        var line := stdoutBuffer[..newline];
        stdoutBuffer := stdoutBuffer[newline + 1..];
        bytes := ByteLength(line);
        if bytes > MAX_PROTOCOL_MESSAGE_BYTES {
          ProtocolFailure(LineLimit);
          return;
        }
        if Blank(line) { continue; }
        if !env.parses(line) {
          ProtocolFailure(InvalidJson);
          return;
        }
        Dispatch(line);
        if closing.Some? { return; }
      }
      bytes := ByteLength(stdoutBuffer);
      if bytes > MAX_PROTOCOL_MESSAGE_BYTES { ProtocolFailure(LineLimit); }
    }
  }
}
