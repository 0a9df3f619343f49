/** Newline-ended messages read from a socket that cuts its bytes anywhere. */
module QgaFraming {
  import opened Wrappers

  newtype byte = b: int | 0 <= b < 256

  type Bytes = seq<byte>

  const NEWLINE: byte := 10

  /** One read: some bytes, at least one, or an error such as a timeout. The end of the list is a
      closed connection. */
  datatype Read = Data(bytes: NonEmpty) | Failed

  type NonEmpty = b: Bytes | b != [] witness [0]

  datatype ReadError = ReadFailed | Closed

  /** The bytes still to come. */
  function Pending(input: seq<Read>): Bytes {
    if input == [] then []
    else if input[0].Data? then input[0].bytes + Pending(input[1..])
    else Pending(input[1..])
  }

  // ----- The messages of a byte stream -----

  function NewlineAt(b: Bytes): (i: nat)
    ensures i <= |b|
    ensures NEWLINE !in b[..i]
    ensures i < |b| ==> b[i] == NEWLINE
  {
    if b == [] || b[0] == NEWLINE then 0 else 1 + NewlineAt(b[1..])
  }

  /** The newline-ended lines, without their newlines; a last line without one is no line yet. */
  function CompleteLines(b: Bytes): seq<Bytes>
    decreases |b|
  {
    var i := NewlineAt(b);
    if i == |b| then [] else [b[..i]] + CompleteLines(b[i + 1..])
  }

  function Prepend<V>(v: Option<V>, vs: seq<V>): seq<V> {
    if v.Some? then [v.value] + vs else vs
  }

  /** The values of the lines that parse. */
  function Parsed<V>(lines: seq<Bytes>, parse: Bytes -> Option<V>): seq<V> {
    if lines == [] then [] else Prepend(parse(lines[0]), Parsed(lines[1..], parse))
  }

  function Messages<V>(b: Bytes, parse: Bytes -> Option<V>): seq<V> {
    Parsed(CompleteLines(b), parse)
  }

  lemma {:induction false} NewlineAtAppend(b: Bytes, c: Bytes)
    requires NewlineAt(b) < |b|
    ensures NewlineAt(b + c) == NewlineAt(b)
  {
    if b[0] != NEWLINE {
      NewlineAtAppend(b[1..], c);
      assert (b + c)[1..] == b[1..] + c;
    }
  }

  lemma MessagesOfLine<V>(b: Bytes, parse: Bytes -> Option<V>)
    requires NewlineAt(b) < |b|
    ensures var i := NewlineAt(b);
            Messages(b, parse) == Prepend(parse(b[..i]), Messages(b[i + 1..], parse))
  {
    hide NewlineAt, Prepend;
    var i := NewlineAt(b);
    var lines := CompleteLines(b);
    assert lines[0] == b[..i] && lines[1..] == CompleteLines(b[i + 1..]);
  }

  lemma {:induction false} NoLineNoMessages<V>(b: Bytes, parse: Bytes -> Option<V>)
    requires NEWLINE !in b
    ensures Messages(b, parse) == [] && NewlineAt(b) == |b|
  {
    if b != [] {
      assert b[0] in b;
      NoLineNoMessages(b[1..], parse);
    }
  }

  lemma LineComesOff<V>(buffer: Bytes, rest: Bytes, parse: Bytes -> Option<V>)
    requires NewlineAt(buffer) < |buffer|
    ensures var i := NewlineAt(buffer);
            Messages(buffer + rest, parse) == Prepend(parse(buffer[..i]), Messages(buffer[i + 1..] + rest, parse))
  {
    hide NewlineAt, Prepend, Messages;
    var i := NewlineAt(buffer);
    NewlineAtAppend(buffer, rest);
    MessagesOfLine(buffer + rest, parse);
    assert (buffer + rest)[..i] == buffer[..i];
    assert (buffer + rest)[i + 1..] == buffer[i + 1..] + rest;
  }

  // ----- One call -----

  /** A connection: what is received and not yet consumed, and what the socket has still to give. */
  datatype Connection = Connection(buffer: Bytes, unread: seq<Read>)

  function StreamOf(c: Connection): Bytes {
    c.buffer + Pending(c.unread)
  }

  datatype Reply<V> = Reply(result: Result<V, ReadError>, connection: Connection)

  /** The answer of one call, and the connection it leaves. */
  function Respond<V>(c: Connection, parse: Bytes -> Option<V>): Reply<V>
    decreases |c.unread|, |c.buffer|
  {
    var pos := NewlineAt(c.buffer);
    if pos < |c.buffer| then
      var next := c.(buffer := c.buffer[pos + 1..]);
      match parse(c.buffer[..pos])
      case Some(v) => Reply(Ok(v), next)
      case None => Respond(next, parse)
    else if c.unread == [] then Reply(Err(Closed), c)
    else if c.unread[0].Failed? then Reply(Err(ReadFailed), c.(unread := c.unread[1..]))
    else Respond(Connection(c.buffer + c.unread[0].bytes, c.unread[1..]), parse)
  }

  /** What one call does to the messages still to be handed out. */
  predicate Serves<V(==)>(before: seq<V>, r: Result<V, ReadError>, after: seq<V>) {
    match r
    case Ok(v) => before == [v] + after
    case Err(e) => before == after && (e == Closed ==> after == [])
  }

  function FailedReads(input: seq<Read>): nat {
    if input == [] then 0 else (if input[0].Failed? then 1 else 0) + FailedReads(input[1..])
  }

  /** One call hands out the next message, or reports one failed read, or the close. */
  lemma {:induction false} RespondServes<V>(c: Connection, parse: Bytes -> Option<V>)
    ensures var r := Respond(c, parse);
            && Serves(Messages(StreamOf(c), parse), r.result, Messages(StreamOf(r.connection), parse))
            && FailedReads(c.unread) ==
               FailedReads(r.connection.unread) + (if r.result == Err(ReadFailed) then 1 else 0)
            && (r.result.Ok? ==> |StreamOf(r.connection)| < |StreamOf(c)|)
            && |StreamOf(r.connection)| <= |StreamOf(c)|
            && (r.result == Err(Closed) ==> r.connection.unread == [])
            && (r.result == Err(ReadFailed) ==> |r.connection.unread| < |c.unread|)
    decreases |c.unread|, |c.buffer|
  {
    hide NewlineAt, Messages, Respond, Pending, Prepend;
    var pos := NewlineAt(c.buffer);
    if pos < |c.buffer| {
      RespondToLine(c, parse);
      LineComesOff(c.buffer, Pending(c.unread), parse);
      var next := c.(buffer := c.buffer[pos + 1..]);
      Prepended(parse(c.buffer[..pos]), Messages(StreamOf(next), parse));
      if parse(c.buffer[..pos]).None? {
        RespondServes(next, parse);
      }
    } else {
      RespondToRead(c, parse);
      assert c.buffer[..pos] == c.buffer;
      PendingStep(c.unread);
      if c.unread == [] {
        NoLineNoMessages(c.buffer, parse);
        assert c.buffer + [] == c.buffer;
      } else if c.unread[0].Data? {
        var bytes := c.unread[0].bytes;
        RespondServes(Connection(c.buffer + bytes, c.unread[1..]), parse);
        assert c.buffer + (bytes + Pending(c.unread[1..])) == (c.buffer + bytes) + Pending(c.unread[1..]);
      }
    }
  }

  lemma Prepended<V>(v: Option<V>, vs: seq<V>)
    ensures Prepend(v, vs) == if v.Some? then [v.value] + vs else vs
  {
  }

  lemma PendingStep(input: seq<Read>)
    ensures input == [] ==> Pending(input) == []
    ensures input != [] && input[0].Failed? ==> Pending(input) == Pending(input[1..])
    ensures input != [] && input[0].Data? ==> Pending(input) == input[0].bytes + Pending(input[1..])
  {
  }

  predicate EndsInNewline(b: Bytes) {
    b != [] && b[|b| - 1] == NEWLINE
  }

  /** What a call consumes are whole lines; consumed, buffered and unread bytes rebuild the stream.
      A call that fails has left no line in the buffer. */
  lemma {:induction false} RespondConsumes<V>(c: Connection, parse: Bytes -> Option<V>) returns (consumed: Bytes)
    ensures var r := Respond(c, parse);
            && StreamOf(c) == consumed + StreamOf(r.connection)
            && (r.result.Ok? ==> EndsInNewline(consumed))
            && (r.result.Err? ==> consumed == [] || EndsInNewline(consumed))
            && (r.result.Err? ==> NEWLINE !in r.connection.buffer)
    decreases |c.unread|, |c.buffer|
  {
    hide NewlineAt;
    var pos := NewlineAt(c.buffer);
    if pos < |c.buffer| {
      var line, next := c.buffer[..pos + 1], c.(buffer := c.buffer[pos + 1..]);
      assert StreamOf(c) == line + StreamOf(next);
      if parse(c.buffer[..pos]).Some? {
        consumed := line;
      } else {
        var more := RespondConsumes(next, parse);
        consumed := line + more;
      }
    } else {
      assert c.buffer[..pos] == c.buffer;
      if c.unread != [] && c.unread[0].Data? {
        var bytes := c.unread[0].bytes;
        consumed := RespondConsumes(Connection(c.buffer + bytes, c.unread[1..]), parse);
        assert c.buffer + (bytes + Pending(c.unread[1..])) == (c.buffer + bytes) + Pending(c.unread[1..]);
      } else {
        consumed := [];
        assert [] + StreamOf(c) == StreamOf(c);
      }
    }
  }

  lemma RespondToLine<V>(c: Connection, parse: Bytes -> Option<V>)
    requires NewlineAt(c.buffer) < |c.buffer|
    ensures var pos := NewlineAt(c.buffer);
            var next := c.(buffer := c.buffer[pos + 1..]);
            Respond(c, parse) ==
            match parse(c.buffer[..pos]) case Some(v) => Reply(Ok(v), next) case None => Respond(next, parse)
  {
    hide NewlineAt;
  }

  lemma RespondToRead<V>(c: Connection, parse: Bytes -> Option<V>)
    requires NewlineAt(c.buffer) == |c.buffer|
    ensures Respond(c, parse) ==
            if c.unread == [] then Reply(Err(Closed), c)
            else if c.unread[0].Failed? then Reply(Err(ReadFailed), c.(unread := c.unread[1..]))
            else Respond(Connection(c.buffer + c.unread[0].bytes, c.unread[1..]), parse)
  {
    hide NewlineAt;
  }

  // ----- The client -----

  class QgaClient<V(==)> {
    var unread: seq<Read>
    var buffer: Bytes
    const parse: Bytes -> Option<V>

    constructor (input: seq<Read>, parse: Bytes -> Option<V>)
      ensures unread == input && buffer == [] && this.parse == parse
    {
      unread, buffer := input, [];
      this.parse := parse;
    }

    function View(): Connection
      reads this
    {
      Connection(buffer, unread)
    }

    /** Everything received and not yet consumed, and everything still to come. */
    function Stream(): Bytes
      reads this
    {
      StreamOf(View())
    }

    /** Returns the next message. Whatever the outcome, what was consumed, what is buffered and
        what is unread rebuild the stream, and no message is lost or handed out twice. */
    method ReadResponse() returns (r: Result<V, ReadError>, ghost consumed: Bytes)
      modifies this
      ensures Reply(r, View()) == Respond(old(View()), parse)
      ensures old(Stream()) == consumed + Stream()
      ensures Serves(Messages(old(Stream()), parse), r, Messages(Stream(), parse))
      ensures r == Err(Closed) ==> unread == []
      ensures r == Err(ReadFailed) ==> |unread| < |old(unread)| && FailedReads(old(unread)) == FailedReads(unread) + 1
      ensures r.Ok? ==> EndsInNewline(consumed)
      ensures r.Err? ==> (consumed == [] || EndsInNewline(consumed)) && NEWLINE !in buffer
    {
      hide NewlineAt, Messages, Respond, Serves, FailedReads, StreamOf;
      RespondServes(View(), parse);
      consumed := RespondConsumes(View(), parse);
      while true
        invariant Respond(View(), parse) == Respond(old(View()), parse)
        decreases |unread|, |buffer|
      {
        var pos := NewlineAt(buffer);
        if pos < |buffer| {
          RespondToLine(View(), parse);
          var line := buffer[..pos];
          buffer := buffer[pos + 1..];
          var value := parse(line);
          if value.Some? {
            return Ok(value.value), consumed;
          }
          continue;
        }
        RespondToRead(View(), parse);
        if unread == [] {
          return Err(Closed), consumed;
        }
        var read := unread[0];
        unread := unread[1..];
        if read.Failed? {
          return Err(ReadFailed), consumed;
        }
        buffer := buffer + read.bytes;
      }
    }

    /** Skips messages until one carries an error or a result. */
    method Execute(isError: V -> bool, isReturn: V -> bool) returns (r: Result<V, Option<ReadError>>)
      modifies this
      ensures r.Ok? ==> isReturn(r.value) && !isError(r.value)
      ensures match FirstAnswer(Messages(old(Stream()), parse), isError, isReturn)
              case None => r.Err? && FirstAnswer(Messages(Stream(), parse), isError, isReturn) == None
              case Some(k) =>
                var ms := Messages(old(Stream()), parse);
                if r.Err? && r.error.Some? then
                  r.error.value == ReadFailed && FirstAnswer(Messages(Stream(), parse), isError, isReturn).Some?
                else
                  (if isError(ms[k]) then r == Err(None) else r == Ok(ms[k]))
                  && Messages(Stream(), parse) == ms[k + 1..]
    {
      hide NewlineAt, Messages, Pending, Respond;
      ghost var all := Messages(Stream(), parse);
      ghost var skipped := 0;
      assert all[0..] == all;
      while true
        invariant skipped <= |all| && Messages(Stream(), parse) == all[skipped..]
        invariant forall i | 0 <= i < skipped :: !isError(all[i]) && !isReturn(all[i])
        decreases |all| - skipped
      {
        FirstAnswerSkips(all, skipped, isError, isReturn);
        ghost var consumed;
        var response: Result<V, ReadError>;
        response, consumed := ReadResponse();
        if response.Err? {
          return Err(Some(response.error));
        }
        var m := response.value;
        assert m == all[skipped] && Messages(Stream(), parse) == all[skipped..][1..];
        assert all[skipped..][1..] == all[skipped + 1..];
        if isError(m) {
          return Err(None);
        }
        if isReturn(m) {
          return Ok(m);
        }
        skipped := skipped + 1;
      }
    }
  }

  function FirstAnswer<V>(ms: seq<V>, isError: V -> bool, isReturn: V -> bool): (k: Option<nat>)
    ensures k.Some? ==> k.value < |ms|
  {
    if ms == [] then None
    else if isError(ms[0]) || isReturn(ms[0]) then Some(0)
    else match FirstAnswer(ms[1..], isError, isReturn)
      case None => None
      case Some(k) => Some(k + 1)
  }

  /** It is the first message that carries an error or a result. */
  lemma {:induction false} FirstAnswerIsFirst<V>(ms: seq<V>, isError: V -> bool, isReturn: V -> bool)
    ensures match FirstAnswer(ms, isError, isReturn)
            case None => forall m | m in ms :: !isError(m) && !isReturn(m)
            case Some(k) =>
              (isError(ms[k]) || isReturn(ms[k])) && forall i | 0 <= i < k :: !isError(ms[i]) && !isReturn(ms[i])
  {
    if ms != [] && !isError(ms[0]) && !isReturn(ms[0]) {
      FirstAnswerIsFirst(ms[1..], isError, isReturn);
      assert ms == [ms[0]] + ms[1..];
    }
  }

  lemma {:induction false} FirstAnswerSkips<V>(ms: seq<V>, n: nat, isError: V -> bool, isReturn: V -> bool)
    requires n <= |ms| && forall i | 0 <= i < n :: !isError(ms[i]) && !isReturn(ms[i])
    ensures FirstAnswer(ms, isError, isReturn) ==
            match FirstAnswer(ms[n..], isError, isReturn) case None => None case Some(k) => Some(n + k)
  {
    if n == 0 {
      assert ms[0..] == ms;
    } else {
      FirstAnswerSkips(ms[1..], n - 1, isError, isReturn);
      assert ms[1..][n - 1..] == ms[n..];
    }
  }

  // ----- Successive calls -----

  function Served<V>(rs: seq<Result<V, ReadError>>): seq<V> {
    if rs == [] then []
    else if rs[0].Ok? then [rs[0].value] + Served(rs[1..])
    else Served(rs[1..])
  }

  /** The answers of the first `n` calls, and the connection they leave. */
  function Calls<V>(c: Connection, parse: Bytes -> Option<V>, n: nat): (seq<Result<V, ReadError>>, Connection)
    decreases n
  {
    if n == 0 then ([], c)
    else
      var r := Respond(c, parse);
      var rest := Calls(r.connection, parse, n - 1);
      ([r.result] + rest.0, rest.1)
  }

  /** Over any number of successive calls, whatever reads fail in between, the messages handed out
      and those still to come are the messages of the stream, in order; none is lost or repeated. */
  lemma {:induction false} AllAreServedInOrder<V>(c: Connection, parse: Bytes -> Option<V>, n: nat)
    ensures var calls := Calls(c, parse, n);
            Messages(StreamOf(c), parse) == Served(calls.0) + Messages(StreamOf(calls.1), parse)
    decreases n
  {
    hide Messages, Respond;
    if n > 0 {
      RespondServes(c, parse);
      AllAreServedInOrder(Respond(c, parse).connection, parse, n - 1);
    }
  }

  predicate IsClosed<V>(r: Result<V, ReadError>) {
    r.Err? && r.error == Closed
  }

  /** All answers of a connection, called again and again until it reports the close. */
  function Session<V>(c: Connection, parse: Bytes -> Option<V>): seq<Result<V, ReadError>>
    decreases |StreamOf(c)| + FailedReads(c.unread)
  {
    var r := Respond(c, parse);
    if IsClosed(r.result) then [r.result]
    else
      RespondServes(c, parse);
      [r.result] + Session(r.connection, parse)
  }

  function Failures<V>(rs: seq<Result<V, ReadError>>): nat {
    if rs == [] then 0
    else (if rs[0].Err? && rs[0].error == ReadFailed then 1 else 0) + Failures(rs[1..])
  }

  /** By the close every message has been handed out, once and in order, and every failed read
      reported once. */
  lemma {:induction false} SessionServesAll<V>(c: Connection, parse: Bytes -> Option<V>)
    ensures Served(Session(c, parse)) == Messages(StreamOf(c), parse)
    ensures Failures(Session(c, parse)) == FailedReads(c.unread)
    decreases |StreamOf(c)| + FailedReads(c.unread)
  {
    hide Messages, Respond;
    RespondServes(c, parse);
    var r := Respond(c, parse);
    if !IsClosed(r.result) {
      SessionServesAll(r.connection, parse);
      assert Session(c, parse)[1..] == Session(r.connection, parse);
    } else {
      assert Session(c, parse)[1..] == [];
    }
  }

  /** So it does not matter how the socket cuts the stream, nor which reads fail: from connections
      that carry the same bytes the same messages are handed out. */
  lemma ChunksDoNotMatter<V>(one: seq<Read>, other: seq<Read>, parse: Bytes -> Option<V>)
    requires Pending(one) == Pending(other)
    ensures Served(Session(Connection([], one), parse)) == Served(Session(Connection([], other), parse))
    ensures Served(Session(Connection([], one), parse)) == Messages(Pending(one), parse)
  {
    SessionServesAll(Connection([], one), parse);
    SessionServesAll(Connection([], other), parse);
    assert StreamOf(Connection([], one)) == Pending(one);
    assert StreamOf(Connection([], other)) == Pending(other);
  }

  // ----- Lines -----

  /** The lines with their newlines put back. */
  function Ended(lines: seq<Bytes>): Bytes {
    if lines == [] then [] else lines[0] + [NEWLINE] + Ended(lines[1..])
  }

  /** The complete lines, ended again, are a prefix of the stream that leaves no newline over. */
  lemma {:induction false} LinesRebuildTheStream(b: Bytes)
    ensures Ended(CompleteLines(b)) <= b
    ensures 10 as byte !in b[|Ended(CompleteLines(b))|..]
    ensures forall l | l in CompleteLines(b) :: 10 as byte !in l
    decreases |b|
  {
    hide NewlineAt;
    var i := NewlineAt(b);
    if i == |b| {
      assert b[..i] == b && b[0..] == b;
    } else {
      var rest := b[i + 1..];
      LinesRebuildTheStream(rest);
      var lines := CompleteLines(b);
      assert lines[0] == b[..i] && lines[1..] == CompleteLines(rest);
      var n := |Ended(CompleteLines(rest))|;
      assert b == b[..i] + [NEWLINE] + rest;
      assert b[i + 1 + n..] == rest[n..];
    }
  }
}
