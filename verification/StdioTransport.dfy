/**
 One stdio backend process shared by several sessions: every request is written under a request id
 of its own, and takes the next line the process prints for its reply.
 */
module StdioTransport {
  import opened Common
  import Json

  type Payload = map<string, Json.Value>

  /** What one `readline` returns. */
  datatype Line = Eof | NotJson | NotAnObject | Message(fields: Payload)

  /** Undecodable is the one that the daemon does not catch: bytes that are not UTF-8. */
  datatype ProxyError =
    | NotRunning | TransportFailed | ClosedWithoutResponse | InvalidJson | NonObjectResponse | IdMismatch | Undecodable

  datatype RequestIdRewrite = RequestIdRewrite(frontendId: Json.Value, backendId: string)

  /** A forwarded request: the client's payload and the fresh id it is written under. */
  datatype Call = Call(payload: Payload, wireId: string)

  function RewriteRequestId(call: Call): (Payload, Option<RequestIdRewrite>) {
    if "id" !in call.payload then (call.payload, None)
    else (call.payload["id" := Json.String(call.wireId)], Some(RequestIdRewrite(call.payload["id"], call.wireId)))
  }

  function RestoreResponseId(response: Payload, rewrite: Option<RequestIdRewrite>): Result<Payload, ProxyError> {
    if rewrite.None? || "id" !in response then Ok(response)
    else if response["id"] != Json.String(rewrite.value.backendId) then Err(IdMismatch)
    else Ok(response["id" := rewrite.value.frontendId])
  }

  /** What the client of a call gets when the call reads this line. */
  function Interpret(call: Call, line: Line): Result<Payload, ProxyError> {
    match line
    case Eof => Err(ClosedWithoutResponse)
    case NotJson => Err(InvalidJson)
    case NotAnObject => Err(NonObjectResponse)
    case Message(fields) => RestoreResponseId(fields, RewriteRequestId(call).1)
  }

  // ----- All calls of one process -----

  /** How far an attempt gets: its request is not written, since the process had exited or its pipe
      broke; or reading raises, and with it so many printed lines are lost; or it reads a line. */
  datatype End = Unwritten(error: ProxyError) | ReadRaised(error: ProxyError, lost: nat) | Read

  datatype Attempt = Attempt(call: Call, end: End)

  function Used(end: End): nat {
    match end
    case Unwritten(_) => 0
    case ReadRaised(_, lost) => lost
    case Read => 1
  }

  /** How many lines the first `n` attempts have used up. */
  function LinesRead(attempts: seq<Attempt>, n: nat): nat
    requires n <= |attempts|
  {
    if n == 0 then 0 else LinesRead(attempts, n - 1) + Used(attempts[n - 1].end)
  }

  /** How many requests they have written. */
  function WrittenBefore(attempts: seq<Attempt>, n: nat): nat
    requires n <= |attempts|
  {
    if n == 0 then 0 else WrittenBefore(attempts, n - 1) + (if attempts[n - 1].end.Unwritten? then 0 else 1)
  }

  function LineAt(output: seq<Line>, position: nat): Line {
    if position < |output| then output[position] else Eof
  }

  /** The line attempt `i` reads, of all the lines the process will ever print. */
  function LineRead(attempts: seq<Attempt>, output: seq<Line>, i: nat): Line
    requires i < |attempts|
  {
    LineAt(output, LinesRead(attempts, i))
  }

  function Outcome(attempts: seq<Attempt>, output: seq<Line>, i: nat): Result<Payload, ProxyError>
    requires i < |attempts|
  {
    if attempts[i].end.Read? then Interpret(attempts[i].call, LineRead(attempts, output, i)) else Err(attempts[i].end.error)
  }

  predicate DistinctIds(attempts: seq<Attempt>) {
    forall i, j :: 0 <= i < j < |attempts| ==> attempts[i].call.wireId != attempts[j].call.wireId
  }

  /** A line emitted in answer to attempt `j`. */
  predicate Answers(attempts: seq<Attempt>, line: Line, j: nat)
    requires j < |attempts|
  {
    line.Message? && "id" in line.fields && line.fields["id"] == Json.String(attempts[j].call.wireId)
  }

  /** One payload is the other but for its id. */
  predicate SameButForId(a: Payload, b: Payload) {
    a.Keys == b.Keys && forall key :: key in a && key != "id" ==> a[key] == b[key]
  }

  /** The line that carries a call: the client's payload, field by field, under the fresh id if it has an
      id, and as it is if it has none. */
  predicate Carries(sent: Payload, call: Call) {
    && SameButForId(sent, call.payload)
    && (if "id" in call.payload then sent["id"] == Json.String(call.wireId) else sent == call.payload)
  }

  lemma RewriteCarries(call: Call)
    ensures Carries(RewriteRequestId(call).0, call)
  {
  }

  /** What a client gets, exactly.  A message reaches it if it carries no id, or the client's request does
      not, or the ids agree: field by field, under the client's own id if both carry one, and as it is
      otherwise.  All else is an error that tells what was wrong. */
  lemma ReplyReachesClientIff(attempts: seq<Attempt>, output: seq<Line>, i: nat)
    requires i < |attempts| && attempts[i].end.Read?
    ensures var call, line, outcome := attempts[i].call, LineRead(attempts, output, i), Outcome(attempts, output, i);
            match line
            case Eof => outcome == Err(ClosedWithoutResponse)
            case NotJson => outcome == Err(InvalidJson)
            case NotAnObject => outcome == Err(NonObjectResponse)
            case Message(fields) =>
              if "id" in fields && "id" in call.payload then
                if fields["id"] == Json.String(call.wireId)
                then outcome.Ok? && SameButForId(outcome.value, fields) && outcome.value["id"] == call.payload["id"]
                else outcome == Err(IdMismatch)
              else outcome == Ok(fields)
  {
  }

  /** Whatever the process prints: a reply with an id that reaches the client of a request with an id
      was emitted under the id of that request and of no other, and carries the client's own id. */
  lemma {:induction false} NoCrossDelivery(attempts: seq<Attempt>, output: seq<Line>, i: nat)
    requires DistinctIds(attempts) && i < |attempts| && "id" in attempts[i].call.payload
    requires Outcome(attempts, output, i).Ok? && "id" in Outcome(attempts, output, i).value
    ensures var line, reply := LineRead(attempts, output, i), Outcome(attempts, output, i).value;
            && Answers(attempts, line, i) && reply == line.fields["id" := attempts[i].call.payload["id"]]
            && forall j :: 0 <= j < |attempts| && j != i ==> !Answers(attempts, line, j)
  {
  }

  lemma {:induction false} LinesReadGrows(attempts: seq<Attempt>, i: nat, j: nat)
    requires i <= j <= |attempts|
    ensures LinesRead(attempts, i) <= LinesRead(attempts, j) && WrittenBefore(attempts, i) <= WrittenBefore(attempts, j)
    decreases j
  {
    if i < j {
      LinesReadGrows(attempts, i, j - 1);
    }
  }

  /** No line reaches two clients: of two attempts that read, the later one reads a later line. */
  lemma {:induction false} EachLineIsReadOnce(attempts: seq<Attempt>, i: nat, j: nat)
    requires i < j < |attempts| && attempts[i].end.Read? && attempts[j].end.Read?
    ensures LinesRead(attempts, i) < LinesRead(attempts, j)
  {
    assert LinesRead(attempts, i + 1) == LinesRead(attempts, i) + 1;
    LinesReadGrows(attempts, i + 1, j);
  }

  /** The id is all that ties a reply to its request: an attempt is handed another one's answer if and
      only if it reads that answer and its own request carries no id. */
  lemma {:induction false} CrossDeliveryIffNoId(attempts: seq<Attempt>, output: seq<Line>, i: nat, j: nat)
    requires DistinctIds(attempts) && i < |attempts| && j < |attempts| && i != j
    requires attempts[i].end.Read? && Answers(attempts, LineRead(attempts, output, i), j)
    ensures Outcome(attempts, output, i) == Ok(LineRead(attempts, output, i).fields) <==> "id" !in attempts[i].call.payload
    ensures Outcome(attempts, output, i) == Err(IdMismatch) <==> "id" in attempts[i].call.payload
  {
  }

  // ----- A backend that answers in order -----

  /** The calls that are written to the process, in order. */
  function Written(attempts: seq<Attempt>): seq<Call> {
    if attempts == [] then []
    else
      var before := Written(attempts[..|attempts| - 1]);
      var last := attempts[|attempts| - 1];
      if last.end.Unwritten? then before else before + [last.call]
  }

  /** What goes over the wire for these calls. */
  function OnTheWire(calls: seq<Call>): seq<Payload> {
    seq(|calls|, i requires 0 <= i < |calls| => RewriteRequestId(calls[i]).0)
  }

  lemma {:induction false} EarlierAttempts(attempts: seq<Attempt>, m: nat, n: nat)
    requires n <= m <= |attempts|
    ensures WrittenBefore(attempts[..m], n) == WrittenBefore(attempts, n)
  {
    if n > 0 {
      EarlierAttempts(attempts, m, n - 1);
    }
  }

  lemma {:induction false} WrittenCount(attempts: seq<Attempt>)
    ensures |Written(attempts)| == WrittenBefore(attempts, |attempts|)
  {
    if attempts != [] {
      var m := |attempts| - 1;
      WrittenCount(attempts[..m]);
      EarlierAttempts(attempts, m, m);
    }
  }

  /** The place of an attempt's request among all that is written. */
  lemma {:induction false} WrittenWhere(attempts: seq<Attempt>, i: nat)
    requires i < |attempts| && !attempts[i].end.Unwritten?
    ensures WrittenBefore(attempts, i) < |Written(attempts)|
    ensures Written(attempts)[WrittenBefore(attempts, i)] == attempts[i].call
  {
    var m := |attempts| - 1;
    WrittenCount(attempts[..m]);
    EarlierAttempts(attempts, m, m);
    if i < m {
      WrittenWhere(attempts[..m], i);
      EarlierAttempts(attempts, m, i);
    }
  }

  /** The attempt that wrote the request at a place. */
  lemma {:induction false} WriterOf(attempts: seq<Attempt>, place: nat) returns (j: nat)
    requires place < |Written(attempts)|
    ensures j < |attempts| && !attempts[j].end.Unwritten? && WrittenBefore(attempts, j) == place
    ensures Written(attempts)[place] == attempts[j].call
  {
    var m := |attempts| - 1;
    WrittenCount(attempts[..m]);
    EarlierAttempts(attempts, m, m);
    if place < |Written(attempts[..m])| {
      j := WriterOf(attempts[..m], place);
      EarlierAttempts(attempts, m, j);
    } else {
      j := m;
    }
  }

  /** What goes over the wire are the calls themselves, each at the place where it was written. */
  lemma WireCarriesCalls(attempts: seq<Attempt>, i: nat)
    requires i < |attempts| && !attempts[i].end.Unwritten?
    ensures WrittenBefore(attempts, i) < |OnTheWire(Written(attempts))|
    ensures Carries(OnTheWire(Written(attempts))[WrittenBefore(attempts, i)], attempts[i].call)
  {
    WrittenWhere(attempts, i);
    RewriteCarries(attempts[i].call);
  }

  predicate AllExpectReplies(attempts: seq<Attempt>) {
    forall i :: 0 <= i < |attempts| ==> "id" in attempts[i].call.payload
  }

  /** The k-th line answers the k-th request on the wire, whoever sent it: each is answered once, in
      order, and nothing else is printed. */
  predicate InOrder(wire: seq<Payload>, replies: seq<Line>) {
    |replies| == |wire| &&
    forall k :: 0 <= k < |wire| ==>
      replies[k].Message? && "id" in replies[k].fields && "id" in wire[k] && replies[k].fields["id"] == wire[k]["id"]
  }

  /** As many lines have been used up as requests were written. */
  predicate InStep(attempts: seq<Attempt>, i: nat)
    requires i <= |attempts|
  {
    LinesRead(attempts, i) == WrittenBefore(attempts, i)
  }

  /** Only a read that raised and lost no line, or more than one, brings reading and writing out of step. */
  lemma {:induction false} InStepUnlessReadsRaised(attempts: seq<Attempt>, i: nat)
    requires i <= |attempts|
    requires forall k :: 0 <= k < i ==> attempts[k].end.ReadRaised? ==> attempts[k].end.lost == 1
    ensures InStep(attempts, i)
  {
    if i > 0 {
      InStepUnlessReadsRaised(attempts, i - 1);
    }
  }

  /** The reply at a place answers the attempt that wrote the request at that place. */
  lemma {:induction false} InOrderReplyAnswersItsWriter(attempts: seq<Attempt>, replies: seq<Line>, i: nat)
    requires AllExpectReplies(attempts) && InOrder(OnTheWire(Written(attempts)), replies)
    requires i < |attempts| && !attempts[i].end.Unwritten?
    ensures WrittenBefore(attempts, i) < |replies| && Answers(attempts, replies[WrittenBefore(attempts, i)], i)
  {
    WrittenWhere(attempts, i);
    assert OnTheWire(Written(attempts))[WrittenBefore(attempts, i)] == RewriteRequestId(attempts[i].call).0;
  }

  /** A backend that answers each request once, in order, and prints nothing else serves a session its
      own reply under its own id exactly while reading and writing are in step; after that it serves
      nobody, though it answers everybody. */
  lemma {:induction false} InOrderBackendServesIffInStep(attempts: seq<Attempt>, replies: seq<Line>, i: nat)
    requires DistinctIds(attempts) && AllExpectReplies(attempts) && InOrder(OnTheWire(Written(attempts)), replies)
    requires i < |attempts| && attempts[i].end.Read?
    ensures WrittenBefore(attempts, i) < |replies| && Answers(attempts, replies[WrittenBefore(attempts, i)], i)
    ensures var own := replies[WrittenBefore(attempts, i)].fields["id" := attempts[i].call.payload["id"]];
            Outcome(attempts, replies, i)
            == if InStep(attempts, i) then Ok(own)
               else if LinesRead(attempts, i) < |replies| then Err(IdMismatch)
               else Err(ClosedWithoutResponse)
  {
    InOrderReplyAnswersItsWriter(attempts, replies, i);
    if !InStep(attempts, i) && LinesRead(attempts, i) < |replies| {
      var j := WriterOf(attempts, LinesRead(attempts, i));
      InOrderReplyAnswersItsWriter(attempts, replies, j);
    }
  }

  /** So it serves every session as long as no read raised. */
  lemma {:induction false} InOrderBackendServesAll(attempts: seq<Attempt>, replies: seq<Line>, i: nat)
    requires AllExpectReplies(attempts) && InOrder(OnTheWire(Written(attempts)), replies)
    requires i < |attempts| && attempts[i].end.Read? && forall k :: 0 <= k < i ==> !attempts[k].end.ReadRaised?
    ensures LinesRead(attempts, i) < |replies| && Answers(attempts, replies[LinesRead(attempts, i)], i)
    ensures var reply := replies[LinesRead(attempts, i)].fields;
            Outcome(attempts, replies, i) == Ok(reply["id" := attempts[i].call.payload["id"]])
  {
    InStepUnlessReadsRaised(attempts, i);
    InOrderReplyAnswersItsWriter(attempts, replies, i);
  }

  /** One stray line, printed after `k` replies, is handed to the attempt that reads it in place of its
      own reply, and every later attempt on this process fails, however well the backend answers. */
  lemma {:induction false} StrayLineFailsTheRest(attempts: seq<Attempt>, replies: seq<Line>, stray: Line, k: nat, i: nat)
    requires DistinctIds(attempts) && AllExpectReplies(attempts) && InOrder(OnTheWire(Written(attempts)), replies)
    requires k <= |replies| && i < |attempts| && attempts[i].end.Read? && InStep(attempts, i)
    ensures LinesRead(attempts, i) < |replies| && replies[LinesRead(attempts, i)].Message?
    ensures var position := LinesRead(attempts, i);
            Outcome(attempts, replies[..k] + [stray] + replies[k..], i)
            == if position < k then Ok(replies[position].fields["id" := attempts[i].call.payload["id"]])
               else if position == k then Interpret(attempts[i].call, stray)
               else Err(IdMismatch)
  {
    var position := LinesRead(attempts, i);
    InOrderReplyAnswersItsWriter(attempts, replies, i);
    if position > k {
      WrittenWhere(attempts, i);
      var j := WriterOf(attempts, position - 1);
      InOrderReplyAnswersItsWriter(attempts, replies, j);
      assert (replies[..k] + [stray] + replies[k..])[position] == replies[position - 1];
      assert Answers(attempts, replies[position - 1], j);
    }
  }

  // ----- The process -----

  /** A line written to the process; whether it wants a reply is the writer's business, not the wire's. */
  datatype Sent = Asked(payload: Payload) | Noticed(payload: Payload)

  /** The requests among the lines written. */
  function Requests(stdin: seq<Sent>): seq<Payload> {
    if stdin == [] then []
    else
      var before := Requests(stdin[..|stdin| - 1]);
      var last := stdin[|stdin| - 1];
      if last.Asked? then before + [last.payload] else before
  }

  lemma OneMoreSent(stdin: seq<Sent>, sent: Sent)
    ensures Requests(stdin + [sent]) == if sent.Asked? then Requests(stdin) + [sent.payload] else Requests(stdin)
  {
    assert (stdin + [sent])[..|stdin|] == stdin;
  }

  lemma OneMoreWritten(attempts: seq<Attempt>, next: Attempt)
    ensures OnTheWire(Written(attempts + [next]))
         == if next.end.Unwritten? then OnTheWire(Written(attempts)) else OnTheWire(Written(attempts)) + [RewriteRequestId(next.call).0]
  {
    assert (attempts + [next])[..|attempts|] == attempts;
  }

  lemma OneMoreOutcome(attempts: seq<Attempt>, next: Attempt, output: seq<Line>)
    ensures var position := LinesRead(attempts, |attempts|);
            && LinesRead(attempts + [next], |attempts| + 1) == position + Used(next.end)
            && Outcome(attempts + [next], output, |attempts|)
               == if next.end.Read? then Interpret(next.call, LineAt(output, position)) else Err(next.end.error)
  {
    Earlier(attempts, next, |attempts|);
  }

  /** How the pipes of the process behave in one request: reading may fail as an operating-system error or
      on bytes that are not UTF-8, and lose what was buffered. */
  datatype Pipe = Works | WriteBreaks | ReadBreaks(decodeError: bool, lost: nat)

  function EndOf(exited: bool, pipe: Pipe): End {
    if exited then Unwritten(NotRunning)
    else
      match pipe
      case Works => Read
      case WriteBreaks => Unwritten(TransportFailed)
      case ReadBreaks(decodeError, lost) => ReadRaised(if decodeError then Undecodable else TransportFailed, lost)
  }

  class StdioBackendProcess {
    const output: seq<Line>  // everything the process will ever print
    var position: nat
    var exited: bool
    var stdin: seq<Sent>
    ghost var attempts: seq<Attempt>

    ghost predicate Valid()
      reads this
    {
      position == LinesRead(attempts, |attempts|) && Requests(stdin) == OnTheWire(Written(attempts))
    }

    constructor (output: seq<Line>)
      ensures Valid() && this.output == output && attempts == [] && stdin == []
    {
      this.output := output;
      position := 0;
      exited := false;
      stdin := [];
      attempts := [];
    }

    /** One request of the process: write the payload, read one line. */
    method Exchange(payload: Payload, pipe: Pipe) returns (line: Result<Line, ProxyError>)
      modifies this`position, this`stdin
      ensures position == old(position) + Used(EndOf(exited, pipe))
      ensures stdin == if EndOf(exited, pipe).Unwritten? then old(stdin) else old(stdin) + [Asked(payload)]
      ensures line == if EndOf(exited, pipe).Read? then Ok(LineAt(output, old(position))) else Err(EndOf(exited, pipe).error)
    {
      if exited {
        return Err(NotRunning);
      }
      if pipe == WriteBreaks {
        return Err(TransportFailed);
      }
      stdin := stdin + [Asked(payload)];
      if pipe.ReadBreaks? {
        position := position + pipe.lost;
        return Err(if pipe.decodeError then Undecodable else TransportFailed);
      }
      line := Ok(LineAt(output, position));
      position := position + 1;
    }

    /** Forwards one request: rewrite its id, exchange it for a line, restore the id. */
    method Forward(call: Call, pipe: Pipe) returns (reply: Result<Payload, ProxyError>)
      requires Valid()
      modifies this`position, this`stdin, this`attempts
      ensures Valid()
      ensures attempts == old(attempts) + [Attempt(call, EndOf(exited, pipe))]
      ensures reply == Outcome(attempts, output, |attempts| - 1)
      ensures exited ==> reply == Err(NotRunning)
      ensures !exited && pipe == WriteBreaks ==> reply == Err(TransportFailed)
      ensures !exited && pipe.ReadBreaks? ==>
                reply == Err(if pipe.decodeError then Undecodable else TransportFailed) && position == old(position) + pipe.lost
      ensures !exited && pipe == Works ==> position == old(position) + 1
      ensures if exited || pipe == WriteBreaks then stdin == old(stdin)
              else |stdin| == |old(stdin)| + 1 && stdin[..|old(stdin)|] == old(stdin)
                   && stdin[|old(stdin)|].Asked? && Carries(stdin[|old(stdin)|].payload, call)
    {
      var (payload, rewrite) := RewriteRequestId(call);
      RewriteCarries(call);
      OneMoreOutcome(attempts, Attempt(call, EndOf(exited, pipe)), output);
      OneMoreWritten(attempts, Attempt(call, EndOf(exited, pipe)));
      OneMoreSent(stdin, Asked(payload));
      attempts := attempts + [Attempt(call, EndOf(exited, pipe))];
      var line := Exchange(payload, pipe);
      if line.Err? {
        return Err(line.error);
      }
      match line.value {
        case Eof => reply := Err(ClosedWithoutResponse);
        case NotJson => reply := Err(InvalidJson);
        case NotAnObject => reply := Err(NonObjectResponse);
        case Message(response) => reply := RestoreResponseId(response, rewrite);
      }
    }

    /** The daemon ends the process; it may also end by itself. */
    method Close()
      requires Valid()
      modifies this`exited
      ensures Valid() && exited
    {
      exited := true;
    }

    /** A notification is written as it is, and reads nothing. */
    method Notify(payload: Payload, pipeBroken: bool) returns (sent: bool)
      requires Valid()
      modifies this`stdin
      ensures Valid()
      ensures sent == (!exited && !pipeBroken)
      ensures stdin == old(stdin) + (if sent then [Noticed(payload)] else [])
    {
      sent := !exited && !pipeBroken;
      if sent {
        OneMoreSent(stdin, Noticed(payload));
        stdin := stdin + [Noticed(payload)];
      }
    }
  }

  lemma {:induction false} Earlier(attempts: seq<Attempt>, next: Attempt, n: nat)
    requires n <= |attempts|
    ensures LinesRead(attempts + [next], n) == LinesRead(attempts, n)
  {
    if n > 0 {
      Earlier(attempts, next, n - 1);
    }
  }
}
