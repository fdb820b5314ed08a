/** grpcReceiveFrom and grpcSendFrom of pkg/server/grpc.go: what they forward, for any stream and any
    backend.  Stream and backend answer from a script; past its end a call waits for ever. */
module GrpcForwarding {
  import opened Wrappers

  type Payload = string
  type Metadata = map<string, seq<string>>

  const INTERNAL := 13

  /** WrappedEOF is an error that errors.Is takes for io.EOF without being equal to it. */
  datatype Err = EOF | WrappedEOF(text: string) | Status(code: int, text: string) | Plain(text: string)

  predicate IsEOF(e: Err) {
    e.EOF? || e.WrappedEOF?
  }

  function Text(e: Err): string {
    if e.EOF? then "EOF" else e.text
  }

  function WrapGrpcError(e: Err): Err {
    if e.Status? then e else Status(INTERNAL, "Internal error: " + Text(e))
  }

  /** How a flow function ends: with an error or nil, or by waiting for ever. */
  datatype FlowResult = Ended(err: Option<Err>) | Waits

  datatype Received = Message(payload: Payload) | Fails(err: Err)

  datatype Response = Response(outgoing: Option<Metadata>, payload: Payload, err: Option<Err>)

  datatype BackendCall = Begin(incoming: Metadata) | Request(payload: Payload)

  datatype StreamCall = SetHeader(outgoing: Metadata) | SendMsg(payload: Payload)

  /** The reused frame of each flow. */
  class Frame {
    var payload: Payload

    constructor (payload: Payload)
      ensures this.payload == payload
    {
      this.payload := payload;
    }
  }

  class ServerStream {
    const inbound: seq<Received>
    const headerError: Option<Err>
    const sendError: nat -> Option<Err>
    var position: nat
    var sends: nat
    var calls: seq<StreamCall>

    constructor (inbound: seq<Received>, headerError: Option<Err>, sendError: nat -> Option<Err>)
      ensures this.inbound == inbound && this.headerError == headerError && this.sendError == sendError
      ensures position == 0 && sends == 0 && calls == []
    {
      this.inbound, this.headerError, this.sendError := inbound, headerError, sendError;
      position, sends, calls := 0, 0, [];
    }

    /** Some(None) is a message, now in the frame; Some(Some(e)) an error; None means it never returns. */
    method RecvMsg(frame: Frame) returns (r: Option<Option<Err>>)
      modifies this`position, frame
      ensures old(position) >= |inbound| ==> r == None && position == old(position)
      ensures old(position) < |inbound| ==>
                && position == old(position) + 1
                && match inbound[old(position)]
                   case Message(p) => r == Some(None) && frame.payload == p
                   case Fails(e) => r == Some(Some(e))
    {
      if position >= |inbound| {
        return None;
      }
      position := position + 1;
      match inbound[position - 1]
      case Message(p) => frame.payload := p; r := Some(None);
      case Fails(e) => r := Some(Some(e));
    }

    method SetHeader(outgoing: Metadata) returns (err: Option<Err>)
      modifies this`calls
      ensures calls == old(calls) + [StreamCall.SetHeader(outgoing)] && err == headerError
    {
      calls := calls + [StreamCall.SetHeader(outgoing)];
      err := headerError;
    }

    method SendMsg(frame: Frame) returns (err: Option<Err>)
      modifies this`calls, this`sends
      ensures calls == old(calls) + [StreamCall.SendMsg(frame.payload)]
      ensures err == sendError(old(sends)) && sends == old(sends) + 1
    {
      err := sendError(sends);
      sends := sends + 1;
      calls := calls + [StreamCall.SendMsg(frame.payload)];
    }
  }

  class MethodBackend {
    const beginError: Option<Err>
    const requestError: nat -> Option<Err>
    const responses: seq<Response>
    var calls: seq<BackendCall>
    var requests: nat
    var answered: nat

    constructor (beginError: Option<Err>, requestError: nat -> Option<Err>, responses: seq<Response>)
      ensures this.beginError == beginError && this.requestError == requestError && this.responses == responses
      ensures calls == [] && requests == 0 && answered == 0
    {
      this.beginError, this.requestError, this.responses := beginError, requestError, responses;
      calls, requests, answered := [], 0, 0;
    }

    method Begin(incoming: Metadata) returns (err: Option<Err>)
      modifies this`calls
      ensures calls == old(calls) + [BackendCall.Begin(incoming)] && err == beginError
    {
      calls := calls + [BackendCall.Begin(incoming)];
      err := beginError;
    }

    method Request(payload: Payload) returns (err: Option<Err>)
      modifies this`calls, this`requests
      ensures calls == old(calls) + [BackendCall.Request(payload)]
      ensures err == requestError(old(requests)) && requests == old(requests) + 1
    {
      calls := calls + [BackendCall.Request(payload)];
      err := requestError(requests);
      requests := requests + 1;
    }

    method Respond() returns (r: Option<Response>)
      modifies this`answered
      ensures r == if old(answered) < |responses| then Some(responses[old(answered)]) else None
      ensures answered == old(answered) + if r.Some? then 1 else 0
    {
      if answered >= |responses| {
        return None;
      }
      answered := answered + 1;
      r := Some(responses[answered - 1]);
    }
  }

  /** The first `n` messages of the stream as requests. */
  function Requests(inbound: seq<Received>, n: nat): (calls: seq<BackendCall>)
    requires AreMessages(inbound, n)
    ensures |calls| == n
    ensures forall i :: 0 <= i < n ==> calls[i] == BackendCall.Request(inbound[i].payload)
  {
    seq(n, i requires 0 <= i < n => BackendCall.Request(inbound[i].payload))
  }

  predicate AreMessages(inbound: seq<Received>, n: nat) {
    n <= |inbound| && forall i :: 0 <= i < n ==> inbound[i].Message?
  }

  /** The first `n` messages are forwarded, all but perhaps the last without an error. */
  predicate ForwardedUpTo(inbound: seq<Received>, requestError: nat -> Option<Err>, n: nat) {
    AreMessages(inbound, n) && forall i :: 0 <= i < n - 1 ==> requestError(i).None?
  }

  /** How the flow ends after forwarding `n` messages; None when it goes on. */
  function ReceiveStop(inbound: seq<Received>, requestError: nat -> Option<Err>, n: nat): Option<FlowResult>
    requires n <= |inbound|
  {
    if n > 0 && requestError(n - 1).Some? then
      var e := requestError(n - 1).value;
      Some(Ended(if IsEOF(e) then None else Some(WrapGrpcError(e))))
    else if n == |inbound| then Some(Waits)
    else
      match inbound[n]
      case Message(_) => None
      case Fails(e) => Some(Ended(if IsEOF(e) then None else Some(e)))
  }

  function Opening(incoming: Option<Metadata>): seq<BackendCall> {
    if incoming.Some? then [BackendCall.Begin(incoming.value)] else []
  }

  /** What the receive flow has done when it ends with `r`. */
  ghost predicate ReceiveEnds(stream: ServerStream, backend: MethodBackend, incoming: Option<Metadata>, r: FlowResult)
    reads backend
  {
    if incoming.Some? && backend.beginError.Some?
    then backend.calls == Opening(incoming) && r == Ended(Some(WrapGrpcError(backend.beginError.value)))
    else exists n :: ForwardedAndStopped(stream.inbound, backend.requestError, incoming, backend.calls, n, r)
  }

  predicate ForwardedAndStopped(inbound: seq<Received>, requestError: nat -> Option<Err>, incoming: Option<Metadata>,
                                calls: seq<BackendCall>, n: nat, r: FlowResult) {
    && ForwardedUpTo(inbound, requestError, n)
    && calls == Opening(incoming) + Requests(inbound, n)
    && ReceiveStop(inbound, requestError, n) == Some(r)
  }

  /** What wrapping does: a status stays as it is, any other error becomes an internal one. */
  lemma WrapMeaning(e: Err)
    ensures e.Status? ==> WrapGrpcError(e) == e
    ensures e.EOF? ==> WrapGrpcError(e) == Status(13, "Internal error: EOF")
    ensures e.WrappedEOF? || e.Plain? ==> WrapGrpcError(e) == Status(13, "Internal error: " + e.text)
  {
  }

  predicate AreRequests(calls: seq<BackendCall>) {
    forall c :: c in calls ==> c.Request?
  }

  /** Begin is called exactly if there is metadata, with that, once and before everything else. */
  predicate BeginsFirst(calls: seq<BackendCall>, incoming: Option<Metadata>) {
    match incoming
    case None => AreRequests(calls)
    case Some(metadata) => calls != [] && calls[0] == BackendCall.Begin(metadata) && AreRequests(calls[1..])
  }

  function BeginCalls(incoming: Option<Metadata>): nat {
    if incoming.Some? then 1 else 0
  }

  /** The requests are the payloads of the first messages received, in order. */
  predicate RequestsReceived(calls: seq<BackendCall>, incoming: Option<Metadata>, inbound: seq<Received>) {
    BeginCalls(incoming) <= |calls| && AreReceived(calls[BeginCalls(incoming)..], inbound)
  }

  predicate AreReceived(requests: seq<BackendCall>, inbound: seq<Received>) {
    && |requests| <= |inbound|
    && forall i :: 0 <= i < |requests| ==>
                     inbound[i].Message? && requests[i] == BackendCall.Request(inbound[i].payload)
  }

  /** The stop of the receive flow and the result it gives: an end of the stream, or one that the backend
      reports, is success; an error of the stream is returned as it is, one of the backend wrapped. */
  predicate ReceiveGives(inbound: seq<Received>, requestError: nat -> Option<Err>, n: nat, r: FlowResult)
    requires n <= |inbound|
  {
    if n > 0 && requestError(n - 1).Some? then
      match requestError(n - 1).value
      case EOF => r == Ended(None)
      case WrappedEOF(_) => r == Ended(None)
      case Status(code, text) => r == Ended(Some(Status(code, text)))
      case Plain(text) => r == Ended(Some(Status(13, "Internal error: " + text)))
    else if n == |inbound| then r == Waits
    else inbound[n].Fails? && match inbound[n].err
                              case EOF => r == Ended(None)
                              case WrappedEOF(_) => r == Ended(None)
                              case _ => r == Ended(Some(inbound[n].err))
  }

  lemma ReceiveMeaning(inbound: seq<Received>, requestError: nat -> Option<Err>, n: nat, r: FlowResult)
    requires ForwardedUpTo(inbound, requestError, n)
    ensures ReceiveStop(inbound, requestError, n) == Some(r) <==> ReceiveGives(inbound, requestError, n, r)
  {
  }

  /** The receive flow succeeds exactly when a request met an end of the stream at the backend, or all
      requests went well and the stream itself ended. */
  lemma ReceiveSucceedsIff(inbound: seq<Received>, requestError: nat -> Option<Err>, n: nat)
    requires ForwardedUpTo(inbound, requestError, n) && ReceiveStop(inbound, requestError, n).Some?
    ensures ReceiveStop(inbound, requestError, n) == Some(Ended(None)) <==>
            if n > 0 && requestError(n - 1).Some?
            then requestError(n - 1).value.EOF? || requestError(n - 1).value.WrappedEOF?
            else n < |inbound| && inbound[n].Fails? && (inbound[n].err.EOF? || inbound[n].err.WrappedEOF?)
  {
    var r := ReceiveStop(inbound, requestError, n).value;
    ReceiveMeaning(inbound, requestError, n, r);
  }

  lemma CallsMeaning(incoming: Option<Metadata>, inbound: seq<Received>, n: nat, calls: seq<BackendCall>)
    requires AreMessages(inbound, n) && calls == Opening(incoming) + Requests(inbound, n)
    ensures BeginsFirst(calls, incoming) && RequestsReceived(calls, incoming, inbound)
    ensures |calls| == n + BeginCalls(incoming)
  {
    assert calls[BeginCalls(incoming)..] == Requests(inbound, n);
  }

  lemma ReceiveEndsMeaning(stream: ServerStream, backend: MethodBackend, incoming: Option<Metadata>, r: FlowResult)
    requires ReceiveEnds(stream, backend, incoming, r)
    ensures BeginsFirst(backend.calls, incoming) && RequestsReceived(backend.calls, incoming, stream.inbound)
    ensures incoming.Some? && backend.beginError.Some? ==>
              |backend.calls| == 1 && r == Ended(Some(WrapGrpcError(backend.beginError.value)))
    ensures incoming.None? || backend.beginError.None? ==>
              ReceiveGives(stream.inbound, backend.requestError, |backend.calls| - BeginCalls(incoming), r)
  {
    if incoming.Some? && backend.beginError.Some? {
      assert Opening(incoming) + Requests(stream.inbound, 0) == Opening(incoming);
      CallsMeaning(incoming, stream.inbound, 0, backend.calls);
    } else {
      var n :| ForwardedAndStopped(stream.inbound, backend.requestError, incoming, backend.calls, n, r);
      CallsMeaning(incoming, stream.inbound, n, backend.calls);
      ReceiveMeaning(stream.inbound, backend.requestError, n, r);
    }
  }

  /** Where the receive loop is after `i` turns. */
  ghost predicate ReceiveLoop(stream: ServerStream, backend: MethodBackend, incoming: Option<Metadata>, i: nat)
    reads stream, backend
  {
    && stream.position == backend.requests == i <= |stream.inbound|
    && AreMessages(stream.inbound, i) && (forall j :: 0 <= j < i ==> backend.requestError(j).None?)
    && backend.calls == (if i == 0 then [] else Opening(incoming) + Requests(stream.inbound, i))
    && (i > 0 && incoming.Some? ==> backend.beginError.None?)
  }

  lemma RequestsOneMore(inbound: seq<Received>, opening: seq<BackendCall>, i: nat)
    requires AreMessages(inbound, i + 1)
    ensures opening + Requests(inbound, i) + [BackendCall.Request(inbound[i].payload)] ==
            opening + Requests(inbound, i + 1)
  {
  }

  /** Begin comes first and at most once; then the payloads received are requested, each once and in
      order, up to the stop. */
  method GrpcReceiveFrom(stream: ServerStream, backend: MethodBackend, incoming: Option<Metadata>)
    returns (r: FlowResult)
    requires stream.position == 0 && backend.calls == [] && backend.requests == 0
    modifies stream`position, backend`calls, backend`requests
    ensures ReceiveEnds(stream, backend, incoming, r)
    ensures BeginsFirst(backend.calls, incoming) && RequestsReceived(backend.calls, incoming, stream.inbound)
    ensures incoming.Some? && backend.beginError.Some? ==>
              |backend.calls| == 1 && r == Ended(Some(WrapGrpcError(backend.beginError.value)))
    ensures incoming.None? || backend.beginError.None? ==>
              ReceiveGives(stream.inbound, backend.requestError, |backend.calls| - BeginCalls(incoming), r)
  {
    r := ReceiveLoopTurns(stream, backend, incoming);
    ReceiveEndsMeaning(stream, backend, incoming, r);
  }

  method ReceiveLoopTurns(stream: ServerStream, backend: MethodBackend, incoming: Option<Metadata>)
    returns (r: FlowResult)
    requires stream.position == 0 && backend.calls == [] && backend.requests == 0
    modifies stream`position, backend`calls, backend`requests
    ensures ReceiveEnds(stream, backend, incoming, r)
  {
    var frame := new Frame("");
    var i := 0;
    while true
      invariant ReceiveLoop(stream, backend, incoming, i)
      decreases |stream.inbound| - i
    {
      if i == 0 && incoming.Some? {
        var beginErr := backend.Begin(incoming.value);
        if beginErr.Some? {
          return Ended(Some(WrapGrpcError(beginErr.value)));
        }
      }
      assert i == 0 ==> Opening(incoming) + Requests(stream.inbound, i) == Opening(incoming);
      var stop := ForwardOne(stream, backend, incoming, frame, i);
      if stop.Some? {
        return stop.value;
      }
      i := i + 1;
    }
  }

  /** One turn of the receive loop after Begin: Some is the end of the flow. */
  method ForwardOne(stream: ServerStream, backend: MethodBackend, incoming: Option<Metadata>, frame: Frame, i: nat)
    returns (stop: Option<FlowResult>)
    requires stream.position == backend.requests == i <= |stream.inbound|
    requires AreMessages(stream.inbound, i) && forall j :: 0 <= j < i ==> backend.requestError(j).None?
    requires backend.calls == Opening(incoming) + Requests(stream.inbound, i)
    requires incoming.Some? ==> backend.beginError.None?
    modifies stream`position, backend`calls, backend`requests, frame
    ensures stop.None? ==> ReceiveLoop(stream, backend, incoming, i + 1)
    ensures stop.Some? ==> ReceiveEnds(stream, backend, incoming, stop.value)
  {
    ghost var n := i;
    var received := stream.RecvMsg(frame);
    if received.None? {
      stop := Some(Waits);
    } else if received.value.Some? {
      var e := received.value.value;
      stop := Some(Ended(if IsEOF(e) then None else Some(e)));
    } else {
      var err := backend.Request(frame.payload);
      RequestsOneMore(stream.inbound, Opening(incoming), i);
      n := i + 1;
      stop := if err.None? then None
      else Some(Ended(if IsEOF(err.value) then None else Some(WrapGrpcError(err.value))));
    }
    assert stop.Some? ==>
        ForwardedAndStopped(stream.inbound, backend.requestError, incoming, backend.calls, n, stop.value);
  }

  /** The stop is where it is: a flow has one number of forwarded messages and one result. */
  lemma ReceiveStopsOnce(inbound: seq<Received>, requestError: nat -> Option<Err>, n: nat, m: nat)
    requires ForwardedUpTo(inbound, requestError, n) && ReceiveStop(inbound, requestError, n).Some?
    requires ForwardedUpTo(inbound, requestError, m) && ReceiveStop(inbound, requestError, m).Some?
    ensures n == m
  {
  }

  /** A stream of `n` messages that then ends is forwarded whole, when no request fails. */
  lemma WholeStreamIsForwarded(inbound: seq<Received>, requestError: nat -> Option<Err>, n: nat, m: nat)
    requires AreMessages(inbound, n) && n < |inbound| && inbound[n].Fails? && IsEOF(inbound[n].err)
    requires forall i :: 0 <= i < n ==> requestError(i).None?
    requires ForwardedUpTo(inbound, requestError, m) && ReceiveStop(inbound, requestError, m).Some?
    ensures m == n && ReceiveStop(inbound, requestError, m) == Some(Ended(None))
  {
  }

  function Sends(responses: seq<Response>, n: nat): (calls: seq<StreamCall>)
    requires n <= |responses|
    ensures |calls| == n
    ensures forall i :: 0 <= i < n ==> calls[i] == StreamCall.SendMsg(responses[i].payload)
  {
    seq(n, i requires 0 <= i < n => StreamCall.SendMsg(responses[i].payload))
  }

  /** The header of the first response, if it has one: set once, before anything is sent. */
  function Header(responses: seq<Response>): seq<StreamCall> {
    if responses != [] && responses[0].outgoing.Some? then [StreamCall.SetHeader(responses[0].outgoing.value)] else []
  }

  /** An error that ends the flow before its payload is sent: any but io.EOF itself. */
  predicate Refuses(r: Response) {
    r.err.Some? && r.err.value != EOF
  }

  /** The first `n` responses are sent; all but perhaps the last neither end the flow nor fail. */
  predicate SentUpTo(responses: seq<Response>, sendError: nat -> Option<Err>, n: nat) {
    && n <= |responses|
    && (forall i :: 0 <= i < n ==> !Refuses(responses[i]))
    && (forall i :: 0 <= i < n - 1 ==> responses[i].err.None? && sendError(i).None?)
  }

  function SendStop(responses: seq<Response>, sendError: nat -> Option<Err>, n: nat): Option<FlowResult>
    requires n <= |responses|
  {
    if n > 0 && sendError(n - 1).Some? then
      Some(Ended(Some(Status(INTERNAL, "Error sending result to server stream: " + Text(sendError(n - 1).value)))))
    else if n > 0 && responses[n - 1].err == Some(EOF) then Some(Ended(None))
    else if n == |responses| then Some(Waits)
    else if Refuses(responses[n]) then Some(Ended(Some(WrapGrpcError(responses[n].err.value))))
    else None
  }

  /** What the send flow has done when it ends with `r`. */
  ghost predicate SendEnds(stream: ServerStream, backend: MethodBackend, r: FlowResult)
    reads stream
  {
    if Header(backend.responses) != [] && stream.headerError.Some?
    then && stream.calls == Header(backend.responses)
         && r == Ended(Some(Status(INTERNAL,
                                   "Unable to set header on server stream: " + Text(stream.headerError.value))))
    else exists n :: SentAndStopped(backend.responses, stream.sendError, stream.calls, n, r)
  }

  predicate SentAndStopped(responses: seq<Response>, sendError: nat -> Option<Err>, calls: seq<StreamCall>,
                           n: nat, r: FlowResult) {
    && SentUpTo(responses, sendError, n)
    && calls == Header(responses) + Sends(responses, n)
    && SendStop(responses, sendError, n) == Some(r)
  }

  predicate AreSends(calls: seq<StreamCall>) {
    forall c :: c in calls ==> c.SendMsg?
  }

  /** The header is set exactly if the first response has one, with that, once and before everything else. */
  predicate HeaderFirst(calls: seq<StreamCall>, responses: seq<Response>) {
    if responses != [] && responses[0].outgoing.Some?
    then calls != [] && calls[0] == StreamCall.SetHeader(responses[0].outgoing.value) && AreSends(calls[1..])
    else AreSends(calls)
  }

  function HeaderFailure(e: Err): FlowResult {
    Ended(Some(Status(13, "Unable to set header on server stream: " + Text(e))))
  }

  function HeaderCalls(responses: seq<Response>): nat {
    if responses != [] && responses[0].outgoing.Some? then 1 else 0
  }

  /** What is sent is the payloads of the first responses, in order. */
  predicate SendsAnswers(calls: seq<StreamCall>, responses: seq<Response>) {
    HeaderCalls(responses) <= |calls| && AreAnswers(calls[HeaderCalls(responses)..], responses)
  }

  predicate AreAnswers(sends: seq<StreamCall>, responses: seq<Response>) {
    && |sends| <= |responses|
    && forall i :: 0 <= i < |sends| ==> sends[i] == StreamCall.SendMsg(responses[i].payload)
  }

  /** The stop of the send flow and the result it gives: a failed send is an internal error; success is the
      end of the stream sent with a payload; any other error of the backend is wrapped, its payload unsent. */
  predicate SendGives(responses: seq<Response>, sendError: nat -> Option<Err>, n: nat, r: FlowResult)
    requires n <= |responses|
  {
    if n > 0 && sendError(n - 1).Some? then
      r == Ended(Some(Status(13, "Error sending result to server stream: " + Text(sendError(n - 1).value))))
    else if n > 0 && responses[n - 1].err == Some(EOF) then r == Ended(None)
    else if n == |responses| then r == Waits
    else responses[n].err.Some? && match responses[n].err.value
                                   case EOF => false
                                   case WrappedEOF(text) => r == Ended(Some(Status(13, "Internal error: " + text)))
                                   case Status(code, text) => r == Ended(Some(Status(code, text)))
                                   case Plain(text) => r == Ended(Some(Status(13, "Internal error: " + text)))
  }

  lemma SendMeaning(responses: seq<Response>, sendError: nat -> Option<Err>, n: nat, r: FlowResult)
    requires SentUpTo(responses, sendError, n)
    ensures SendStop(responses, sendError, n) == Some(r) <==> SendGives(responses, sendError, n, r)
  {
  }

  lemma SendCallsMeaning(responses: seq<Response>, n: nat, calls: seq<StreamCall>)
    requires n <= |responses| && calls == Header(responses) + Sends(responses, n)
    ensures HeaderFirst(calls, responses) && SendsAnswers(calls, responses)
    ensures |calls| == n + HeaderCalls(responses)
  {
    assert calls[HeaderCalls(responses)..] == Sends(responses, n);
  }

  lemma SendEndsMeaning(stream: ServerStream, backend: MethodBackend, r: FlowResult)
    requires SendEnds(stream, backend, r)
    ensures HeaderFirst(stream.calls, backend.responses) && SendsAnswers(stream.calls, backend.responses)
    ensures var first := HeaderCalls(backend.responses);
            if first == 1 && stream.headerError.Some?
            then && |stream.calls| == 1
                 && r == HeaderFailure(stream.headerError.value)
            else SendGives(backend.responses, stream.sendError, |stream.calls| - first, r)
  {
    if Header(backend.responses) != [] && stream.headerError.Some? {
      assert Header(backend.responses) + Sends(backend.responses, 0) == Header(backend.responses);
      SendCallsMeaning(backend.responses, 0, stream.calls);
    } else {
      var n :| SentAndStopped(backend.responses, stream.sendError, stream.calls, n, r);
      SentMeaning(backend.responses, stream.sendError, stream.calls, n, r);
    }
  }

  lemma SentMeaning(responses: seq<Response>, sendError: nat -> Option<Err>, calls: seq<StreamCall>,
                    n: nat, r: FlowResult)
    requires SentAndStopped(responses, sendError, calls, n, r)
    ensures HeaderFirst(calls, responses) && SendsAnswers(calls, responses)
    ensures n == |calls| - HeaderCalls(responses) && SendGives(responses, sendError, n, r)
  {
    SendCallsMeaning(responses, n, calls);
    SendMeaning(responses, sendError, n, r);
  }

  /** Where the send loop is after `i` turns. */
  ghost predicate SendLoop(stream: ServerStream, backend: MethodBackend, i: nat)
    reads stream, backend
  {
    && backend.answered == stream.sends == i <= |backend.responses|
    && (forall j :: 0 <= j < i ==> backend.responses[j].err.None? && stream.sendError(j).None?)
    && stream.calls == (if i == 0 then [] else Header(backend.responses) + Sends(backend.responses, i))
    && (i > 0 && Header(backend.responses) != [] ==> stream.headerError.None?)
  }

  /** The header is set at most once and first; then the payloads of the backend's responses are sent,
      each once and in order, up to the stop, although they share one frame. */
  method GrpcSendFrom(stream: ServerStream, backend: MethodBackend) returns (r: FlowResult)
    requires stream.calls == [] && stream.sends == 0 && backend.answered == 0
    modifies stream`calls, stream`sends, backend`answered
    ensures SendEnds(stream, backend, r)
    ensures HeaderFirst(stream.calls, backend.responses) && SendsAnswers(stream.calls, backend.responses)
    ensures var first := HeaderCalls(backend.responses);
            if first == 1 && stream.headerError.Some?
            then && |stream.calls| == 1
                 && r == HeaderFailure(stream.headerError.value)
            else SendGives(backend.responses, stream.sendError, |stream.calls| - first, r)
  {
    r := SendLoopTurns(stream, backend);
    SendEndsMeaning(stream, backend, r);
  }

  method SendLoopTurns(stream: ServerStream, backend: MethodBackend) returns (r: FlowResult)
    requires stream.calls == [] && stream.sends == 0 && backend.answered == 0
    modifies stream`calls, stream`sends, backend`answered
    ensures SendEnds(stream, backend, r)
  {
    var frame := new Frame("");
    var i := 0;
    while true
      invariant SendLoop(stream, backend, i)
      decreases |backend.responses| - i
    {
      var stop := SendTurn(stream, backend, frame, i);
      if stop.Some? {
        return stop.value;
      }
      i := i + 1;
    }
  }

  /** One turn of the send loop: Some is the end of the flow. */
  method SendTurn(stream: ServerStream, backend: MethodBackend, frame: Frame, i: nat) returns (stop: Option<FlowResult>)
    requires SendLoop(stream, backend, i)
    modifies stream`calls, stream`sends, backend`answered, frame
    ensures stop.None? ==> SendLoop(stream, backend, i + 1)
    ensures stop.Some? ==> SendEnds(stream, backend, stop.value)
  {
    var response := backend.Respond();
    if response.None? {
      NoMoreResponses(stream, backend, i);
      return Some(Waits);
    }
    stop := SetFirstHeader(stream, backend, response.value.outgoing, i);
    if stop.None? {
      stop := SendOne(stream, backend, response.value, frame, i);
    }
  }

  lemma NoMoreResponses(stream: ServerStream, backend: MethodBackend, i: nat)
    requires SendLoop(stream, backend, i) && i == |backend.responses|
    ensures SendEnds(stream, backend, Waits)
  {
    assert i == 0 ==> Header(backend.responses) + Sends(backend.responses, i) == [];
    assert SentAndStopped(backend.responses, stream.sendError, stream.calls, i, Waits);
  }

  /** The header of the first response, if it has one: Some is the end of the flow. */
  method SetFirstHeader(stream: ServerStream, backend: MethodBackend, outgoing: Option<Metadata>, i: nat)
    returns (stop: Option<FlowResult>)
    requires i < |backend.responses| && outgoing == backend.responses[i].outgoing
    requires stream.calls == if i == 0 then [] else Header(backend.responses) + Sends(backend.responses, i)
    requires i > 0 && Header(backend.responses) != [] ==> stream.headerError.None?
    modifies stream`calls
    ensures stop.None? ==> && stream.calls == Header(backend.responses) + Sends(backend.responses, i)
                           && (Header(backend.responses) != [] ==> stream.headerError.None?)
    ensures stop.Some? ==> SendEnds(stream, backend, stop.value)
  {
    stop := None;
    assert i == 0 ==> Header(backend.responses) + Sends(backend.responses, i) == Header(backend.responses);
    if i == 0 && outgoing.Some? {
      var headerErr := stream.SetHeader(outgoing.value);
      if headerErr.Some? {
        stop := Some(Ended(Some(Status(INTERNAL, "Unable to set header on server stream: " + Text(headerErr.value)))));
      }
    }
  }

  /** The rest of a turn of the send loop, once a header is set: Some is the end of the flow. */
  method SendOne(stream: ServerStream, backend: MethodBackend, response: Response, frame: Frame, i: nat)
    returns (stop: Option<FlowResult>)
    requires i < |backend.responses| && response == backend.responses[i]
    requires stream.sends == i && backend.answered == i + 1
    requires forall j :: 0 <= j < i ==> backend.responses[j].err.None? && stream.sendError(j).None?
    requires stream.calls == Header(backend.responses) + Sends(backend.responses, i)
    requires Header(backend.responses) != [] ==> stream.headerError.None?
    modifies stream`calls, stream`sends, frame
    ensures stop.None? ==> SendLoop(stream, backend, i + 1)
    ensures stop.Some? ==> SendEnds(stream, backend, stop.value)
  {
    ghost var n := i;
    if response.err.Some? && response.err.value != EOF {
      stop := Some(Ended(Some(WrapGrpcError(response.err.value))));
    } else {
      frame.payload := response.payload;
      var sendErr := stream.SendMsg(frame);
      SendsOneMore(backend.responses, i);
      n := i + 1;
      stop := if sendErr.Some? then
        Some(Ended(Some(Status(INTERNAL, "Error sending result to server stream: " + Text(sendErr.value)))))
      else if response.err.Some? then Some(Ended(None)) else None;
    }
    assert stop.Some? ==> SentAndStopped(backend.responses, stream.sendError, stream.calls, n, stop.value);
  }

  lemma SendsOneMore(responses: seq<Response>, i: nat)
    requires i < |responses|
    ensures Header(responses) + Sends(responses, i) + [StreamCall.SendMsg(responses[i].payload)] ==
            Header(responses) + Sends(responses, i + 1)
  {
  }

  lemma SendStopsOnce(responses: seq<Response>, sendError: nat -> Option<Err>, n: nat, m: nat)
    requires SentUpTo(responses, sendError, n) && SendStop(responses, sendError, n).Some?
    requires SentUpTo(responses, sendError, m) && SendStop(responses, sendError, m).Some?
    ensures n == m
  {
  }

  /** The flow succeeds exactly when a response tagged io.EOF is the last one sent, all responses
      before it came without an error, and no send failed. */
  lemma SendSucceedsIff(responses: seq<Response>, sendError: nat -> Option<Err>, n: nat)
    requires SentUpTo(responses, sendError, n) && SendStop(responses, sendError, n).Some?
    ensures SendStop(responses, sendError, n) == Some(Ended(None)) <==>
            && 0 < n && responses[n - 1].err == Some(EOF)
            && forall i :: 0 <= i < n ==> sendError(i).None? && (i < n - 1 ==> responses[i].err.None?)
  {
  }
}
