/** The worker's request loop, src/worker.cpp, and the blocking messages of src/util.cpp. */
module Serving {
  import opened Wrappers
  import opened Framing
  import opened Template
  import opened Protocol

  datatype FileStatus = Missing | StatFails | Regular(executable: bool)

  /** How a child process ends, as wait4 reports it. */
  datatype Ending = ExitedWith(code: int) | KilledBy(signal: int)

  /** The worker's machine at the time of a request; `run` is how the program ends. */
  datatype Host = Host(hostname: string, stat: string -> FileStatus, write: (string, Bytes) -> bool,
                       run: (string, seq<string>) -> Ending, read: string -> Option<Bytes>)

  function Plain(requestType: RequestType): Response {
    Response(requestType, "", false, 0, false, [])
  }

  /** An existing file is overwritten only if it is not executable. */
  function HandleCopyIn(pathname: string, content: Bytes, host: Host): bool {
    IsPathnameLocal(pathname)
    && match host.stat(pathname)
       case Missing => host.write(pathname, content)
       case StatFails => false
       case Regular(executable) => !executable && host.write(pathname, content)
  }

  /** WEXITSTATUS: the low byte of the exit code, and 0 for a program that a signal killed. */
  function ExitStatus(ending: Ending): int {
    match ending case ExitedWith(code) => code % 0x100 case KilledBy(_) => 0
  }

  /** -1 stands for a refused executable. */
  function HandleExecute(executable: string, arguments: seq<string>, host: Host): int {
    if IsPathnameLocal(executable) then ExitStatus(host.run(executable, arguments)) else -1
  }

  function HandleCopyOut(pathname: string, host: Host): Option<Bytes> {
    if IsPathnameLocal(pathname) then host.read(pathname) else None
  }

  function Handle(request: Request, host: Host): (r: Response)
    ensures r.requestType == request.Type()
  {
    var plain := Plain(request.Type());
    match request
    case WelcomeRequest => plain.(hostname := host.hostname)
    case CopyInRequest(pathname, content) => plain.(copiedIn := HandleCopyIn(pathname, content, host))
    case ExecuteRequest(executable, arguments) => plain.(status := HandleExecute(executable, arguments, host))
    case CopyOutRequest(pathname) =>
      match HandleCopyOut(pathname, host)
      case None => plain
      case Some(content) => plain.(copiedOut := true, content := content)
  }

  /** Closed is the end of the connection, which an empty message looks like too. */
  datatype Message = Waiting | Closed | Garbled | Got(request: Request, size: nat)

  /** receive_message on what has arrived so far. */
  function ReceiveMessage(codec: Codec, wire: Bytes): Message {
    if !Complete(wire) then Waiting
    else if Payload(wire) == [] then Closed
    else match codec.decodeRequest(Payload(wire))
      case None => Garbled
      case Some(q) => Got(q, HEADER_SIZE + SizeOf(wire))
  }

  /** The requests at the front of a byte stream, up to one that ends the loop. */
  function Requests(codec: Codec, wire: Bytes): seq<Request>
    decreases |wire|
  {
    match ReceiveMessage(codec, wire)
    case Got(q, size) => [q] + Requests(codec, wire[size..])
    case _ => []
  }

  /** How the loop ends on the bytes after the last request: an end of file is graceful where recv sees nothing else. */
  function ExitCode(codec: Codec, wire: Bytes): int
    decreases |wire|
  {
    match ReceiveMessage(codec, wire)
    case Got(_, size) => ExitCode(codec, wire[size..])
    case Waiting => if |wire| == 0 || |wire| == HEADER_SIZE then 0 else -1
    case Closed => 0
    case Garbled => -1
  }

  function Replies(codec: Codec, requests: seq<Request>, hosts: nat -> Host): Bytes {
    if requests == [] then []
    else
      var n := |requests| - 1;
      Replies(codec, requests[..n], hosts) + Frame(codec.encodeResponse(Handle(requests[n], hosts(n))))
  }

  // What the controller makes of them.

  /**
   * Read as messages with a size in front, these bytes are exactly these
   * responses, with nothing left over.
   */
  ghost predicate Reads(codec: Codec, wire: Bytes, responses: seq<Response>)
    decreases |responses|
  {
    if responses == [] then wire == []
    else
      && Complete(wire) && codec.decodeResponse(Payload(wire)) == Some(responses[0])
      && Reads(codec, wire[HEADER_SIZE + SizeOf(wire)..], responses[1..])
  }

  /** The k-th request is answered by the k-th host. */
  function Answers(requests: seq<Request>, hosts: nat -> Host): seq<Response> {
    seq(|requests|, k requires 0 <= k < |requests| => Handle(requests[k], hosts(k)))
  }

  predicate AnswersFit(codec: Codec, requests: seq<Request>, hosts: nat -> Host) {
    forall k :: 0 <= k < |requests| ==> |codec.encodeResponse(Handle(requests[k], hosts(k)))| <= MAX_MESSAGE_SIZE
  }

  lemma WholeMessage(payload: Bytes)
    requires |payload| <= MAX_MESSAGE_SIZE
    ensures var f := Frame(payload); Complete(f) && Payload(f) == payload && f[HEADER_SIZE + SizeOf(f)..] == []
  {
    var f := Frame(payload);
    assert f + [] == f;
    PrefixWants(f, [], payload);
    HeaderRoundTrip(|payload|);
    assert SizeOf(f) == SizeOf(Header(|payload|));
  }

  /** One more message behind the others is one more response. */
  lemma {:induction false} ReadsOneMore(codec: Codec, wire: Bytes, responses: seq<Response>, r: Response)
    requires Faithful(codec) && Reads(codec, wire, responses) && |codec.encodeResponse(r)| <= MAX_MESSAGE_SIZE
    ensures Reads(codec, wire + Frame(codec.encodeResponse(r)), responses + [r])
    decreases |responses|
  {
    hide Frame;
    var f := Frame(codec.encodeResponse(r));
    var more := wire + f;
    if responses == [] {
      WholeMessage(codec.encodeResponse(r));
      assert more == f && ([] + [r])[1..] == [];
      assert codec.decodeResponse(codec.encodeResponse(r)) == Some(r);
    } else {
      var n := HEADER_SIZE + SizeOf(wire);
      assert SizeOf(more) == SizeOf(wire) && Payload(more) == Payload(wire);
      assert more[n..] == wire[n..] + f && (responses + [r])[1..] == responses[1..] + [r];
      ReadsOneMore(codec, wire[n..], responses[1..], r);
    }
  }

  lemma {:induction false} RepliesAreRead(codec: Codec, requests: seq<Request>, hosts: nat -> Host)
    requires Faithful(codec) && AnswersFit(codec, requests, hosts)
    ensures Reads(codec, Replies(codec, requests, hosts), Answers(requests, hosts))
  {
    hide Frame, Handle, Faithful;
    if requests != [] {
      var n := |requests| - 1;
      RepliesAreRead(codec, requests[..n], hosts);
      var r := Handle(requests[n], hosts(n));
      ReadsOneMore(codec, Replies(codec, requests[..n], hosts), Answers(requests[..n], hosts), r);
      assert Answers(requests, hosts) == Answers(requests[..n], hosts) + [r];
    }
  }

  lemma MessageShrinks(codec: Codec, wire: Bytes)
    ensures ReceiveMessage(codec, wire).Got? ==> 0 < ReceiveMessage(codec, wire).size <= |wire|
  {
  }

  /** The first message of a stream decides what comes next. */
  lemma NextMessage(codec: Codec, wire: Bytes)
    ensures var m := ReceiveMessage(codec, wire);
      && (m.Got? ==> 0 < m.size <= |wire|)
      && Requests(codec, wire) == (if m.Got? then [m.request] + Requests(codec, wire[m.size..]) else [])
      && ExitCode(codec, wire) ==
         (if m.Got? then ExitCode(codec, wire[m.size..])
          else if m.Closed? || (m.Waiting? && (|wire| == 0 || |wire| == HEADER_SIZE)) then 0 else -1)
  {
    MessageShrinks(codec, wire);
  }

  /**
   * The loop of start_worker on a connection that closes after these bytes:
   * every request is answered in turn. The k-th request meets the k-th host.
   */
  method ServeLoop(codec: Codec, wire: Bytes, hosts: nat -> Host)
      returns (code: int, sent: Bytes, ghost served: seq<Request>)
    ensures served == Requests(codec, wire) && sent == Replies(codec, served, hosts)
    ensures code == ExitCode(codec, wire)
    ensures Faithful(codec) && AnswersFit(codec, served, hosts) ==> Reads(codec, sent, Answers(served, hosts))
  {
    hide Frame, Handle, ReceiveMessage, Requests, Replies, ExitCode, Faithful, Reads, AnswersFit, Answers;
    var left, count := wire, 0;
    sent, served := [], [];
    NothingYet(codec, wire, hosts);
    while true
      invariant |served| == count && sent == Replies(codec, served, hosts)
      invariant Requests(codec, wire) == served + Requests(codec, left)
          && ExitCode(codec, wire) == ExitCode(codec, left)
      decreases |left|
    {
      NextMessage(codec, left);
      var message := ReceiveMessage(codec, left);
      match message
      case Waiting =>
        code := if |left| == 0 || |left| == HEADER_SIZE then 0 else -1;
        break;
      case Closed =>
        code := 0;
        break;
      case Garbled =>
        code := -1;
        break;
      case Got(request, size) =>
        var response := Handle(request, hosts(count));
        sent := sent + Frame(codec.encodeResponse(response));
        OneMore(codec, served, request, hosts);
        Moved(served, request, Requests(codec, left[size..]));
        served := served + [request];
        left := left[size..];
        count := count + 1;
    }
    RepliesRead(codec, served, hosts);
  }

  lemma NothingYet(codec: Codec, wire: Bytes, hosts: nat -> Host)
    ensures Replies(codec, [], hosts) == [] && [] + Requests(codec, wire) == Requests(codec, wire)
  {
  }

  lemma OneMore(codec: Codec, served: seq<Request>, q: Request, hosts: nat -> Host)
    ensures Replies(codec, served + [q], hosts)
         == Replies(codec, served, hosts) + Frame(codec.encodeResponse(Handle(q, hosts(|served|))))
  {
    hide Frame, Handle;
    var all := served + [q];
    assert all[..|all| - 1] == served && all[|all| - 1] == q;
  }

  lemma Moved<T>(a: seq<T>, x: T, b: seq<T>)
    ensures a + ([x] + b) == (a + [x]) + b
  {
  }

  lemma RepliesRead(codec: Codec, requests: seq<Request>, hosts: nat -> Host)
    ensures Faithful(codec) && AnswersFit(codec, requests, hosts) ==>
      Reads(codec, Replies(codec, requests, hosts), Answers(requests, hosts))
  {
    hide Frame, Handle, Faithful, Reads, AnswersFit;
    if Faithful(codec) && AnswersFit(codec, requests, hosts) {
      RepliesAreRead(codec, requests, hosts);
    }
  }

  function Sent(codec: Codec, requests: seq<Request>): Bytes {
    if requests == [] then [] else Frame(codec.encodeRequest(requests[0])) + Sent(codec, requests[1..])
  }

  lemma FirstOnWire(codec: Codec, q: Request, more: Bytes)
    requires Faithful(codec) && |codec.encodeRequest(q)| <= MAX_MESSAGE_SIZE
    ensures var f := Frame(codec.encodeRequest(q));
      ReceiveMessage(codec, f + more) == Got(q, |f|) && (f + more)[|f|..] == more
  {
    var payload := codec.encodeRequest(q);
    var f := Frame(payload);
    assert f + [] == f;
    PrefixWants(f, [], payload);
    HeaderRoundTrip(|payload|);
    assert SizeOf(f + more) == SizeOf(f) == SizeOf(Header(|payload|));
    assert Payload(f + more) == payload;
  }

  /** A stream of whole requests is served to the last one, and then the worker ends in good order. */
  lemma {:induction false} ServesAll(codec: Codec, requests: seq<Request>)
    requires Faithful(codec)
    requires forall k :: 0 <= k < |requests| ==> |codec.encodeRequest(requests[k])| <= MAX_MESSAGE_SIZE
    ensures Requests(codec, Sent(codec, requests)) == requests && ExitCode(codec, Sent(codec, requests)) == 0
  {
    hide Frame, Faithful;
    if requests != [] {
      FirstOnWire(codec, requests[0], Sent(codec, requests[1..]));
      ServesAll(codec, requests[1..]);
      assert [requests[0]] + requests[1..] == requests;
    } else {
      EmptyWaits(codec);
    }
  }

  lemma EmptyWaits(codec: Codec)
    ensures ReceiveMessage(codec, []) == Waiting
  {
  }

  lemma TailEnds(codec: Codec, tail: Bytes)
    requires |tail| >= HEADER_SIZE && |tail| >= HEADER_SIZE + SizeOf(tail) ==>
      codec.decodeRequest(tail[HEADER_SIZE..HEADER_SIZE + SizeOf(tail)]) == None || SizeOf(tail) == 0
    ensures Requests(codec, tail) == [] && ExitCode(codec, tail) in {0, -1}
    ensures ExitCode(codec, tail) == 0 <==>
      |tail| == 0 || |tail| == HEADER_SIZE || (|tail| > HEADER_SIZE && SizeOf(tail) == 0)
  {
    hide SizeOf;
    NextMessage(codec, tail);
  }

  /**
   * How the loop ends behind whole requests: well if nothing follows, or a
   * size and nothing more, or a size of zero; badly within a size or a payload,
   * and on a payload that is no request.
   */
  lemma {:induction false} EndsExactly(codec: Codec, requests: seq<Request>, tail: Bytes)
    requires Faithful(codec)
    requires forall k :: 0 <= k < |requests| ==> |codec.encodeRequest(requests[k])| <= MAX_MESSAGE_SIZE
    requires |tail| >= HEADER_SIZE && |tail| >= HEADER_SIZE + SizeOf(tail) ==>
      codec.decodeRequest(tail[HEADER_SIZE..HEADER_SIZE + SizeOf(tail)]) == None || SizeOf(tail) == 0
    ensures Requests(codec, Sent(codec, requests) + tail) == requests
    ensures var code := ExitCode(codec, Sent(codec, requests) + tail);
      && code in {0, -1}
      && (code == 0 <==> |tail| == 0 || |tail| == HEADER_SIZE || (|tail| > HEADER_SIZE && SizeOf(tail) == 0))
    decreases |requests|
  {
    hide Frame, Faithful, SizeOf, ReceiveMessage, Requests, ExitCode;
    if requests == [] {
      assert [] + tail == tail;
      TailEnds(codec, tail);
    } else {
      var first := Frame(codec.encodeRequest(requests[0]));
      var more := Sent(codec, requests[1..]) + tail;
      assert Sent(codec, requests) + tail == first + more;
      FirstOnWire(codec, requests[0], more);
      NextMessage(codec, first + more);
      EndsExactly(codec, requests[1..], tail);
      assert [requests[0]] + requests[1..] == requests;
    }
  }
}
