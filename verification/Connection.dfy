/** The controller's machine and a worker at the two ends of a byte stream. */
module Connection {
  import opened Wrappers
  import opened Framing
  import opened Outgoing
  import opened Template
  import opened Protocol
  import opened Serving

  /**
   * `down` and `up` are the bytes in flight to and from the worker, `serving`
   * the request it works on and `served` all requests it has answered.
   */
  datatype Link = Link(w: WorkerState, down: Bytes, up: Bytes, serving: Option<Request>, served: seq<Request>)

  datatype Event = Flush(count: nat) | Arrive(count: nat, disk: Disk) | Take | Reply(host: Host)
    | Assign(frame: int, disk: Disk)

  /** TooLong is a message beyond what the message library can encode. */
  datatype Status = Up(link: Link) | ControllerExits(reason: Exit) | WorkerExits | Lost | TooLong

  function Encodable(l: Link): Status {
    if |l.w.unsent| > HEADER_SIZE + MAX_MESSAGE_SIZE then TooLong else Up(l)
  }

  function FlushStep(l: Link, count: nat): Link {
    var n := Min(count, |l.w.unsent|);
    l.(w := l.w.(unsent := l.w.unsent[n..]), down := l.down + l.w.unsent[..n])
  }

  /** The controller receives from what is in flight; without any it is not polled. */
  function ArriveStep(codec: Codec, l: Link, count: nat, disk: Disk): Status {
    var offered := l.up[..Min(count, |l.up|)];
    if offered == [] then Up(l)
    else match ReceiveOn(codec, l.w, Offered(offered), disk)
      case Ok(w) => Encodable(l.(w := w, up := l.up[Min(|offered|, Want(l.w.progress))..]))
      case SocketFailure(_) => Lost
      case Exited(reason) => ControllerExits(reason)
  }

  function TakeStep(codec: Codec, l: Link): Status {
    if l.serving.Some? then Up(l)
    else match ReceiveMessage(codec, l.down)
      case Waiting => Up(l)
      case Got(q, size) => Up(l.(serving := Some(q), down := l.down[size..]))
      case _ => WorkerExits
  }

  function ReplyStep(codec: Codec, l: Link, host: Host): Status {
    match l.serving
    case None => Up(l)
    case Some(q) =>
      var payload := codec.encodeResponse(Handle(q, host));
      if |payload| > MAX_MESSAGE_SIZE then TooLong
      else Up(l.(serving := None, served := l.served + [q], up := l.up + Frame(payload)))
  }

  function AssignStep(ps: Parameters, codec: Codec, l: Link, frame: int, disk: Disk): Status {
    if l.w.phase.Awaiting? then Up(l)
    else match RunFrame(ps, codec, l.w, frame, disk)
      case Ok(w) => Encodable(l.(w := w))
      case SocketFailure(_) => Lost
      case Exited(reason) => ControllerExits(reason)
  }

  function Step(ps: Parameters, codec: Codec, l: Link, e: Event): Status {
    match e
    case Flush(count) => Up(FlushStep(l, count))
    case Arrive(count, disk) => ArriveStep(codec, l, count, disk)
    case Take => TakeStep(codec, l)
    case Reply(host) => ReplyStep(codec, l, host)
    case Assign(frame, disk) => AssignStep(ps, codec, l, frame, disk)
  }

  /** A new connection, with the index of the proxy it goes to, or -1. */
  function Open(ps: Parameters, codec: Codec, index: int): Link {
    Link(StartWorker(ps, codec, index), [], [], None, [])
  }

  function Run(ps: Parameters, codec: Codec, l: Link, events: seq<Event>): Status
    decreases |events|
  {
    if events == [] then Up(l)
    else match Step(ps, codec, l, events[0])
      case Up(next) => Run(ps, codec, next, events[1..])
      case other => other
  }

  // The invariant.

  /** The request is the one the action stands for. */
  predicate Asks(q: Request, action: Action) {
    match action
    case Hello => q == WelcomeRequest
    case PutFile(_, destination) => q.CopyInRequest? && q.pathname == destination
    case RunProgram(executable, arguments) => q == ExecuteRequest(executable, arguments)
    case FetchFile(source, _) => q == CopyOutRequest(source)
  }

  /** What a request brings along for the worker to write. */
  function ContentOf(q: Request): Bytes {
    if q.CopyInRequest? then q.content else []
  }

  /** What has to be so on both machines for the answer to an action to be accepted. */
  predicate Possible(action: Action, content: Bytes, host: Host, disk: Disk) {
    match action
    case Hello => true
    case PutFile(_, destination) =>
      && IsPathnameLocal(destination) && host.write(destination, content)
      && host.stat(destination) != StatFails && host.stat(destination) != Regular(true)
    case RunProgram(executable, arguments) =>
      && IsPathnameLocal(executable)
      && (match host.run(executable, arguments) case ExitedWith(code) => code % 0x100 == 0 case KilledBy(_) => true)
    case FetchFile(source, destination) =>
      IsPathnameLocal(source) && host.read(source).Some? && disk.writable(destination)
  }

  /**
   * The controller accepts the worker's answer exactly if the file is local,
   * no executable is overwritten and what was sent can be written, the low byte
   * of the exit code is zero or the program was killed, or the file can be read
   * and written; a file written is the one read.
   */
  lemma AcceptedExactly(action: Action, q: Request, host: Host, disk: Disk)
    requires Asks(q, action)
    ensures Refusal(action, Handle(q, host), disk) == None <==> Possible(action, ContentOf(q), host, disk)
    ensures action.FetchFile? && Possible(action, ContentOf(q), host, disk) ==>
      FileOf(Exchange(action, Handle(q, host))) == [File(action.destination, host.read(action.source).value)]
  {
    hide HasDotDot;
  }

  predicate AllAsk(requests: seq<Request>, actions: seq<Action>) {
    |requests| == |actions| && forall k :: 0 <= k < |requests| ==> Asks(requests[k], actions[k])
  }

  predicate Silent(l: Link) {
    l.w.unsent == [] && l.down == [] && l.up == [] && l.serving == None && l.w.progress == []
  }

  /** The request is on its way, part of it perhaps not sent yet. */
  predicate Requesting(codec: Codec, l: Link, q: Request) {
    && l.down + l.w.unsent == Frame(codec.encodeRequest(q)) && |codec.encodeRequest(q)| <= MAX_MESSAGE_SIZE
    && l.up == [] && l.serving == None && l.w.progress == []
  }

  predicate Working(l: Link, q: Request) {
    l.serving == Some(q) && l.w.unsent == [] && l.down == [] && l.up == [] && l.w.progress == []
  }

  /** The response is on its way, part of it perhaps received. */
  predicate Replying(codec: Codec, l: Link, r: Response) {
    && l.w.progress + l.up == Frame(codec.encodeResponse(r)) && |codec.encodeResponse(r)| <= MAX_MESSAGE_SIZE
    && l.up != []
    && l.w.unsent == [] && l.down == [] && l.serving == None
  }

  /** At most one request is outstanding, and it is in exactly one place. */
  ghost predicate OneOutstanding(codec: Codec, l: Link) {
    match l.w.phase
    case Idle => Silent(l) && AllAsk(l.served, Actions(l.w.done))
    case Awaiting(pending, _) =>
      || (AllAsk(l.served, Actions(l.w.done))
          && ((exists q :: Asks(q, pending) && Requesting(codec, l, q))
              || (exists q :: Asks(q, pending) && Working(l, q))))
      || (AllAsk(l.served, Actions(l.w.done) + [pending])
          && exists r: Response :: r.requestType == pending.Type() && Replying(codec, l, r))
  }

  ghost predicate LinkInv(ps: Parameters, codec: Codec, l: Link) {
    WorkerInv(ps, l.w) && OneOutstanding(codec, l)
  }

  /** The exits that only a broken peer or machine could cause. */
  predicate ProtocolExit(reason: Exit) {
    reason in {Undecodable, WrongType, DispatchedIdle, BusyWorker}
  }

  predicate Orderly(s: Status) {
    match s
    case Up(_) => true
    case TooLong => true
    case ControllerExits(reason) => !ProtocolExit(reason)
    case _ => false
  }

  lemma RequestAsks(action: Action, disk: Disk)
    ensures RequestFor(action, disk).Some? ==> Asks(RequestFor(action, disk).value, action)
  {
  }

  lemma IssuedIsOutstanding(codec: Codec, l: Link, w: WorkerState, rest: seq<Action>, disk: Disk)
    requires l.w.unsent == [] && l.down == [] && l.up == [] && l.serving == None
    requires AllAsk(l.served, Actions(w.done)) && w.unsent == [] && w.progress == []
    ensures match Issue(codec, w, rest, disk)
      case Ok(next) => Encodable(l.(w := next)).Up? ==> OneOutstanding(codec, l.(w := next))
      case Exited(reason) => reason == UnreadableFile
      case SocketFailure(_) => false
  {
    hide Asks, Frame;
    if rest != [] {
      RequestAsks(rest[0], disk);
      if RequestFor(rest[0], disk).Some? {
        var q := RequestFor(rest[0], disk).value;
        var next := l.(w := Issue(codec, w, rest, disk).value);
        assert [] + Frame(codec.encodeRequest(q)) == Frame(codec.encodeRequest(q));
        assert |next.w.unsent| == HEADER_SIZE + |codec.encodeRequest(q)| by { FrameSize(codec.encodeRequest(q)); }
        assert Encodable(next).Up? ==> Requesting(codec, next, q);
      }
    }
  }

  lemma FrameSize(payload: Bytes)
    ensures |Frame(payload)| == HEADER_SIZE + |payload|
  {
  }

  lemma FlushKeeps(ps: Parameters, codec: Codec, l: Link, count: nat)
    requires LinkInv(ps, codec, l)
    ensures LinkInv(ps, codec, FlushStep(l, count))
  {
    hide Asks, Frame, WorkerInv, AllAsk;
    SendKeeps(ps, l.w, Accepted(count));
    var n := Min(count, |l.w.unsent|);
    var next := FlushStep(l, count);
    assert next.down + next.w.unsent == l.down + l.w.unsent by {
      assert l.w.unsent == l.w.unsent[..n] + l.w.unsent[n..];
    }
    if l.w.unsent == [] {
      assert next == l;
    } else {
      var q :| Asks(q, l.w.phase.pending) && Requesting(codec, l, q);
      assert Requesting(codec, next, q);
    }
  }

  lemma WholeFrame(codec: Codec, q: Request, wire: Bytes)
    requires Faithful(codec) && wire == Frame(codec.encodeRequest(q))
    requires 0 < |codec.encodeRequest(q)| <= MAX_MESSAGE_SIZE
    ensures ReceiveMessage(codec, wire) == Got(q, |wire|)
  {
    PrefixWants(wire, [], codec.encodeRequest(q));
    assert wire + [] == wire;
    HeaderRoundTrip(|codec.encodeRequest(q)|);
  }

  lemma PartOfFrame(codec: Codec, q: Request, wire: Bytes, rest: Bytes)
    requires |codec.encodeRequest(q)| <= MAX_MESSAGE_SIZE && wire + rest == Frame(codec.encodeRequest(q)) && rest != []
    ensures ReceiveMessage(codec, wire) == Waiting
  {
    PrefixWants(wire, rest, codec.encodeRequest(q));
  }

  lemma TakeKeeps(ps: Parameters, codec: Codec, l: Link)
    requires LinkInv(ps, codec, l) && Faithful(codec)
    ensures TakeStep(codec, l).Up? && LinkInv(ps, codec, TakeStep(codec, l).link)
  {
    hide Asks, OnScript, AllAsk, ReceiveMessage, Frame;
    if l.serving == None {
      if l.w.phase.Awaiting? && exists q :: Asks(q, l.w.phase.pending) && Requesting(codec, l, q) {
        var q :| Asks(q, l.w.phase.pending) && Requesting(codec, l, q);
        if l.w.unsent != [] {
          PartOfFrame(codec, q, l.down, l.w.unsent);
        } else {
          assert l.down + [] == l.down;
          WholeFrame(codec, q, l.down);
          var next := TakeStep(codec, l).link;
          assert Working(next, q);
        }
      } else {
        EmptyWaits(codec);
      }
    }
  }

  lemma ReplyKeeps(ps: Parameters, codec: Codec, l: Link, host: Host)
    requires LinkInv(ps, codec, l)
    ensures match ReplyStep(codec, l, host)
      case Up(next) => LinkInv(ps, codec, next)
      case other => other.TooLong?
  {
    hide OnScript, Handle;
    if l.serving.Some? && ReplyStep(codec, l, host).Up? {
      var q := l.serving.value;
      var r := Handle(q, host);
      var next := ReplyStep(codec, l, host).link;
      assert Working(l, q) && Asks(q, l.w.phase.pending);
      assert r.requestType == l.w.phase.pending.Type();
      assert [] + Frame(codec.encodeResponse(r)) == Frame(codec.encodeResponse(r));
      assert [] + [] + Frame(codec.encodeResponse(r)) == Frame(codec.encodeResponse(r));
      assert Replying(codec, next, r);
    }
  }

  lemma AssignKeeps(ps: Parameters, codec: Codec, l: Link, frame: int, disk: Disk)
    requires LinkInv(ps, codec, l)
    ensures match AssignStep(ps, codec, l, frame, disk)
      case Up(next) => LinkInv(ps, codec, next)
      case ControllerExits(reason) => reason == UnreadableFile
      case other => other.TooLong?
  {
    hide WorkerInv, AllAsk, FrameScript;
    if l.w.phase.Idle? {
      RunFrameKeeps(ps, codec, l.w, frame, disk);
      IssuedIsOutstanding(codec, l, l.w.(frame := frame, given := l.w.given + [frame]), FrameScript(ps, frame), disk);
    }
  }

  /** A complete response is the one awaited. */
  lemma DispatchKeepsOrder(ps: Parameters, codec: Codec, l: Link, w: WorkerState, r: Response, disk: Disk)
    requires Complete(w.progress) && w.phase.Awaiting? && w.unsent == []
    requires l.w.unsent == [] && l.down == [] && l.serving == None
    requires codec.decodeResponse(Payload(w.progress)) == Some(r) && r.requestType == w.phase.pending.Type()
    requires AllAsk(l.served, Actions(w.done) + [w.phase.pending])
    ensures match Dispatch(codec, w, disk)
      case Ok(next) => Encodable(l.(w := next, up := [])).Up? ==> OneOutstanding(codec, l.(w := next, up := []))
      case Exited(reason) => !ProtocolExit(reason)
      case SocketFailure(_) => false
  {
    hide AllAsk, Asks, Frame, Complete, Payload;
    var a := Answered(w, Exchange(w.phase.pending, r));
    assert Actions(a.done) == Actions(w.done) + [w.phase.pending];
    IssuedIsOutstanding(codec, l.(up := []), a, w.phase.rest, disk);
  }

  lemma ArriveKeeps(ps: Parameters, codec: Codec, l: Link, count: nat, disk: Disk)
    requires LinkInv(ps, codec, l) && Faithful(codec)
    ensures Orderly(ArriveStep(codec, l, count, disk))
    ensures ArriveStep(codec, l, count, disk).Up? ==> LinkInv(ps, codec, ArriveStep(codec, l, count, disk).link)
  {
    hide OnScript, AllAsk, Asks, Frame, Dispatch;
    var offered := l.up[..Min(count, |l.up|)];
    if offered != [] {
      var pending := l.w.phase.pending;
      var r: Response :| r.requestType == pending.Type() && Replying(codec, l, r);
      var payload := codec.encodeResponse(r);
      ReceivePart(l.w.progress, l.up, payload, offered);
      var n := Min(|offered|, Want(l.w.progress));
      var next := l.w.progress + offered[..n];
      ReceiveKeeps(ps, codec, l.w, Offered(offered), disk);
      if Receive(l.w.progress, Offered(offered)).Progressed? {
        PrefixWants(next, l.up[n..], payload);
        if Complete(next) {
          assert Payload(next) == payload;
          DispatchKeepsOrder(ps, codec, l, l.w.(progress := next), r, disk);
        } else {
          assert Replying(codec, ArriveStep(codec, l, count, disk).link, r);
        }
      }
    }
  }

  lemma StepKeeps(ps: Parameters, codec: Codec, l: Link, e: Event)
    requires LinkInv(ps, codec, l) && Faithful(codec)
    ensures Orderly(Step(ps, codec, l, e))
    ensures Step(ps, codec, l, e).Up? ==> LinkInv(ps, codec, Step(ps, codec, l, e).link)
  {
    hide LinkInv, FlushStep, ArriveStep, TakeStep, ReplyStep, AssignStep;
    match e
    case Flush(count) => FlushKeeps(ps, codec, l, count);
    case Arrive(count, disk) => ArriveKeeps(ps, codec, l, count, disk);
    case Take => TakeKeeps(ps, codec, l);
    case Reply(host) => ReplyKeeps(ps, codec, l, host);
    case Assign(frame, disk) => AssignKeeps(ps, codec, l, frame, disk);
  }

  lemma OpenInv(ps: Parameters, codec: Codec, index: int)
    requires Faithful(codec)
    ensures LinkInv(ps, codec, Open(ps, codec, index))
  {
    var l := Open(ps, codec, index);
    StartKeeps(ps, codec, index);
    assert [] + l.w.unsent == l.w.unsent;
    assert Requesting(codec, l, WelcomeRequest);
    assert AllAsk([], Actions([]));
  }

  lemma {:induction false} RunKeeps(ps: Parameters, codec: Codec, l: Link, events: seq<Event>)
    requires LinkInv(ps, codec, l) && Faithful(codec)
    ensures Orderly(Run(ps, codec, l, events))
    ensures Run(ps, codec, l, events).Up? ==> LinkInv(ps, codec, Run(ps, codec, l, events).link)
    decreases |events|
  {
    hide LinkInv, Step;
    if events != [] {
      StepKeeps(ps, codec, l, events[0]);
      if Step(ps, codec, l, events[0]).Up? {
        RunKeeps(ps, codec, Step(ps, codec, l, events[0]).link, events[1..]);
      }
    }
  }

  // What follows for every run.

  /**
   * In no run of the two ends together does a message fail to decode, come
   * with the wrong type, reach an idle worker or get lost; the worker never
   * gives up either. What ends a run is a file, a program or a size.
   */
  lemma ProtocolSafety(ps: Parameters, codec: Codec, index: int, events: seq<Event>)
    requires Faithful(codec)
    ensures Orderly(Run(ps, codec, Open(ps, codec, index), events))
  {
    hide LinkInv, Run, Open;
    OpenInv(ps, codec, index);
    RunKeeps(ps, codec, Open(ps, codec, index), events);
  }

  /**
   * The worker has answered a prefix of the script of the frames given to it,
   * in order, and is at most one request ahead of what the controller has seen.
   */
  lemma ServedOnScript(ps: Parameters, codec: Codec, index: int, events: seq<Event>)
    requires Faithful(codec) && Run(ps, codec, Open(ps, codec, index), events).Up?
    ensures var l := Run(ps, codec, Open(ps, codec, index), events).link;
      && |l.w.done| <= |l.served| <= |l.w.done| + 1 && |l.served| <= |Script(ps, l.w.given)|
      && AllAsk(l.served, Script(ps, l.w.given)[..|l.served|])
      && (l.w.phase.Idle? ==> |l.served| == |Script(ps, l.w.given)|)
  {
    OpenInv(ps, codec, index);
    RunKeeps(ps, codec, Open(ps, codec, index), events);
    ServedPrefix(ps, codec, Run(ps, codec, Open(ps, codec, index), events).link);
  }

  lemma ServedPrefix(ps: Parameters, codec: Codec, l: Link)
    requires LinkInv(ps, codec, l)
    ensures |l.w.done| <= |l.served| <= |l.w.done| + 1 && |l.served| <= |Script(ps, l.w.given)|
    ensures AllAsk(l.served, Script(ps, l.w.given)[..|l.served|])
    ensures l.w.phase.Idle? ==> |l.served| == |Script(ps, l.w.given)|
  {
    hide Asks, Script, Requesting, Working, Replying;
    var script := Script(ps, l.w.given);
    assert script[..|l.w.done|] == Actions(l.w.done);
    if l.w.phase.Awaiting? {
      assert script[..|l.w.done| + 1] == Actions(l.w.done) + [l.w.phase.pending];
    }
  }

  /** The event makes the controller put a request into its outgoing buffer. */
  predicate Issues(l: Link, e: Event, next: Link) {
    match e
    case Arrive(_, _) => |next.w.done| > |l.w.done| && next.w.phase.Awaiting?
    case Assign(_, _) => l.w.phase.Idle?
    case _ => false
  }

  /** The outgoing buffer is overwritten only when all of it has been sent. */
  lemma NoOverwrite(ps: Parameters, codec: Codec, index: int, events: seq<Event>, e: Event)
    requires Faithful(codec) && Run(ps, codec, Open(ps, codec, index), events).Up?
    requires var l := Run(ps, codec, Open(ps, codec, index), events).link;
      Step(ps, codec, l, e).Up? && Issues(l, e, Step(ps, codec, l, e).link)
    ensures Run(ps, codec, Open(ps, codec, index), events).link.w.unsent == []
  {
    hide Run, Open, WorkerInv, AllAsk, Asks, Frame, ReceiveOn, RunFrame;
    OpenInv(ps, codec, index);
    RunKeeps(ps, codec, Open(ps, codec, index), events);
  }

  // No link gets stuck.

  /** Where the outstanding request is: being sent, in flight, being worked on, or answered. */
  function Stage(l: Link): nat {
    if l.w.unsent != [] then 3 else if l.down != [] then 2 else if l.serving.Some? then 1 else 0
  }

  /** The response has been received, or is closer to being so. */
  predicate Nearer(l: Link, next: Link) {
    || |next.w.done| > |l.w.done|
    || Stage(next) < Stage(l)
    || (Stage(next) == Stage(l) && |next.w.unsent| + |next.up| < |l.w.unsent| + |l.up|)
  }

  lemma ArrivesNearer(ps: Parameters, codec: Codec, l: Link, disk: Disk)
    requires LinkInv(ps, codec, l) && Faithful(codec) && l.w.phase.Awaiting? && Stage(l) == 0
    ensures ArriveStep(codec, l, 1, disk).Up? ==> Nearer(l, ArriveStep(codec, l, 1, disk).link)
  {
    hide OnScript, AllAsk, Asks, Frame, Dispatch;
    var r: Response :| r.requestType == l.w.phase.pending.Type() && Replying(codec, l, r);
    var offered := l.up[..1];
    ReceivePart(l.w.progress, l.up, codec.encodeResponse(r), offered);
    var next := l.w.progress + offered;
    if Complete(next) && Dispatch(codec, l.w.(progress := next), disk).Ok? {
      assert l.w.(progress := next).(progress := l.w.progress) == l.w;
      DispatchKeeps(ps, codec, l.w.(progress := next), l.w.progress, disk);
    }
  }

  lemma TakesNearer(ps: Parameters, codec: Codec, l: Link)
    requires LinkInv(ps, codec, l) && Faithful(codec) && l.w.phase.Awaiting? && Stage(l) == 2
    ensures TakeStep(codec, l).Up? && Nearer(l, TakeStep(codec, l).link)
  {
    hide OnScript, AllAsk, Asks, Frame, ReceiveMessage;
    var q :| Asks(q, l.w.phase.pending) && Requesting(codec, l, q);
    assert l.down + [] == l.down;
    WholeFrame(codec, q, l.down);
  }

  /** What is next for the outstanding request. */
  function Towards(l: Link, host: Host, disk: Disk): Event {
    match Stage(l) case 3 => Flush(1) case 2 => Take case 1 => Reply(host) case _ => Arrive(1, disk)
  }

  /** A link that awaits a response always has an event that brings it nearer, or it ends in good order. */
  lemma NeverStuck(ps: Parameters, codec: Codec, l: Link, host: Host, disk: Disk)
    requires LinkInv(ps, codec, l) && Faithful(codec) && l.w.phase.Awaiting?
    ensures var next := Step(ps, codec, l, Towards(l, host, disk));
      Orderly(next) && (next.Up? ==> Nearer(l, next.link))
  {
    hide LinkInv, ArriveStep, TakeStep, Frame;
    StepKeeps(ps, codec, l, Towards(l, host, disk));
    if Stage(l) == 2 {
      TakesNearer(ps, codec, l);
    } else if Stage(l) == 0 {
      ArrivesNearer(ps, codec, l, disk);
    }
  }

  // Pathnames on the worker.

  /** What the argument parser lets through. */
  predicate LocalParameters(ps: Parameters) {
    && (forall k :: 0 <= k < |ps.inCopies| ==> IsPathnameLocal(ps.inCopies[k].destination))
    && (forall k :: 0 <= k < |ps.outCopies| ==> IsPathnameLocal(ps.outCopies[k].source))
    && IsPathnameLocal(ps.executable)
  }

  predicate LocalAction(action: Action) {
    match action
    case Hello => true
    case PutFile(_, destination) => IsPathnameLocal(destination)
    case RunProgram(executable, _) => IsPathnameLocal(executable)
    case FetchFile(source, _) => IsPathnameLocal(source)
  }

  predicate LocalRequest(q: Request) {
    match q
    case WelcomeRequest => true
    case CopyInRequest(pathname, _) => IsPathnameLocal(pathname)
    case ExecuteRequest(executable, _) => IsPathnameLocal(executable)
    case CopyOutRequest(pathname) => IsPathnameLocal(pathname)
  }

  lemma {:induction false} CopiesAreLocal(copies: seq<FileCopy>, frame: int)
    ensures (forall k :: 0 <= k < |copies| ==> IsPathnameLocal(copies[k].destination)) ==>
      forall k :: 0 <= k < |InActions(copies, frame)| ==> LocalAction(InActions(copies, frame)[k])
    ensures (forall k :: 0 <= k < |copies| ==> IsPathnameLocal(copies[k].source)) ==>
      forall k :: 0 <= k < |OutActions(copies, frame)| ==> LocalAction(OutActions(copies, frame)[k])
  {
    hide Substitute, StringHasParameter, IsPathnameLocal;
    if copies != [] {
      CopiesAreLocal(copies[1..], frame);
      LocalitySurvives(copies[0].destination, frame);
      LocalitySurvives(copies[0].source, frame);
    }
  }

  lemma {:induction false} ScriptIsLocal(ps: Parameters, given: seq<int>, k: nat)
    requires LocalParameters(ps) && k < |Script(ps, given)|
    ensures LocalAction(Script(ps, given)[k])
  {
    hide InActions, OutActions, IsPathnameLocal, SubstituteAll;
    CopiesAreLocal(ps.inCopies, -1);
    if given != [] {
      var frame := given[|given| - 1];
      CopiesAreLocal(ps.inCopies, frame);
      CopiesAreLocal(ps.outCopies, frame);
      var n := |Script(ps, DropLast(given))|;
      if k < n {
        ScriptIsLocal(ps, DropLast(given), k);
      } else {
        assert Script(ps, given)[k] == FrameScript(ps, frame)[k - n];
      }
    }
  }

  /**
   * With parameters the parser accepts, the worker is never asked for a
   * pathname it would refuse as not local, whatever the frames.
   */
  lemma WorkerSeesLocalPaths(ps: Parameters, codec: Codec, index: int, events: seq<Event>, k: nat)
    requires Faithful(codec) && LocalParameters(ps)
    requires Run(ps, codec, Open(ps, codec, index), events).Up?
    requires k < |Run(ps, codec, Open(ps, codec, index), events).link.served|
    ensures LocalRequest(Run(ps, codec, Open(ps, codec, index), events).link.served[k])
  {
    hide Run, Open, Script, IsPathnameLocal;
    ServedOnScript(ps, codec, index, events);
    var l := Run(ps, codec, Open(ps, codec, index), events).link;
    ScriptIsLocal(ps, l.w.given, k);
    assert Asks(l.served[k], Script(ps, l.w.given)[..|l.served|][k]);
  }
}
