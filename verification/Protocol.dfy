/**
 * The controller's side of one connection as a straight-line script: what is
 * asked of a worker, in which order, and what one event does to it.
 */
module Protocol {
  import opened Wrappers
  import opened Framing
  import opened Outgoing
  import opened Template

  // Messages of src/Drp.proto.

  datatype RequestType = WELCOME | COPY_IN | EXECUTE | COPY_OUT

  datatype Request =
    | WelcomeRequest
    | CopyInRequest(pathname: string, content: Bytes)
    | ExecuteRequest(executable: string, arguments: seq<string>)
    | CopyOutRequest(pathname: string)
  {
    function Type(): RequestType {
      match this
      case WelcomeRequest => WELCOME
      case CopyInRequest(_, _) => COPY_IN
      case ExecuteRequest(_, _) => EXECUTE
      case CopyOutRequest(_) => COPY_OUT
    }
  }

  /** All parts are optional on the wire; a part that is not for the type has its default. */
  datatype Response = Response(requestType: RequestType, hostname: string, copiedIn: bool, status: int,
                               copiedOut: bool, content: Bytes)

  /** The message library, of which only the round trip matters. */
  datatype Codec = Codec(encodeRequest: Request -> Bytes, decodeRequest: Bytes -> Option<Request>,
                         encodeResponse: Response -> Bytes, decodeResponse: Bytes -> Option<Response>)

  /** A request always has its type set, so it is never empty; a greeting holds little else. */
  ghost predicate Faithful(codec: Codec) {
    && (forall q :: codec.encodeRequest(q) != [])
    && |codec.encodeRequest(WelcomeRequest)| <= MAX_MESSAGE_SIZE
    && (forall q :: codec.decodeRequest(codec.encodeRequest(q)) == Some(q))
    && (forall r :: codec.decodeResponse(codec.encodeResponse(r)) == Some(r))
  }

  // Parameters and the script they give rise to.

  datatype FileCopy = FileCopy(source: string, destination: string) {
    predicate HasParameter() {
      StringHasParameter(source) || StringHasParameter(destination)
    }
  }

  datatype Parameters = Parameters(proxyCount: nat, inCopies: seq<FileCopy>, outCopies: seq<FileCopy>,
                                   executable: string, arguments: seq<string>)

  /** The local file system at the time of an event. */
  datatype Disk = Disk(read: string -> Option<Bytes>, writable: string -> bool)

  datatype Action =
    | Hello
    | PutFile(source: string, destination: string)
    | RunProgram(executable: string, arguments: seq<string>)
    | FetchFile(source: string, destination: string)
  {
    function Type(): RequestType {
      match this
      case Hello => WELCOME
      case PutFile(_, _) => COPY_IN
      case RunProgram(_, _) => EXECUTE
      case FetchFile(_, _) => COPY_OUT
    }
  }

  /** Copies with a parameter belong to frames, the others to the setup (frame -1). */
  predicate Selected(copy: FileCopy, frame: int) {
    (frame >= 0) == copy.HasParameter()
  }

  function PutAction(copy: FileCopy, frame: int): Action {
    PutFile(Substitute(copy.source, frame), Substitute(copy.destination, frame))
  }

  function FetchAction(copy: FileCopy, frame: int): Action {
    FetchFile(Substitute(copy.source, frame), Substitute(copy.destination, frame))
  }

  function InActions(copies: seq<FileCopy>, frame: int): seq<Action> {
    if copies == [] then []
    else (if Selected(copies[0], frame) then [PutAction(copies[0], frame)] else []) + InActions(copies[1..], frame)
  }

  function OutActions(copies: seq<FileCopy>, frame: int): seq<Action> {
    if copies == [] then []
    else (if Selected(copies[0], frame) then [FetchAction(copies[0], frame)] else []) + OutActions(copies[1..], frame)
  }

  function SubstituteAll(templates: seq<string>, frame: int): (r: seq<string>)
    ensures |r| == |templates|
    ensures forall k :: 0 <= k < |r| ==> r[k] == Substitute(templates[k], frame)
  {
    if templates == [] then []
    else SubstituteAll(templates[..|templates| - 1], frame) + [Substitute(templates[|templates| - 1], frame)]
  }

  function RunAction(ps: Parameters, frame: int): Action {
    RunProgram(ps.executable, SubstituteAll(ps.arguments, frame))
  }

  function SetupScript(ps: Parameters): (script: seq<Action>)
    ensures script != []
  {
    [Hello] + InActions(ps.inCopies, -1)
  }

  function FrameScript(ps: Parameters, frame: int): (script: seq<Action>)
    ensures script != []
  {
    InActions(ps.inCopies, frame) + [RunAction(ps, frame)] + OutActions(ps.outCopies, frame)
  }

  /** Everything asked of a worker that was assigned these frames. */
  function Script(ps: Parameters, given: seq<int>): seq<Action> {
    if given == [] then SetupScript(ps)
    else Script(ps, given[..|given| - 1]) + FrameScript(ps, given[|given| - 1])
  }

  // One worker as the controller sees it.

  datatype Phase = Idle | Awaiting(pending: Action, rest: seq<Action>)

  datatype Exchange = Exchange(action: Action, response: Response)

  datatype File = File(pathname: string, content: Bytes)

  /**
   * `files` are the files written for the connection, oldest first. `done` and
   * `given` are its history: the answered requests and the frames handed out.
   */
  datatype WorkerState = WorkerState(phase: Phase, frame: int, proxyIndex: int, unsent: Bytes, progress: Bytes,
                                     files: seq<File>, done: seq<Exchange>, given: seq<int>)

  /** Why the controller process gives up. */
  datatype Exit = Undecodable | WrongType | DispatchedIdle | CopyFailed | ProgramFailed | OversizeMessage
    | UnreadableFile | BusyWorker

  datatype Outcome<+T> = Ok(value: T) | SocketFailure(connReset: bool) | Exited(reason: Exit)

  function RequestFor(action: Action, disk: Disk): Option<Request> {
    match action
    case Hello => Some(WelcomeRequest)
    case PutFile(source, destination) =>
      (match disk.read(source) case None => None case Some(content) => Some(CopyInRequest(destination, content)))
    case RunProgram(executable, arguments) => Some(ExecuteRequest(executable, arguments))
    case FetchFile(source, _) => Some(CopyOutRequest(source))
  }

  predicate Successful(e: Exchange) {
    && e.response.requestType == e.action.Type()
    && (e.action.PutFile? ==> e.response.copiedIn)
    && (e.action.RunProgram? ==> e.response.status == 0)
    && (e.action.FetchFile? ==> e.response.copiedOut)
  }

  /** The reason to give up on a response, if any. */
  function Refusal(action: Action, response: Response, disk: Disk): Option<Exit> {
    if response.requestType != action.Type() then Some(WrongType)
    else match action
      case Hello => None
      case PutFile(_, _) => if response.copiedIn then None else Some(CopyFailed)
      case RunProgram(_, _) => if response.status == 0 then None else Some(ProgramFailed)
      case FetchFile(_, destination) =>
        if response.copiedOut && disk.writable(destination) then None else Some(CopyFailed)
  }

  /** Ask for the first of the remaining actions, or become idle. */
  function Issue(codec: Codec, w: WorkerState, rest: seq<Action>, disk: Disk): Outcome<WorkerState> {
    if rest == [] then Ok(w.(phase := Idle))
    else match RequestFor(rest[0], disk)
      case None => Exited(UnreadableFile)
      case Some(q) => Ok(w.(phase := Awaiting(rest[0], rest[1..]), unsent := Frame(codec.encodeRequest(q)),
          progress := []))
  }

  /** The file an answered request leaves on the controller's disk. */
  function FileOf(e: Exchange): seq<File> {
    if e.action.FetchFile? then [File(e.action.destination, e.response.content)] else []
  }

  function Answered(w: WorkerState, e: Exchange): WorkerState {
    w.(progress := [], files := w.files + FileOf(e), done := w.done + [e],
       proxyIndex := if e.action.Hello? then -1 else w.proxyIndex)
  }

  /** What a complete incoming message sets in motion. */
  function Dispatch(codec: Codec, w: WorkerState, disk: Disk): Outcome<WorkerState>
    requires Complete(w.progress)
  {
    match w.phase
    case Idle => Exited(DispatchedIdle)
    case Awaiting(pending, rest) =>
      match codec.decodeResponse(Payload(w.progress))
      case None => Exited(Undecodable)
      case Some(response) =>
        match Refusal(pending, response, disk)
        case Some(reason) => Exited(reason)
        case None => Issue(codec, Answered(w, Exchange(pending, response)), rest, disk)
  }

  function NewWorker(proxyIndex: int): WorkerState {
    WorkerState(Idle, -1, proxyIndex, [], [], [], [], [])
  }

  /** Greeting a worker touches no file. */
  const NO_DISK: Disk := Disk(_ => None, _ => false)

  function StartWorker(ps: Parameters, codec: Codec, proxyIndex: int): (w: WorkerState)
    ensures Issue(codec, NewWorker(proxyIndex), SetupScript(ps), NO_DISK) == Ok(w)
  {
    NewWorker(proxyIndex).(phase := Awaiting(Hello, SetupScript(ps)[1..]),
                           unsent := Frame(codec.encodeRequest(WelcomeRequest)))
  }

  function RunFrame(ps: Parameters, codec: Codec, w: WorkerState, frame: int, disk: Disk): Outcome<WorkerState> {
    if w.phase.Idle? then
      Issue(codec, w.(frame := frame, given := w.given + [frame]), FrameScript(ps, frame), disk)
    else
      Exited(BusyWorker)
  }

  function ReceiveOn(codec: Codec, w: WorkerState, io: RecvIO, disk: Disk): Outcome<WorkerState> {
    match Receive(w.progress, io)
    case RecvFailed(reset) => SocketFailure(reset)
    case Oversize => Exited(OversizeMessage)
    case Progressed(p) =>
      var next := w.(progress := p);
      if Complete(p) then Dispatch(codec, next, disk) else Ok(next)
  }

  function SendOn(w: WorkerState, io: SendIO): Outcome<WorkerState> {
    if w.unsent != [] && io.SendError? then SocketFailure(false) else Ok(w.(unsent := Sent(w.unsent, io)))
  }

  // What every event keeps.

  function Actions(done: seq<Exchange>): (actions: seq<Action>)
    ensures |actions| == |done|
  {
    seq(|done|, k requires 0 <= k < |done| => done[k].action)
  }

  /** Every fetched file, in order, under its destination and with the content received. */
  function FilesOf(done: seq<Exchange>): seq<File> {
    if done == [] then [] else FilesOf(done[..|done| - 1]) + FileOf(done[|done| - 1])
  }

  function Outstanding(phase: Phase): seq<Action> {
    match phase case Idle => [] case Awaiting(pending, rest) => [pending] + rest
  }

  function DropLast<T>(s: seq<T>): seq<T>
    requires s != []
  {
    s[..|s| - 1]
  }

  /**
   * The answered requests followed by the outstanding ones are the script of
   * the assigned frames, and all frames but the last one assigned are behind.
   */
  predicate OnScript(ps: Parameters, w: WorkerState) {
    && Actions(w.done) + Outstanding(w.phase) == Script(ps, w.given)
    && (w.given != [] ==> |Script(ps, DropLast(w.given))| <= |w.done|)
    && w.frame == (if w.given == [] then -1 else w.given[|w.given| - 1])
  }

  predicate WorkerInv(ps: Parameters, w: WorkerState) {
    && OnScript(ps, w)
    && (forall k :: 0 <= k < |w.done| ==> Successful(w.done[k]))
    && w.files == FilesOf(w.done)
    && !Complete(w.progress)
    && (w.proxyIndex != -1 ==> w.done == [])
  }

  /** Between two requests: an answered one is logged, the next one is not out yet. */
  predicate ReadyToIssue(ps: Parameters, w: WorkerState, rest: seq<Action>) {
    && Actions(w.done) + rest == Script(ps, w.given)
    && (w.given != [] ==> |Script(ps, DropLast(w.given))| <= |w.done|)
    && w.frame == (if w.given == [] then -1 else w.given[|w.given| - 1])
    && (forall k :: 0 <= k < |w.done| ==> Successful(w.done[k]))
    && w.files == FilesOf(w.done)
    && !Complete(w.progress)
    && (w.proxyIndex != -1 ==> w.done == [])
  }

  lemma IssueKeeps(ps: Parameters, codec: Codec, w: WorkerState, rest: seq<Action>, disk: Disk)
    requires ReadyToIssue(ps, w, rest)
    ensures Issue(codec, w, rest, disk).Ok? ==>
      var next := Issue(codec, w, rest, disk).value;
      && WorkerInv(ps, next) && Outstanding(next.phase) == rest
      && next.(phase := w.phase, unsent := w.unsent, progress := w.progress) == w
  {
    hide Script, FilesOf, Successful, Frame, RequestFor, Actions;
    if rest != [] {
      assert [rest[0]] + rest[1..] == rest;
    }
  }

  lemma StartKeeps(ps: Parameters, codec: Codec, proxyIndex: int)
    ensures WorkerInv(ps, StartWorker(ps, codec, proxyIndex))
  {
    assert Actions([]) + SetupScript(ps) == Script(ps, []);
    IssueKeeps(ps, codec, NewWorker(proxyIndex), SetupScript(ps), NO_DISK);
  }

  lemma RunFrameKeeps(ps: Parameters, codec: Codec, w: WorkerState, frame: int, disk: Disk)
    requires WorkerInv(ps, w) && w.phase.Idle?
    ensures RunFrame(ps, codec, w, frame, disk).Ok? ==>
      var next := RunFrame(ps, codec, w, frame, disk).value;
      && WorkerInv(ps, next) && next.phase.Awaiting? && next.frame == frame
      && next.given == w.given + [frame] && next.done == w.done && next.proxyIndex == w.proxyIndex
  {
    var next := w.(frame := frame, given := w.given + [frame]);
    assert DropLast(next.given) == w.given;
    assert Actions(w.done) + [] == Actions(w.done);
    IssueKeeps(ps, codec, next, FrameScript(ps, frame), disk);
  }

  lemma AnsweredKeeps(ps: Parameters, w: WorkerState, was: Bytes, e: Exchange)
    requires WorkerInv(ps, w.(progress := was)) && w.phase.Awaiting? && e.action == w.phase.pending && Successful(e)
    ensures ReadyToIssue(ps, Answered(w, e), w.phase.rest)
  {
    hide SetupScript, FrameScript;
    var a := Answered(w, e);
    assert a.done[..|w.done|] == w.done;
    assert Actions(a.done) == Actions(w.done) + [e.action];
    assert Actions(a.done) + w.phase.rest == Actions(w.done) + Outstanding(w.phase);
    FirstIsHello(ps, w.given);
    if w.done == [] {
      assert e.action == (Actions(w.done) + Outstanding(w.phase))[0];
    }
  }

  lemma DispatchKeeps(ps: Parameters, codec: Codec, w: WorkerState, was: Bytes, disk: Disk)
    requires Complete(w.progress) && WorkerInv(ps, w.(progress := was))
    ensures Dispatch(codec, w, disk).Ok? ==>
      var next := Dispatch(codec, w, disk).value;
      && WorkerInv(ps, next) && next.given == w.given && next.frame == w.frame
      && |next.done| == |w.done| + 1 && next.done[..|w.done|] == w.done
      && (next.proxyIndex == w.proxyIndex || next.proxyIndex == -1)
  {
    if Dispatch(codec, w, disk).Ok? {
      var e := Exchange(w.phase.pending, codec.decodeResponse(Payload(w.progress)).value);
      AnsweredKeeps(ps, w, was, e);
      IssueKeeps(ps, codec, Answered(w, e), w.phase.rest, disk);
    }
  }

  lemma {:induction false} FirstIsHello(ps: Parameters, given: seq<int>)
    ensures Script(ps, given) != [] && Script(ps, given)[0] == Hello
  {
    if given != [] {
      FirstIsHello(ps, DropLast(given));
    }
  }

  /** Received bytes, whoever sent them, keep a worker on its script. */
  lemma ReceiveKeeps(ps: Parameters, codec: Codec, w: WorkerState, io: RecvIO, disk: Disk)
    requires WorkerInv(ps, w)
    ensures ReceiveOn(codec, w, io, disk).Ok? ==>
      var next := ReceiveOn(codec, w, io, disk).value;
      && WorkerInv(ps, next) && next.given == w.given && next.frame == w.frame
      && |w.done| <= |next.done| <= |w.done| + 1 && next.done[..|w.done|] == w.done
      && (next.proxyIndex == w.proxyIndex || next.proxyIndex == -1)
  {
    if Receive(w.progress, io).Progressed? {
      var p := Receive(w.progress, io).progress;
      if Complete(p) {
        assert w.(progress := p).(progress := w.progress) == w;
        DispatchKeeps(ps, codec, w.(progress := p), w.progress, disk);
      }
    }
  }

  lemma SendKeeps(ps: Parameters, w: WorkerState, io: SendIO)
    requires WorkerInv(ps, w)
    ensures SendOn(w, io).Ok? ==> WorkerInv(ps, SendOn(w, io).value)
  {
  }

  /**
   * A frame has been processed over a connection: its whole script, from the
   * first in-copy to the last out-copy, was answered with success, in order
   * and without anything in between.
   */
  ghost predicate Processed(ps: Parameters, done: seq<Exchange>, frame: int) {
    exists i: nat :: ProcessedAt(ps, done, frame, i)
  }

  predicate ProcessedAt(ps: Parameters, done: seq<Exchange>, frame: int, i: nat) {
    var n := |FrameScript(ps, frame)|;
    && i + n <= |done|
    && Actions(done)[i..i + n] == FrameScript(ps, frame)
    && (forall k :: i <= k < i + n ==> Successful(done[k]))
  }

  /** Every assigned frame whose script is behind has been processed. */
  lemma {:induction false} BehindIsProcessed(ps: Parameters, done: seq<Exchange>, given: seq<int>, frame: int)
    requires Script(ps, given) <= Actions(done) && frame in given
    requires forall k :: 0 <= k < |done| ==> Successful(done[k])
    ensures Processed(ps, done, frame)
    decreases |given|
  {
    var before := DropLast(given);
    if given[|given| - 1] == frame {
      var i, n := |Script(ps, before)|, |FrameScript(ps, frame)|;
      assert Script(ps, given)[i..i + n] == FrameScript(ps, frame);
      assert Actions(done)[i..i + n] == Actions(done)[..|Script(ps, given)|][i..i + n];
      assert ProcessedAt(ps, done, frame, i);
    } else {
      BehindIsProcessed(ps, done, before, frame);
    }
  }

  /** All frames given to a worker are processed, except the last one while it is busy. */
  lemma AssignedIsProcessed(ps: Parameters, w: WorkerState, frame: int)
    requires WorkerInv(ps, w) && frame in w.given
    ensures Processed(ps, w.done, frame) || (w.phase.Awaiting? && w.frame == frame)
  {
    hide FrameScript, SetupScript, Processed, FilesOf, Successful, Complete;
    if w.phase.Idle? {
      assert Actions(w.done) == Actions(w.done) + Outstanding(w.phase);
      BehindIsProcessed(ps, w.done, w.given, frame);
    } else if w.frame != frame {
      var before := DropLast(w.given);
      var script := Script(ps, w.given);
      assert Actions(w.done) == script[..|w.done|];
      assert Script(ps, before) == script[..|Script(ps, before)|];
      BehindIsProcessed(ps, w.done, before, frame);
    }
  }

  /** Later exchanges leave a processed frame processed. */
  lemma ProcessedStays(ps: Parameters, done: seq<Exchange>, more: seq<Exchange>, frame: int)
    requires Processed(ps, done, frame) && done <= more
    ensures Processed(ps, more, frame)
  {
    var i: nat :| ProcessedAt(ps, done, frame, i);
    var n := |FrameScript(ps, frame)|;
    assert Actions(more)[i..i + n] == Actions(done)[i..i + n];
    assert forall k :: i <= k < i + n ==> more[k] == done[k];
    assert ProcessedAt(ps, more, frame, i);
  }
}
