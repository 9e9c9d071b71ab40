/**
 * The state machine of src/RemoteWorker.hpp and src/RemoteWorker.cpp: a state,
 * an index into the list being copied, and the two buffers. It refines the
 * script of module Protocol.
 */
module Remote {
  import opened Wrappers
  import opened Framing
  import opened Outgoing
  import opened Incoming
  import opened Template
  import opened Protocol

  datatype State =
    | SEND_WELCOME_REQUEST
    | RECEIVE_WELCOME_RESPONSE
    | SEND_COPY_IN_NON_FRAME_FILE
    | RECEIVE_COPY_IN_NON_FRAME_FILE
    | IDLE
    | SEND_COPY_IN_FRAME_FILE
    | RECEIVE_COPY_IN_FRAME_FILE
    | SEND_EXECUTE_REQUEST
    | RECEIVE_EXECUTE_RESPONSE
    | SEND_COPY_OUT_FRAME_FILE
    | RECEIVE_COPY_OUT_FRAME_FILE
    | SEND_COPY_OUT_NON_FRAME_FILE
    | RECEIVE_COPY_OUT_NON_FRAME_FILE
    | DONE

  /** States in which dispatch goes round again. */
  predicate Immediate(state: State) {
    || state == SEND_WELCOME_REQUEST
    || state == SEND_COPY_IN_NON_FRAME_FILE
    || state == SEND_COPY_IN_FRAME_FILE
    || state == SEND_EXECUTE_REQUEST
    || state == SEND_COPY_OUT_FRAME_FILE
    || state == SEND_COPY_OUT_NON_FRAME_FILE
  }

  /** The states the implementation can be in. */
  predicate Implemented(state: State) {
    state != SEND_COPY_OUT_NON_FRAME_FILE && state != RECEIVE_COPY_OUT_NON_FRAME_FILE && state != DONE
  }

  /** Where the machine is. */
  datatype Position = Position(state: State, index: nat, frame: int)

  /** The index stays in the list being copied, on a selected copy while waiting. */
  predicate PositionValid(ps: Parameters, at: Position) {
    match at.state
    case SEND_COPY_IN_NON_FRAME_FILE => at.index <= |ps.inCopies|
    case SEND_COPY_IN_FRAME_FILE => at.index <= |ps.inCopies|
    case SEND_COPY_OUT_FRAME_FILE => at.index <= |ps.outCopies|
    case RECEIVE_COPY_IN_NON_FRAME_FILE => at.index < |ps.inCopies|
    case RECEIVE_COPY_IN_FRAME_FILE => at.index < |ps.inCopies|
    case RECEIVE_COPY_OUT_FRAME_FILE => at.index < |ps.outCopies|
    case _ => Implemented(at.state)
  }

  function AfterIn(ps: Parameters, frame: int): seq<Action> {
    [RunAction(ps, frame)] + OutActions(ps.outCopies, frame)
  }

  /** The requests still to be sent before the worker is idle. */
  function Rest(ps: Parameters, at: Position): seq<Action>
    requires PositionValid(ps, at)
  {
    match at.state
    case SEND_WELCOME_REQUEST => SetupScript(ps)
    case RECEIVE_WELCOME_RESPONSE => InActions(ps.inCopies, -1)
    case SEND_COPY_IN_NON_FRAME_FILE => InActions(ps.inCopies[at.index..], -1)
    case RECEIVE_COPY_IN_NON_FRAME_FILE => InActions(ps.inCopies[at.index + 1..], -1)
    case SEND_COPY_IN_FRAME_FILE => InActions(ps.inCopies[at.index..], at.frame) + AfterIn(ps, at.frame)
    case RECEIVE_COPY_IN_FRAME_FILE => InActions(ps.inCopies[at.index + 1..], at.frame) + AfterIn(ps, at.frame)
    case SEND_EXECUTE_REQUEST => AfterIn(ps, at.frame)
    case RECEIVE_EXECUTE_RESPONSE => OutActions(ps.outCopies, at.frame)
    case SEND_COPY_OUT_FRAME_FILE => OutActions(ps.outCopies[at.index..], at.frame)
    case RECEIVE_COPY_OUT_FRAME_FILE => OutActions(ps.outCopies[at.index + 1..], at.frame)
    case _ => []
  }

  /** The request a machine at rest waits to have answered. */
  function Pending(ps: Parameters, at: Position): Option<Action>
    requires PositionValid(ps, at)
  {
    match at.state
    case RECEIVE_WELCOME_RESPONSE => Some(Hello)
    case RECEIVE_COPY_IN_NON_FRAME_FILE => Some(PutAction(ps.inCopies[at.index], -1))
    case RECEIVE_COPY_IN_FRAME_FILE => Some(PutAction(ps.inCopies[at.index], at.frame))
    case RECEIVE_EXECUTE_RESPONSE => Some(RunAction(ps, at.frame))
    case RECEIVE_COPY_OUT_FRAME_FILE => Some(FetchAction(ps.outCopies[at.index], at.frame))
    case _ => None
  }

  /** The phase of the script a machine at rest is in. */
  function PhaseOf(ps: Parameters, at: Position): Phase
    requires PositionValid(ps, at)
  {
    match Pending(ps, at) case None => Idle case Some(action) => Awaiting(action, Rest(ps, at))
  }

  /** Phases left, then entries left: what makes dispatch terminate. */
  function Rank(state: State): nat {
    match state
    case SEND_WELCOME_REQUEST => 5
    case SEND_COPY_IN_NON_FRAME_FILE => 4
    case SEND_COPY_IN_FRAME_FILE => 3
    case SEND_EXECUTE_REQUEST => 2
    case SEND_COPY_OUT_FRAME_FILE => 1
    case _ => 0
  }

  function EntriesLeft(ps: Parameters, at: Position): nat
    requires PositionValid(ps, at)
  {
    match at.state
    case SEND_COPY_IN_NON_FRAME_FILE => |ps.inCopies| - at.index
    case SEND_COPY_IN_FRAME_FILE => |ps.inCopies| - at.index
    case SEND_COPY_OUT_FRAME_FILE => |ps.outCopies| - at.index
    case _ => 0
  }

  /**
   * One turn in a sending state: either the first remaining request goes out
   * and the machine is at rest, or it only came closer to that. `was` and
   * `after` leave the phase out.
   */
  predicate Turned(ps: Parameters, codec: Codec, disk: Disk, from: Position, was: WorkerState,
                   exit: Option<Exit>, to: Position, after: WorkerState)
    requires PositionValid(ps, from)
  {
    match exit
    case Some(reason) => Issue(codec, was, Rest(ps, from), disk) == Exited(reason)
    case None =>
      && PositionValid(ps, to)
      && if Immediate(to.state) then
           && Rest(ps, to) == Rest(ps, from) && after == was
           && (Rank(to.state) < Rank(from.state)
               || (to.state == from.state && EntriesLeft(ps, to) < EntriesLeft(ps, from)))
         else
           Issue(codec, was, Rest(ps, from), disk) == Ok(after.(phase := PhaseOf(ps, to)))
  }

  /** Sending the first remaining request ends the turn. */
  lemma SendingTurns(ps: Parameters, codec: Codec, disk: Disk, from: Position, was: WorkerState, to: Position,
      q: Request)
    requires PositionValid(ps, from) && PositionValid(ps, to) && !Immediate(to.state) && Pending(ps, to).Some?
    requires Rest(ps, from) == [Pending(ps, to).value] + Rest(ps, to)
    requires RequestFor(Pending(ps, to).value, disk) == Some(q)
    ensures Turned(ps, codec, disk, from, was, None, to,
                   was.(unsent := Frame(codec.encodeRequest(q)), progress := []))
  {
  }

  /**
   * A turn on a complete message: the process exits, or the response is logged
   * and the machine goes on with the requests that were left.
   */
  predicate Answering(ps: Parameters, codec: Codec, disk: Disk, payload: Bytes, from: Position, was: WorkerState,
                      exit: Option<Exit>, to: Position, after: WorkerState)
    requires PositionValid(ps, from)
  {
    match Pending(ps, from)
    case None => exit == Some(DispatchedIdle)
    case Some(action) =>
      match codec.decodeResponse(payload)
      case None => exit == Some(Undecodable)
      case Some(response) =>
        && exit == Refusal(action, response, disk)
        && (exit == None ==>
              && PositionValid(ps, to) && Immediate(to.state) && Rest(ps, to) == Rest(ps, from)
              && after == Answered(was, Exchange(action, response)))
  }

  lemma AnswerTurns(ps: Parameters, codec: Codec, disk: Disk, payload: Bytes, from: Position, was: WorkerState,
      to: Position, action: Action, response: Response)
    requires PositionValid(ps, from) && PositionValid(ps, to)
    requires Pending(ps, from) == Some(action) && codec.decodeResponse(payload) == Some(response)
    requires Refusal(action, response, disk) == None && Immediate(to.state) && Rest(ps, to) == Rest(ps, from)
    ensures Answering(ps, codec, disk, payload, from, was, None, to, Answered(was, Exchange(action, response)))
    ensures !action.FetchFile? ==> Answered(was, Exchange(action, response)).files == was.files
  {
  }

  /** A message that is not the response wanted ends the process, wherever the machine is left. */
  lemma AnswerFails(ps: Parameters, codec: Codec, disk: Disk, payload: Bytes, from: Position, was: WorkerState,
      action: Action, exit: Option<Exit>, to: Position, after: WorkerState)
    requires PositionValid(ps, from) && Pending(ps, from) == Some(action) && exit.Some?
    requires match codec.decodeResponse(payload)
      case None => exit == Some(Undecodable)
      case Some(response) => exit == Refusal(action, response, disk)
    ensures Answering(ps, codec, disk, payload, from, was, exit, to, after)
  {
  }

  /** An answered copy leaves what comes after it. */
  lemma NextCopy(ps: Parameters, index: nat, frame: int)
    ensures index < |ps.inCopies| ==>
      Rest(ps, Position(SEND_COPY_IN_NON_FRAME_FILE, index + 1, frame))
      == Rest(ps, Position(RECEIVE_COPY_IN_NON_FRAME_FILE, index, frame))
    ensures index < |ps.inCopies| ==>
      Rest(ps, Position(SEND_COPY_IN_FRAME_FILE, index + 1, frame))
      == Rest(ps, Position(RECEIVE_COPY_IN_FRAME_FILE, index, frame))
    ensures index < |ps.outCopies| ==>
      Rest(ps, Position(SEND_COPY_OUT_FRAME_FILE, index + 1, frame))
      == Rest(ps, Position(RECEIVE_COPY_OUT_FRAME_FILE, index, frame))
  {
  }

  /** After its welcome a worker gets the non-frame files, after a run the files are fetched. */
  lemma NextPhase(ps: Parameters, index: nat, frame: int)
    ensures Rest(ps, Position(SEND_COPY_IN_NON_FRAME_FILE, 0, frame))
         == Rest(ps, Position(RECEIVE_WELCOME_RESPONSE, index, frame))
    ensures Rest(ps, Position(SEND_COPY_OUT_FRAME_FILE, 0, frame))
         == Rest(ps, Position(RECEIVE_EXECUTE_RESPONSE, index, frame))
    ensures Rest(ps, Position(SEND_COPY_IN_FRAME_FILE, 0, frame)) == FrameScript(ps, frame)
  {
    assert ps.inCopies[0..] == ps.inCopies && ps.outCopies[0..] == ps.outCopies;
    assert Rest(ps, Position(SEND_COPY_IN_FRAME_FILE, 0, frame)) == FrameScript(ps, frame);
  }

  /** The two calls of copy_file_in. */
  predicate InContext(state: State, copyFrame: int, receiveState: State, nextState: State, frame: int) {
    || (state == SEND_COPY_IN_NON_FRAME_FILE && copyFrame == -1
        && receiveState == RECEIVE_COPY_IN_NON_FRAME_FILE && nextState == IDLE)
    || (state == SEND_COPY_IN_FRAME_FILE && copyFrame == frame
        && receiveState == RECEIVE_COPY_IN_FRAME_FILE && nextState == SEND_EXECUTE_REQUEST)
  }

  /** The one implemented call of copy_file_out. */
  predicate OutContext(state: State, copyFrame: int, receiveState: State, nextState: State, frame: int) {
    && state == SEND_COPY_OUT_FRAME_FILE && copyFrame == frame
    && receiveState == RECEIVE_COPY_OUT_FRAME_FILE && nextState == IDLE
  }

  /** One entry of an in-copy list is the next request, or none. */
  lemma InEntry(ps: Parameters, at: Position, copyFrame: int, receiveState: State, nextState: State)
    requires PositionValid(ps, at) && InContext(at.state, copyFrame, receiveState, nextState, at.frame)
    ensures if at.index == |ps.inCopies| then
              Rest(ps, at) == Rest(ps, at.(state := nextState))
            else if Selected(ps.inCopies[at.index], copyFrame) then
              Rest(ps, at) == [PutAction(ps.inCopies[at.index], copyFrame)] + Rest(ps, at.(state := receiveState))
            else
              Rest(ps, at) == Rest(ps, at.(index := at.index + 1))
  {
    hide Substitute, StringHasParameter, SubstituteAll, OutActions;
    if at.index < |ps.inCopies| {
      assert ps.inCopies[at.index..][1..] == ps.inCopies[at.index + 1..];
    }
  }

  /** A turn without a request. */
  lemma MovingTurns(ps: Parameters, codec: Codec, disk: Disk, from: Position, was: WorkerState, to: Position)
    requires PositionValid(ps, from) && PositionValid(ps, to) && Rest(ps, to) == Rest(ps, from)
    requires if Immediate(to.state) then
               Rank(to.state) < Rank(from.state)
               || (to.state == from.state && EntriesLeft(ps, to) < EntriesLeft(ps, from))
             else
               to.state == IDLE
    ensures Turned(ps, codec, disk, from, was.(phase := Idle), None, to, was.(phase := Idle))
  {
  }

  lemma OutEntry(ps: Parameters, at: Position)
    requires PositionValid(ps, at) && at.state == SEND_COPY_OUT_FRAME_FILE
    ensures if at.index == |ps.outCopies| then
              Rest(ps, at) == Rest(ps, at.(state := IDLE))
            else if Selected(ps.outCopies[at.index], at.frame) then
              Rest(ps, at) == [FetchAction(ps.outCopies[at.index], at.frame)]
                              + Rest(ps, at.(state := RECEIVE_COPY_OUT_FRAME_FILE))
            else
              Rest(ps, at) == Rest(ps, at.(index := at.index + 1))
  {
    if at.index < |ps.outCopies| {
      assert ps.outCopies[at.index..][1..] == ps.outCopies[at.index + 1..];
    }
  }

  /**
   * One turn of copy_file_in: the end of the list, a file to be sent if it can
   * be read, or an entry that is skipped.
   */
  lemma InTurns(ps: Parameters, codec: Codec, disk: Disk, at: Position, was: WorkerState, copyFrame: int,
      receiveState: State, nextState: State)
    requires PositionValid(ps, at) && InContext(at.state, copyFrame, receiveState, nextState, at.frame)
    requires was.phase == Idle
    ensures if at.index == |ps.inCopies| then
              PositionValid(ps, at.(state := nextState))
                  && Turned(ps, codec, disk, at, was, None, at.(state := nextState), was)
            else if Selected(ps.inCopies[at.index], copyFrame) then
              var copy := ps.inCopies[at.index];
              match disk.read(Substitute(copy.source, copyFrame))
              case None => forall to, after :: Turned(ps, codec, disk, at, was, Some(UnreadableFile), to, after)
              case Some(content) =>
                var q := CopyInRequest(Substitute(copy.destination, copyFrame), content);
                && PositionValid(ps, at.(state := receiveState))
                && Turned(ps, codec, disk, at, was, None, at.(state := receiveState),
                          was.(unsent := Frame(codec.encodeRequest(q)), progress := []))
            else
              && PositionValid(ps, at.(index := at.index + 1))
              && Turned(ps, codec, disk, at, was, None, at.(index := at.index + 1), was)
  {
    hide Substitute, StringHasParameter, Frame, Rest;
    InEntry(ps, at, copyFrame, receiveState, nextState);
    assert was.(phase := Idle) == was;
    if at.index == |ps.inCopies| {
      MovingTurns(ps, codec, disk, at, was, at.(state := nextState));
    } else if Selected(ps.inCopies[at.index], copyFrame) {
      var copy := ps.inCopies[at.index];
      var content := disk.read(Substitute(copy.source, copyFrame));
      if content.Some? {
        SendingTurns(ps, codec, disk, at, was, at.(state := receiveState),
                     CopyInRequest(Substitute(copy.destination, copyFrame), content.value));
      }
    } else {
      MovingTurns(ps, codec, disk, at, was, at.(index := at.index + 1));
    }
  }

  /** One turn of copy_file_out: the end of the list, a fetch, or an entry that is skipped. */
  lemma OutTurns(ps: Parameters, codec: Codec, disk: Disk, at: Position, was: WorkerState)
    requires PositionValid(ps, at) && at.state == SEND_COPY_OUT_FRAME_FILE && was.phase == Idle
    ensures if at.index == |ps.outCopies| then
              PositionValid(ps, at.(state := IDLE)) && Turned(ps, codec, disk, at, was, None, at.(state := IDLE), was)
            else if Selected(ps.outCopies[at.index], at.frame) then
              var q := CopyOutRequest(Substitute(ps.outCopies[at.index].source, at.frame));
              && PositionValid(ps, at.(state := RECEIVE_COPY_OUT_FRAME_FILE))
              && Turned(ps, codec, disk, at, was, None, at.(state := RECEIVE_COPY_OUT_FRAME_FILE),
                        was.(unsent := Frame(codec.encodeRequest(q)), progress := []))
            else
              && PositionValid(ps, at.(index := at.index + 1))
              && Turned(ps, codec, disk, at, was, None, at.(index := at.index + 1), was)
  {
    hide Substitute, StringHasParameter, Frame, Rest, Turned;
    OutEntry(ps, at);
    assert was.(phase := Idle) == was;
    if at.index == |ps.outCopies| {
      MovingTurns(ps, codec, disk, at, was, at.(state := IDLE));
    } else if Selected(ps.outCopies[at.index], at.frame) {
      SendingTurns(ps, codec, disk, at, was, at.(state := RECEIVE_COPY_OUT_FRAME_FILE),
                   CopyOutRequest(Substitute(ps.outCopies[at.index].source, at.frame)));
    } else {
      MovingTurns(ps, codec, disk, at, was, at.(index := at.index + 1));
    }
  }

  class RemoteWorker {
    const parameters: Parameters
    const codec: Codec
    const outgoing: OutgoingBuffer
    const incoming: IncomingBuffer
    var state: State
    var stateIndex: nat
    var frame: int
    var proxyIndex: int
    var hostname: string
    /** Files written by this connection, oldest first. */
    var written: seq<File>
    ghost var done: seq<Exchange>
    ghost var given: seq<int>

    ghost function Repr(): set<object>
      reads this, outgoing, incoming
    {
      {this, outgoing, outgoing.buffer, incoming, incoming.buffer}
    }

    ghost predicate Valid()
      reads Repr()
    {
      && outgoing.Valid() && incoming.Valid() && outgoing.buffer != incoming.buffer
      && PositionValid(parameters, Here())
    }

    /** The footprint changes by new buffers only. */
    twostate predicate SameObjects()
      reads outgoing, incoming
    {
      && (outgoing.buffer == old(outgoing.buffer) || fresh(outgoing.buffer))
      && (incoming.buffer == old(incoming.buffer) || fresh(incoming.buffer))
    }

    /** A worker between two events is waiting for a response or for a frame. */
    ghost predicate AtRest()
      reads this
    {
      !Immediate(state)
    }

    ghost function Here(): Position
      reads this
    {
      Position(state, stateIndex, frame)
    }

    /** The view of the connection with the phase left out. */
    ghost function ViewIn(phase: Phase): WorkerState
      reads this, outgoing, incoming
    {
      WorkerState(phase, frame, proxyIndex, outgoing.unsent, incoming.progress, written,
                  done, given)
    }

    ghost function View(): WorkerState
      reads this, outgoing, incoming
      requires PositionValid(parameters, Here())
    {
      ViewIn(PhaseOf(parameters, Here()))
    }

    constructor (parameters: Parameters, codec: Codec)
      ensures Valid() && fresh(Repr())
      ensures this.parameters == parameters && this.codec == codec
      ensures state == SEND_WELCOME_REQUEST && ViewIn(Idle) == NewWorker(-1)
    {
      hide OutgoingBuffer.Valid, IncomingBuffer.Valid;
      this.parameters, this.codec := parameters, codec;
      outgoing := new OutgoingBuffer();
      incoming := new IncomingBuffer();
      state, stateIndex, frame, proxyIndex := SEND_WELCOME_REQUEST, 0, -1, -1;
      hostname, written := "", [];
      done, given := [], [];
    }

    method SendRequest(request: Request, nextState: State)
      requires Valid() && PositionValid(parameters, Here().(state := nextState))
      modifies this, outgoing, incoming
      ensures Valid() && SameObjects()
      ensures state == nextState && unchanged(`stateIndex, `frame)
      ensures ViewIn(Idle) == old(ViewIn(Idle)).(unsent := Frame(codec.encodeRequest(request)), progress := [])
    {
      hide OutgoingBuffer.Valid, IncomingBuffer.Valid;
      incoming.Reset();
      outgoing.SetMessage(codec.encodeRequest(request));
      state := nextState;
    }

    /** Parses and checks the message received; None is the exit of the process. */
    method ReceiveResponse(payload: Bytes, expected: RequestType)
        returns (response: Option<Response>, exit: Option<Exit>)
      requires Valid()
      modifies incoming
      ensures Valid() && SameObjects()
      ensures match codec.decodeResponse(payload)
        case None => response == None && exit == Some(Undecodable)
        case Some(r) =>
          if r.requestType != expected then response == None && exit == Some(WrongType)
          else response == Some(r) && exit == None && ViewIn(Idle) == old(ViewIn(Idle)).(progress := [])
    {
      hide OutgoingBuffer.Valid, IncomingBuffer.Valid;
      response := codec.decodeResponse(payload);
      if response == None {
        return None, Some(Undecodable);
      }
      if response.value.requestType != expected {
        return None, Some(WrongType);
      }
      incoming.Reset();
      exit := None;
    }

    method CopyFileIn(copyFrame: int, receiveState: State, nextState: State, disk: Disk) returns (exit: Option<Exit>)
      requires Valid() && InContext(state, copyFrame, receiveState, nextState, frame)
      modifies this, outgoing, incoming
      ensures exit == None ==> Valid() && SameObjects()
      ensures exit == None && state == receiveState ==>
        && stateIndex == old(stateIndex) < |parameters.inCopies|
        && var copy := parameters.inCopies[stateIndex];
          var content := disk.read(Substitute(copy.source, copyFrame));
          content.Some? && outgoing.unsent
            == Frame(codec.encodeRequest(CopyInRequest(Substitute(copy.destination, copyFrame), content.value)))
      ensures Turned(parameters, codec, disk, old(Here()), old(ViewIn(Idle)), exit, Here(), ViewIn(Idle))
    {
      hide OutgoingBuffer.Valid, IncomingBuffer.Valid, Substitute, StringHasParameter, Frame, Turned;
      InTurns(parameters, codec, disk, Here(), ViewIn(Idle), copyFrame, receiveState, nextState);
      exit := None;
      if stateIndex < |parameters.inCopies| {
        var copy := parameters.inCopies[stateIndex];
        if (copyFrame >= 0) == copy.HasParameter() {
          var source := Substitute(copy.source, copyFrame);
          var destination := Substitute(copy.destination, copyFrame);
          var content := disk.read(source);
          if content == None {
            return Some(UnreadableFile);
          }
          SendRequest(CopyInRequest(destination, content.value), receiveState);
        } else {
          stateIndex := stateIndex + 1;
        }
      } else {
        state := nextState;
      }
    }

    method CopyFileOut(copyFrame: int, receiveState: State, nextState: State, ghost disk: Disk)
      requires Valid() && OutContext(state, copyFrame, receiveState, nextState, frame)
      modifies this, outgoing, incoming
      ensures Valid() && SameObjects()
      ensures state == receiveState ==>
        && stateIndex == old(stateIndex) < |parameters.outCopies|
        && outgoing.unsent == Frame(codec.encodeRequest(CopyOutRequest(
             Substitute(parameters.outCopies[stateIndex].source, copyFrame))))
      ensures Turned(parameters, codec, disk, old(Here()), old(ViewIn(Idle)), None, Here(), ViewIn(Idle))
    {
      hide OutgoingBuffer.Valid, IncomingBuffer.Valid, Substitute, StringHasParameter, Frame, Turned;
      OutTurns(parameters, codec, disk, Here(), ViewIn(Idle));
      if stateIndex < |parameters.outCopies| {
        var copy := parameters.outCopies[stateIndex];
        if (copyFrame >= 0) == copy.HasParameter() {
          SendRequest(CopyOutRequest(Substitute(copy.source, copyFrame)), receiveState);
        } else {
          stateIndex := stateIndex + 1;
        }
      } else {
        state := nextState;
      }
    }

    /** Writes a fetched file; None is a file written. */
    method HandleCopyFileOutResponse(response: Response, copyFrame: int, copy: FileCopy, disk: Disk)
      returns (exit: Option<Exit>)
      modifies `written
      ensures exit == if response.copiedOut && disk.writable(Substitute(copy.destination, copyFrame))
                      then None else Some(CopyFailed)
      ensures exit == None ==>
        written == old(written) + [File(Substitute(copy.destination, copyFrame), response.content)]
    {
      hide OutgoingBuffer.Valid, IncomingBuffer.Valid;
      if !response.copiedOut {
        return Some(CopyFailed);
      }
      var pathname := Substitute(copy.destination, copyFrame);
      if !disk.writable(pathname) {
        return Some(CopyFailed);
      }
      written := written + [File(pathname, response.content)];
      exit := None;
    }

    /** The sending cases of the switch in dispatch. */
    method TurnSending(disk: Disk) returns (exit: Option<Exit>)
      requires Valid() && Immediate(state)
      modifies this, outgoing, incoming
      ensures exit == None ==> Valid() && SameObjects()
      ensures Turned(parameters, codec, disk, old(Here()), old(ViewIn(Idle)), exit, Here(), ViewIn(Idle))
    {
      hide OutgoingBuffer.Valid, IncomingBuffer.Valid;
      exit := None;
      match state
      case SEND_WELCOME_REQUEST =>
        SendingTurns(parameters, codec, disk, Here(), ViewIn(Idle), Here().(state := RECEIVE_WELCOME_RESPONSE),
                     WelcomeRequest);
        SendRequest(WelcomeRequest, RECEIVE_WELCOME_RESPONSE);
      case SEND_COPY_IN_NON_FRAME_FILE =>
        exit := CopyFileIn(-1, RECEIVE_COPY_IN_NON_FRAME_FILE, IDLE, disk);
      case SEND_COPY_IN_FRAME_FILE =>
        exit := CopyFileIn(frame, RECEIVE_COPY_IN_FRAME_FILE, SEND_EXECUTE_REQUEST, disk);
      case SEND_EXECUTE_REQUEST =>
        ghost var arguments;
        exit, arguments := SendExecute(disk);
      case SEND_COPY_OUT_FRAME_FILE =>
        CopyFileOut(frame, RECEIVE_COPY_OUT_FRAME_FILE, IDLE, disk);
    }

    method SendExecute(ghost disk: Disk) returns (exit: Option<Exit>, ghost arguments: seq<string>)
      requires Valid() && state == SEND_EXECUTE_REQUEST
      modifies this, outgoing, incoming
      ensures exit == None && Valid() && SameObjects()
      ensures outgoing.unsent == Frame(codec.encodeRequest(ExecuteRequest(parameters.executable, arguments)))
      ensures |arguments| == |parameters.arguments|
      ensures forall k :: 0 <= k < |arguments| ==> arguments[k] == Substitute(parameters.arguments[k], old(frame))
      ensures Turned(parameters, codec, disk, old(Here()), old(ViewIn(Idle)), exit, Here(), ViewIn(Idle))
    {
      hide OutgoingBuffer.Valid, IncomingBuffer.Valid, Substitute, StringHasParameter, Frame, Complete, Payload,
        InActions, OutActions, Turned, Issue;
      var substituted: seq<string> := [];
      for k := 0 to |parameters.arguments|
        invariant substituted == SubstituteAll(parameters.arguments[..k], frame)
      {
        assert parameters.arguments[..k + 1][..k] == parameters.arguments[..k];
        substituted := substituted + [Substitute(parameters.arguments[k], frame)];
      }
      assert parameters.arguments[..|parameters.arguments|] == parameters.arguments;
      arguments := substituted;
      var request := ExecuteRequest(parameters.executable, substituted);
      assert Pending(parameters, Here().(state := RECEIVE_EXECUTE_RESPONSE)) == Some(RunAction(parameters, frame));
      SendingTurns(parameters, codec, disk, Here(), ViewIn(Idle), Here().(state := RECEIVE_EXECUTE_RESPONSE), request);
      SendRequest(request, RECEIVE_EXECUTE_RESPONSE);
      exit := None;
    }

    method ReceiveWelcome(payload: Bytes, ghost disk: Disk) returns (exit: Option<Exit>)
      requires Valid() && state == RECEIVE_WELCOME_RESPONSE
      modifies this, incoming
      ensures exit == None ==> Valid() && SameObjects()
      ensures Answering(parameters, codec, disk, payload, old(Here()), old(ViewIn(Idle)), exit, Here(), ViewIn(Idle))
    {
      hide OutgoingBuffer.Valid, IncomingBuffer.Valid, Answering, Rest, Substitute, StringHasParameter, SubstituteAll,
        Issue, FrameScript, SetupScript, AfterIn, InActions, OutActions, Complete, Frame;
      ghost var from, was := Here(), ViewIn(Idle);
      var response;
      response, exit := ReceiveResponse(payload, WELCOME);
      if exit == None {
        NextPhase(parameters, from.index, frame);
        AnswerTurns(parameters, codec, disk, payload, from, was, Position(SEND_COPY_IN_NON_FRAME_FILE, 0, frame),
                    Hello, response.value);
        hostname := response.value.hostname;
        done := done + [Exchange(Hello, response.value)];
        proxyIndex := -1;
        stateIndex := 0;
        state := SEND_COPY_IN_NON_FRAME_FILE;
      } else {
        AnswerFails(parameters, codec, disk, payload, from, was, Hello, exit, Here(), ViewIn(Idle));
      }
    }

    method ReceiveCopyIn(payload: Bytes, ghost disk: Disk) returns (exit: Option<Exit>)
      requires Valid()
      requires state == RECEIVE_COPY_IN_NON_FRAME_FILE || state == RECEIVE_COPY_IN_FRAME_FILE
      modifies this, incoming
      ensures exit == None ==> Valid() && SameObjects()
      ensures Answering(parameters, codec, disk, payload, old(Here()), old(ViewIn(Idle)), exit, Here(), ViewIn(Idle))
    {
      hide OutgoingBuffer.Valid, IncomingBuffer.Valid, Answering, Rest, Substitute, StringHasParameter, SubstituteAll,
        Issue, FrameScript, SetupScript, AfterIn, InActions, OutActions, Complete, Frame;
      ghost var from, was := Here(), ViewIn(Idle);
      ghost var action := Pending(parameters, from).value;
      var response;
      response, exit := ReceiveResponse(payload, COPY_IN);
      if exit == None {
        if !response.value.copiedIn {
          exit := Some(CopyFailed);
          AnswerFails(parameters, codec, disk, payload, from, was, action, exit, Here(), ViewIn(Idle));
          return;
        }
        done := done + [Exchange(action, response.value)];
        stateIndex := stateIndex + 1;
        state := if state == RECEIVE_COPY_IN_NON_FRAME_FILE then SEND_COPY_IN_NON_FRAME_FILE
          else SEND_COPY_IN_FRAME_FILE;
        NextCopy(parameters, from.index, frame);
        AnswerTurns(parameters, codec, disk, payload, from, was, Here(), action, response.value);
      } else {
        AnswerFails(parameters, codec, disk, payload, from, was, action, exit, Here(), ViewIn(Idle));
      }
    }

    method ReceiveExecute(payload: Bytes, ghost disk: Disk) returns (exit: Option<Exit>)
      requires Valid() && state == RECEIVE_EXECUTE_RESPONSE
      modifies this, incoming
      ensures exit == None ==> Valid() && SameObjects()
      ensures Answering(parameters, codec, disk, payload, old(Here()), old(ViewIn(Idle)), exit, Here(), ViewIn(Idle))
    {
      hide OutgoingBuffer.Valid, IncomingBuffer.Valid, Answering, Rest, Substitute, StringHasParameter, SubstituteAll,
        Issue, FrameScript, SetupScript, AfterIn, InActions, OutActions, Complete, Frame;
      ghost var from, was := Here(), ViewIn(Idle);
      ghost var action := RunAction(parameters, frame);
      var response;
      response, exit := ReceiveResponse(payload, EXECUTE);
      if exit == None {
        if response.value.status != 0 {
          exit := Some(ProgramFailed);
          AnswerFails(parameters, codec, disk, payload, from, was, action, exit, Here(), ViewIn(Idle));
          return;
        }
        NextPhase(parameters, from.index, frame);
        AnswerTurns(parameters, codec, disk, payload, from, was, Position(SEND_COPY_OUT_FRAME_FILE, 0, frame), action,
                    response.value);
        done := done + [Exchange(action, response.value)];
        state := SEND_COPY_OUT_FRAME_FILE;
        stateIndex := 0;
      } else {
        AnswerFails(parameters, codec, disk, payload, from, was, action, exit, Here(), ViewIn(Idle));
      }
    }

    method ReceiveCopyOut(payload: Bytes, disk: Disk) returns (exit: Option<Exit>)
      requires Valid() && state == RECEIVE_COPY_OUT_FRAME_FILE
      modifies this, incoming
      ensures exit == None ==> Valid() && SameObjects()
      ensures Answering(parameters, codec, disk, payload, old(Here()), old(ViewIn(Idle)), exit, Here(), ViewIn(Idle))
    {
      hide OutgoingBuffer.Valid, IncomingBuffer.Valid, Answering, Rest, Substitute, StringHasParameter, SubstituteAll,
        Issue, FrameScript, SetupScript, AfterIn, InActions, OutActions, Complete, Frame;
      ghost var from, was := Here(), ViewIn(Idle);
      ghost var action := FetchAction(parameters.outCopies[stateIndex], frame);
      var response;
      response, exit := ReceiveResponse(payload, COPY_OUT);
      if exit == None {
        exit := HandleCopyFileOutResponse(response.value, frame, parameters.outCopies[stateIndex], disk);
      }
      if exit != None {
        AnswerFails(parameters, codec, disk, payload, from, was, action, exit, Here(), ViewIn(Idle));
        return;
      }
      NextCopy(parameters, from.index, frame);
      ghost var to := Position(SEND_COPY_OUT_FRAME_FILE, from.index + 1, frame);
      AnswerTurns(parameters, codec, disk, payload, from, was, to, action, response.value);
      Fetched(action, response.value);
    }

    /** The file fetched last is logged, and the next out-copy is looked at. */
    method Fetched(ghost action: Action, response: Response)
      requires Valid() && state == RECEIVE_COPY_OUT_FRAME_FILE
      modifies `done, `stateIndex, `state
      ensures Valid() && Here() == Position(SEND_COPY_OUT_FRAME_FILE, old(stateIndex) + 1, frame)
      ensures ViewIn(Idle) == old(ViewIn(Idle)).(done := old(done) + [Exchange(action, response)])
    {
      hide OutgoingBuffer.Valid, IncomingBuffer.Valid;
      done := done + [Exchange(action, response)];
      stateIndex := stateIndex + 1;
      state := SEND_COPY_OUT_FRAME_FILE;
    }

    /** The receiving cases of the switch in dispatch, and IDLE. */
    method TurnReceiving(payload: Bytes, disk: Disk) returns (exit: Option<Exit>)
      requires Valid() && AtRest()
      modifies this, incoming
      ensures exit == None ==> Valid() && SameObjects()
      ensures Answering(parameters, codec, disk, payload, old(Here()), old(ViewIn(Idle)), exit, Here(), ViewIn(Idle))
    {
      hide OutgoingBuffer.Valid, IncomingBuffer.Valid;
      match state
      case RECEIVE_WELCOME_RESPONSE =>
        exit := ReceiveWelcome(payload, disk);
      case RECEIVE_COPY_IN_NON_FRAME_FILE =>
        exit := ReceiveCopyIn(payload, disk);
      case IDLE =>
        exit := Some(DispatchedIdle);
      case RECEIVE_COPY_IN_FRAME_FILE =>
        exit := ReceiveCopyIn(payload, disk);
      case RECEIVE_EXECUTE_RESPONSE =>
        exit := ReceiveExecute(payload, disk);
      case RECEIVE_COPY_OUT_FRAME_FILE =>
        exit := ReceiveCopyOut(payload, disk);
    }

    /** The further rounds of dispatch: on until a request is out or the worker is idle. */
    method Continue(disk: Disk) returns (exit: Option<Exit>)
      requires Valid() && Immediate(state)
      modifies this, outgoing, incoming
      ensures exit == None ==> Valid() && SameObjects() && AtRest()
      ensures Issue(codec, old(ViewIn(Idle)), Rest(parameters, old(Here())), disk)
           == match exit case Some(reason) => Exited(reason) case None => Ok(View())
    {
      hide OutgoingBuffer.Valid, IncomingBuffer.Valid;
      ghost var was, rest := ViewIn(Idle), Rest(parameters, Here());
      exit := None;
      while exit == None && Immediate(state)
        invariant exit == None ==> Valid() && SameObjects()
        invariant exit == None && Immediate(state) ==>
          ViewIn(Idle) == was && Rest(parameters, Here()) == rest
        invariant !(exit == None && Immediate(state)) ==>
          Issue(codec, was, rest, disk) == match exit case Some(reason) => Exited(reason) case None => Ok(View())
        decreases exit == None, Rank(state), if exit == None then EntriesLeft(parameters, Here()) else 0
      {
        exit := TurnSending(disk);
      }
    }

    /** The do/while of dispatch. */
    method Dispatch(disk: Disk) returns (exit: Option<Exit>)
      requires Valid() && (Immediate(state) || Complete(incoming.progress))
      modifies this, outgoing, incoming
      ensures exit == None ==> Valid() && SameObjects() && AtRest()
      ensures (if Immediate(old(state)) then Issue(codec, old(ViewIn(Idle)), Rest(parameters, old(Here())), disk)
               else Protocol.Dispatch(codec, old(View()), disk))
           == match exit case Some(reason) => Exited(reason) case None => Ok(View())
    {
      hide OutgoingBuffer.Valid, IncomingBuffer.Valid, Substitute, StringHasParameter, Frame, Complete, Payload,
        InActions, OutActions, SubstituteAll;
      if !Immediate(state) {
        var payload := incoming.GetMessage();
        exit := TurnReceiving(payload, disk);
        if exit != None {
          return;
        }
      }
      exit := Continue(disk);
    }

    /** Puts the greeting into the outgoing buffer. */
    method Start()
      requires Valid() && state == SEND_WELCOME_REQUEST && ViewIn(Idle) == NewWorker(proxyIndex)
      modifies this, outgoing, incoming
      ensures Valid() && SameObjects() && AtRest()
      ensures View() == StartWorker(parameters, codec, old(proxyIndex))
    {
      hide OutgoingBuffer.Valid, IncomingBuffer.Valid;
      var exit := Dispatch(NO_DISK);
    }

    method SetProxyIndex(index: int)
      requires Valid()
      modifies `proxyIndex
      ensures Valid() && ViewIn(Idle) == old(ViewIn(Idle)).(proxyIndex := index)
    {
      hide OutgoingBuffer.Valid, IncomingBuffer.Valid;
      proxyIndex := index;
    }

    method IsIdle() returns (idle: bool)
      requires Valid() && AtRest()
      ensures idle <==> View().phase.Idle?
    {
      hide OutgoingBuffer.Valid, IncomingBuffer.Valid;
      idle := state == IDLE;
    }

    /** The events asked of poll: sending and receiving. */
    method FillPollfd() returns (pollOut: bool, pollIn: bool)
      requires Valid()
      ensures pollOut <==> outgoing.unsent != []
      ensures pollIn <==> !Complete(incoming.progress)
    {
      hide OutgoingBuffer.Valid, IncomingBuffer.Valid;
      pollOut := outgoing.NeedSend();
      pollIn := incoming.NeedReceive();
    }

    method RunFrame(newFrame: int, disk: Disk) returns (exit: Option<Exit>)
      requires Valid() && AtRest()
      modifies this, outgoing, incoming
      ensures exit == None ==> Valid() && SameObjects() && AtRest()
      ensures Protocol.RunFrame(parameters, codec, old(View()), newFrame, disk)
           == match exit case Some(reason) => Exited(reason) case None => Ok(View())
    {
      hide OutgoingBuffer.Valid, IncomingBuffer.Valid, Substitute, StringHasParameter, Frame, Complete, Payload, Issue,
        FrameScript, SetupScript, AfterIn, InActions, OutActions, SubstituteAll;
      if state != IDLE {
        return Some(BusyWorker);
      }
      frame := newFrame;
      state := SEND_COPY_IN_FRAME_FILE;
      stateIndex := 0;
      given := given + [newFrame];
      NextPhase(parameters, 0, frame);
      exit := Dispatch(disk);
    }

    /** Receive what the socket has, and dispatch a message that is complete. */
    method Receive(io: RecvIO, disk: Disk) returns (r: Outcome<()>)
      requires Valid() && AtRest()
      modifies this, outgoing, incoming, incoming.buffer
      ensures !r.Exited? ==> Valid() && SameObjects() && AtRest()
      ensures match ReceiveOn(codec, old(View()), io, disk)
        case Ok(w) => r == Ok(()) && View() == w
        case SocketFailure(reset) => r == SocketFailure(reset) && View() == old(View())
        case Exited(reason) => r == Exited(reason)
    {
      hide OutgoingBuffer.Valid, IncomingBuffer.Valid;
      var received := incoming.Receive(io);
      match received
      case Failure(reset) =>
        r := SocketFailure(reset);
      case Refused =>
        r := Exited(OversizeMessage);
      case Success =>
        var need := incoming.NeedReceive();
        r := Ok(());
        if !need {
          var exit := Dispatch(disk);
          if exit.Some? {
            r := Exited(exit.value);
          }
        }
    }

    /** Send what the socket takes; the bytes that went out are returned. */
    method Send(io: SendIO) returns (success: bool, out: Bytes)
      requires Valid() && AtRest()
      modifies outgoing
      ensures Valid() && SameObjects() && AtRest()
      ensures out + outgoing.unsent == old(outgoing.unsent)
      ensures match SendOn(old(View()), io)
        case Ok(w) => success && View() == w
        case _ => !success && View() == old(View())
    {
      hide OutgoingBuffer.Valid, IncomingBuffer.Valid;
      success, out := outgoing.Send(io);
    }
  }
}
