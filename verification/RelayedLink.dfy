/** A controller and a worker with the proxy in between behave as if directly linked. */
module RelayedLink {
  import opened Wrappers
  import opened Framing
  import opened Protocol
  import opened Serving
  import opened Descriptors
  import Relay
  import Direct = Connection

  /**
   * The link of module Connection with each direction in three parts: in
   * flight to the proxy, in the buffer of its connection, and in flight from it.
   */
  datatype Link = Link(w: WorkerState, downIn: Bytes, downOut: Bytes, upIn: Bytes, upOut: Bytes, conn: Relay.Conn,
                       serving: Option<Request>, served: seq<Request>)

  /** Events at the ends, the moves of the connection in the proxy, and its end. */
  datatype Event = AtEnds(event: Direct.Event) | InProxy(move: Move) | Closes

  /** Foreign is a receive of other bytes than the ones on their way. */
  datatype Status = Up(link: Link) | Ended(status: Direct.Status) | Closed(link: Link) | Foreign

  /** The bytes on their way, oldest first. */
  function Down(l: Link): Bytes { l.downOut + l.conn.c2w + l.downIn }

  function Upward(l: Link): Bytes { l.upOut + l.conn.w2c + l.upIn }

  function Flat(l: Link): Direct.Link {
    Direct.Link(l.w, Down(l), Upward(l), l.serving, l.served)
  }

  /** What an end sees of the link: its own part. */
  function Ends(l: Link, e: Direct.Event): Direct.Link {
    Direct.Link(l.w, if e.Flush? then l.downIn else l.downOut, if e.Reply? then l.upIn else l.upOut, l.serving,
        l.served)
  }

  function Back(l: Link, e: Direct.Event, ends: Direct.Link): Link {
    l.(w := ends.w, serving := ends.serving, served := ends.served,
       downIn := if e.Flush? then ends.down else l.downIn, downOut := if e.Flush? then l.downOut else ends.down,
       upIn := if e.Reply? then ends.up else l.upIn, upOut := if e.Reply? then l.upOut else ends.up)
  }

  /** The bytes a receive takes must be the next ones in flight; those of a send go on in flight. */
  function MoveStep(l: Link, m: Move): Status {
    var moved := l.(conn := Apply(l.conn, m));
    match m
    case JoinWorker(_) => Up(moved)
    case JoinController(_) => Up(moved)
    case Receive(fd, bytes) =>
      if fd == l.conn.workerFd then
        if bytes <= l.upIn then Up(moved.(upIn := l.upIn[|bytes|..])) else Foreign
      else
        if bytes <= l.downIn then Up(moved.(downIn := l.downIn[|bytes|..])) else Foreign
    case Send(fd, count) =>
      if fd == l.conn.workerFd then Up(moved.(downOut := l.downOut + l.conn.c2w[..Min(count, |l.conn.c2w|)]))
      else Up(moved.(upOut := l.upOut + l.conn.w2c[..Min(count, |l.conn.w2c|)]))
  }

  function Step(ps: Parameters, codec: Codec, l: Link, e: Event): Status {
    match e
    case AtEnds(event) =>
      (match Direct.Step(ps, codec, Ends(l, event), event)
       case Up(ends) => Up(Back(l, event, ends))
       case other => Ended(other))
    case InProxy(m) => MoveStep(l, m)
    case Closes => Status.Closed(l)
  }

  /** A new connection of the controller to the proxy of this index. */
  function Open(ps: Parameters, codec: Codec, id: nat, index: int): Link {
    Link(StartWorker(ps, codec, index), [], [], [], [], Relay.NewConn(id), None, [])
  }

  function Run(ps: Parameters, codec: Codec, l: Link, events: seq<Event>): Status
    decreases |events|
  {
    if events == [] then Up(l)
    else match Step(ps, codec, l, events[0])
      case Up(next) => Run(ps, codec, next, events[1..])
      case other => other
  }

  /** The event of the direct link that a relayed event amounts to. */
  function Amounts(codec: Codec, l: Link, e: Event): Direct.Event {
    match e
    case AtEnds(event) =>
      (match event
       case Arrive(count, disk) => Direct.Arrive(Min(count, |l.upOut|), disk)
       case Take => if ReceiveMessage(codec, l.downOut).Waiting? then Direct.Flush(0) else Direct.Take
       case _ => event)
    case _ => Direct.Flush(0)
  }

  lemma MessageInFront(codec: Codec, wire: Bytes, more: Bytes)
    requires !ReceiveMessage(codec, wire).Waiting?
    ensures ReceiveMessage(codec, wire + more) == ReceiveMessage(codec, wire)
    ensures ReceiveMessage(codec, wire).Got? ==> ReceiveMessage(codec, wire).size <= |wire|
  {
    assert SizeOf(wire + more) == SizeOf(wire);
    assert Payload(wire + more) == Payload(wire);
  }

  lemma NothingMoves(ps: Parameters, codec: Codec, l: Direct.Link)
    ensures Direct.Step(ps, codec, l, Direct.Flush(0)) == Direct.Up(l)
  {
    assert l.w.unsent[0..] == l.w.unsent && l.down + l.w.unsent[..0] == l.down;
    assert l.w.(unsent := l.w.unsent) == l.w;
  }

  /** The link is where the direct one is; after its end the direct one is where it was left. */
  predicate Matches(status: Status, direct: Direct.Status) {
    match status
    case Up(l) => direct == Direct.Up(Flat(l))
    case Ended(s) => direct == s && !s.Up?
    case Closed(l) => direct == Direct.Up(Flat(l))
    case Foreign => true
  }

  lemma Refill(a: Bytes, b: Bytes, c: Bytes, n: nat)
    requires n <= |b|
    ensures a + b[..n] + b[n..] + c == a + b + c
    ensures c + (b[..n] + b[n..]) + a == c + b + a
  {
    assert b == b[..n] + b[n..];
  }

  lemma ProxyMoves(l: Link, m: Move)
    ensures match MoveStep(l, m)
      case Up(next) => Flat(next) == Flat(l) && next.conn == Apply(l.conn, m)
      case s => s == Foreign
  {
    match m
    case JoinWorker(_) =>
    case JoinController(_) =>
    case Receive(fd, bytes) =>
      var inFlight := if fd == l.conn.workerFd then l.upIn else l.downIn;
      if bytes <= inFlight {
        Refill([], inFlight, [], |bytes|);
        assert bytes == inFlight[..|bytes|];
        var next := MoveStep(l, m).link;
        assert Down(next) == Down(l) && Upward(next) == Upward(l);
      }
    case Send(fd, count) =>
      var next := MoveStep(l, m).link;
      if fd == l.conn.workerFd {
        Refill(l.downOut, l.conn.c2w, l.downIn, Min(count, |l.conn.c2w|));
      } else {
        Refill(l.upOut, l.conn.w2c, l.upIn, Min(count, |l.conn.w2c|));
      }
      assert Down(next) == Down(l) && Upward(next) == Upward(l);
  }

  lemma FlushMoves(ps: Parameters, codec: Codec, l: Link, event: Direct.Event)
    requires event.Flush?
    ensures Matches(Step(ps, codec, l, AtEnds(event)), Direct.Step(ps, codec, Flat(l), event))
  {
    var n := Min(event.count, |l.w.unsent|);
    assert Down(l) + l.w.unsent[..n] == l.downOut + l.conn.c2w + (l.downIn + l.w.unsent[..n]);
  }

  lemma ArriveMoves(ps: Parameters, codec: Codec, l: Link, event: Direct.Event)
    requires event.Arrive?
    ensures Matches(Step(ps, codec, l, AtEnds(event)),
        Direct.Step(ps, codec, Flat(l), Amounts(codec, l, AtEnds(event))))
  {
    hide ReceiveOn, Want;
    var count := Min(event.count, |l.upOut|);
    var offered := l.upOut[..count];
    assert Upward(l)[..Min(count, |Upward(l)|)] == offered;
    var n := Min(|offered|, Want(l.w.progress));
    assert Upward(l)[n..] == l.upOut[n..] + l.conn.w2c + l.upIn;
  }

  lemma TakeMoves(ps: Parameters, codec: Codec, l: Link, event: Direct.Event)
    requires event.Take?
    ensures Matches(Step(ps, codec, l, AtEnds(event)),
        Direct.Step(ps, codec, Flat(l), Amounts(codec, l, AtEnds(event))))
  {
    hide ReceiveMessage;
    NothingMoves(ps, codec, Flat(l));
    if !ReceiveMessage(codec, l.downOut).Waiting? {
      assert Down(l) == l.downOut + (l.conn.c2w + l.downIn);
      MessageInFront(codec, l.downOut, l.conn.c2w + l.downIn);
      if ReceiveMessage(codec, l.downOut).Got? {
        var size := ReceiveMessage(codec, l.downOut).size;
        assert Down(l)[size..] == l.downOut[size..] + l.conn.c2w + l.downIn;
      }
    }
  }

  lemma ReplyMoves(ps: Parameters, codec: Codec, l: Link, event: Direct.Event)
    requires event.Reply?
    ensures Matches(Step(ps, codec, l, AtEnds(event)), Direct.Step(ps, codec, Flat(l), event))
  {
    hide Handle, Frame;
    if l.serving.Some? {
      var f := Frame(codec.encodeResponse(Handle(l.serving.value, event.host)));
      assert Upward(l) + f == l.upOut + l.conn.w2c + (l.upIn + f);
    }
  }

  lemma EndMoves(ps: Parameters, codec: Codec, l: Link, event: Direct.Event)
    ensures Matches(Step(ps, codec, l, AtEnds(event)),
        Direct.Step(ps, codec, Flat(l), Amounts(codec, l, AtEnds(event))))
  {
    hide Step, Direct.Step, Flat;
    match event
    case Flush(_) => FlushMoves(ps, codec, l, event);
    case Arrive(_, _) => ArriveMoves(ps, codec, l, event);
    case Take => TakeMoves(ps, codec, l, event);
    case Reply(_) => ReplyMoves(ps, codec, l, event);
    case Assign(_, _) => AssignMoves(ps, codec, l, event);
  }

  lemma AssignMoves(ps: Parameters, codec: Codec, l: Link, event: Direct.Event)
    requires event.Assign?
    ensures Matches(Step(ps, codec, l, AtEnds(event)), Direct.Step(ps, codec, Flat(l), event))
  {
    hide RunFrame;
  }

  /** Each event of the relayed link is one of the direct link, or nothing. */
  lemma RelayRefines(ps: Parameters, codec: Codec, l: Link, e: Event)
    ensures Matches(Step(ps, codec, l, e), Direct.Step(ps, codec, Flat(l), Amounts(codec, l, e)))
  {
    hide Direct.Step, Flat, MoveStep;
    match e
    case AtEnds(event) => EndMoves(ps, codec, l, event);
    case InProxy(m) =>
      ProxyMoves(l, m);
      NothingMoves(ps, codec, Flat(l));
    case Closes => NothingMoves(ps, codec, Flat(l));
  }

  /** Every run of a relayed link is a run of a direct one. */
  lemma {:induction false} RunRefines(ps: Parameters, codec: Codec, l: Link, events: seq<Event>)
    returns (direct: seq<Direct.Event>)
    ensures |direct| <= |events|
    ensures Matches(Run(ps, codec, l, events), Direct.Run(ps, codec, Flat(l), direct))
    decreases |events|
  {
    hide Step, Direct.Step, Amounts, Flat;
    if events == [] {
      direct := [];
    } else {
      RelayRefines(ps, codec, l, events[0]);
      var first := Amounts(codec, l, events[0]);
      direct := [first];
      if Step(ps, codec, l, events[0]).Up? {
        var rest := RunRefines(ps, codec, Step(ps, codec, l, events[0]).link, events[1..]);
        direct := [first] + rest;
        assert direct[1..] == rest;
      } else {
        assert direct[1..] == [];
      }
    }
  }

  // The connections of the proxy.

  /** The moves of the connection among the events. */
  function Moves(events: seq<Event>): seq<Move> {
    if events == [] || events[0].Closes? then []
    else (if events[0].InProxy? then [events[0].move] else []) + Moves(events[1..])
  }

  function ApplyAll(conn: Relay.Conn, moves: seq<Move>): Relay.Conn
    decreases |moves|
  {
    if moves == [] then conn else ApplyAll(Apply(conn, moves[0]), moves[1..])
  }

  lemma {:induction false} ReplayFrom(id: nat, a: seq<Move>, b: seq<Move>)
    ensures Replay(id, a + b) == ApplyAll(Replay(id, a), b)
    decreases |b|
  {
    hide Apply;
    if b == [] {
      assert a + b == a;
    } else {
      assert (a + [b[0]])[..|a|] == a && a + b == a + [b[0]] + b[1..];
      ReplayFrom(id, a + [b[0]], b[1..]);
    }
  }

  lemma {:induction false} ConnMoves(ps: Parameters, codec: Codec, l: Link, events: seq<Event>)
    ensures var r := Run(ps, codec, l, events);
      r.Up? || r.Closed? ==> r.link.conn == ApplyAll(l.conn, Moves(events))
    decreases |events|
  {
    hide MoveStep, Direct.Step, Apply;
    if events != [] {
      if events[0].InProxy? {
        ProxyMoves(l, events[0].move);
        assert ([events[0].move] + Moves(events[1..]))[1..] == Moves(events[1..]);
      } else {
        assert [] + Moves(events[1..]) == Moves(events[1..]);
      }
      if Step(ps, codec, l, events[0]).Up? {
        ConnMoves(ps, codec, Step(ps, codec, l, events[0]).link, events[1..]);
      }
    }
  }

  /** The worker has answered a prefix of the script of the frames given. */
  predicate OnScript(ps: Parameters, l: Link) {
    |l.served| <= |Script(ps, l.w.given)| && Direct.AllAsk(l.served, Script(ps, l.w.given)[..|l.served|])
  }

  predicate OrderlyEnd(status: Direct.Status) {
    status.TooLong? || (status.ControllerExits? && !Direct.ProtocolExit(status.reason))
  }

  /**
   * Through a proxy as without: no protocol exit on either end, and the worker
   * has answered a prefix of the script, also when the connection is closed.
   */
  lemma RelayedSafety(ps: Parameters, codec: Codec, id: nat, index: int, events: seq<Event>)
    requires Faithful(codec)
    ensures var r := Run(ps, codec, Open(ps, codec, id, index), events);
      && (r.Up? || r.Closed? ==> OnScript(ps, r.link))
      && (r.Ended? ==> OrderlyEnd(r.status))
  {
    hide Run, Direct.Run, Script, Direct.AllAsk, StartWorker;
    var l := Open(ps, codec, id, index);
    var direct := RunRefines(ps, codec, l, events);
    assert Flat(l) == Direct.Open(ps, codec, index);
    Direct.ProtocolSafety(ps, codec, index, direct);
    if Direct.Run(ps, codec, Flat(l), direct).Up? {
      Direct.ServedOnScript(ps, codec, index, direct);
    }
  }

  /**
   * For every connection of every run of the proxy, open or closed, among
   * however many: take the moves it went through in that run, in their order,
   * with events of its two ends anywhere in between. Unless a socket delivered
   * bytes that the ends did not send, the link arrives at this connection, and
   * its ends are as safe as on a direct link.
   */
  lemma EveryConnectionIsSafe(s: Relay.Servers, rounds: seq<nat -> Relay.Poll>, conn: Relay.Conn, ps: Parameters,
      codec: Codec, index: int, events: seq<Event>)
    requires s.worker >= 0 && s.controller >= 0 && s.worker != s.controller && Faithful(codec)
    requires Relay.Run(s, Relay.Start(), rounds).Going?
    requires var p := Relay.Run(s, Relay.Start(), rounds).proxy; conn in p.conns || conn in p.closed
    requires Moves(events) == MovesOf(RunLog(s, Relay.Start(), NOTHING, rounds), conn.id)
    ensures var r := Run(ps, codec, Open(ps, codec, conn.id, index), events);
      && (r.Up? || r.Closed? ==> r.link.conn == conn && OnScript(ps, r.link))
      && (r.Ended? ==> OrderlyEnd(r.status))
  {
    hide Run, Relay.Run, RunLog, OnScript, StartWorker, Moves;
    MadeByMoves(s, rounds, conn);
    ReplayFrom(conn.id, [], Moves(events));
    assert [] + Moves(events) == Moves(events);
    ConnMoves(ps, codec, Open(ps, codec, conn.id, index), events);
    RelayedSafety(ps, codec, conn.id, index, events);
  }
}
