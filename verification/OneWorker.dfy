/** One worker on a machine where everything works: an exchange in five events. */
module OneWorker {
  import opened Wrappers
  import opened Framing
  import opened Outgoing
  import opened Protocol
  import opened Serving
  import opened Scheduler
  import opened Network
  import Direct = Connection

  // A machine and a disk on which everything works.

  const GOOD_HOST: Host := Host("", _ => Missing, (_, _) => true, (_, _) => ExitedWith(0), _ => Some([]))
  const GOOD_DISK: Disk := Disk(_ => Some([]), _ => true)

  function Asked(a: Action): (q: Request)
    ensures RequestFor(a, GOOD_DISK) == Some(q) && Direct.Asks(q, a)
  {
    match a
    case Hello => WelcomeRequest
    case PutFile(_, destination) => CopyInRequest(destination, [])
    case RunProgram(executable, arguments) => ExecuteRequest(executable, arguments)
    case FetchFile(source, _) => CopyOutRequest(source)
  }

  function Answer(a: Action): Response {
    Handle(Asked(a), GOOD_HOST)
  }

  /** The request and its answer are within the limits, and the worker does not refuse. */
  predicate Fit(codec: Codec, a: Action) {
    && Direct.LocalAction(a)
    && |codec.encodeRequest(Asked(a))| <= MAX_MESSAGE_SIZE
    && 0 < |codec.encodeResponse(Answer(a))| <= MAX_INCOMING_FILE_SIZE
  }

  predicate AllFit(codec: Codec, actions: seq<Action>) {
    forall k :: 0 <= k < |actions| ==> Fit(codec, actions[k])
  }

  lemma GoodAnswer(a: Action)
    requires Direct.LocalAction(a)
    ensures Refusal(a, Answer(a), GOOD_DISK) == None
  {
  }

  function Issuing(codec: Codec, w: WorkerState, rest: seq<Action>): (next: WorkerState)
    ensures Issue(codec, w, rest, GOOD_DISK) == Ok(next)
  {
    if rest == [] then w.(phase := Idle)
    else w.(phase := Awaiting(rest[0], rest[1..]), unsent := Frame(codec.encodeRequest(Asked(rest[0]))), progress := [])
  }

  /** An idle worker is given the next frame, if any. */
  function Assigning(ps: Parameters, codec: Codec, c: Controller): Controller
    requires |c.live| == 1
  {
    if c.queue == [] || c.live[0].phase.Awaiting? then c
    else
      var w := c.live[0].(frame := c.queue[0], given := c.live[0].given + [c.queue[0]]);
      c.(queue := c.queue[1..], live := [Issuing(codec, w, FrameScript(ps, c.queue[0]))])
  }

  /** The only worker has its request in the outgoing buffer, and its peer is quiet. */
  predicate Issued(codec: Codec, f: Farm) {
    && |f.c.live| == 1 && |f.peers| == 1
    && f.c.live[0].phase.Awaiting?
    && f.c.live[0].unsent == Frame(codec.encodeRequest(Asked(f.c.live[0].phase.pending))) && f.c.live[0].progress == []
    && f.peers[0].down == [] && f.peers[0].up == [] && f.peers[0].serving == None
    && f.peers[0].route == Straight && !f.peers[0].closed
  }

  /** The request has been answered, and the next one is in the buffer, if there is one. */
  function AfterExchange(ps: Parameters, codec: Codec, f: Farm): Farm
    requires |f.c.live| == 1 && |f.peers| == 1 && f.c.live[0].phase.Awaiting?
  {
    var w := f.c.live[0];
    var a := w.phase.pending;
    var answered := Answered(w.(unsent := []), Exchange(a, Answer(a)));
    Farm(Assigning(ps, codec, f.c.(live := [Issuing(codec, answered, w.phase.rest)])),
         [Peer([], [], None, f.peers[0].served + [Asked(a)], Straight, false)])
  }

  // The five events of an exchange.

  function Calm(): NetPoll {
    NetPoll(false, false, false, InFlight(0), Accepted(0), GOOD_DISK)
  }

  function Rounding(p: NetPoll, accepts: bool): NetEvents {
    NetEvents(_ => true, _ => p, accepts, _ => GOOD_DISK)
  }

  function Flushes(n: nat): NetEvents {
    Rounding(Calm().(writable := true, send := Accepted(n)), false)
  }

  function Hears(n: nat): NetEvents {
    Rounding(Calm().(readable := true, arrival := InFlight(n)), false)
  }

  function HeaderEvents(codec: Codec, a: Action): seq<Event> {
    [InRound(Flushes(HEADER_SIZE + |codec.encodeRequest(Asked(a))|)), Takes(0), Replies(0, GOOD_HOST),
     InRound(Hears(HEADER_SIZE))]
  }

  function ExchangeEvents(codec: Codec, a: Action): seq<Event> {
    HeaderEvents(codec, a) + [InRound(Hears(|codec.encodeResponse(Answer(a))|))]
  }

  lemma OneSlot(ps: Parameters, codec: Codec, f: Farm, p: NetPoll)
    requires ps.proxyCount == 0 && |f.c.live| == 1 && |f.peers| == 1
    ensures RoundStep(ps, codec, f, Rounding(p, false)) ==
      if SlotStep(codec, f, 0, Offer(f.peers, 0, p)).Going?
      then AfterScanStep(ps, codec, SlotStep(codec, f, 0, Offer(f.peers, 0, p)).farm, Rounding(p, false))
      else SlotStep(codec, f, 0, Offer(f.peers, 0, p))
  {
    hide SlotStep, AfterScanStep;
    var e := Rounding(p, false);
    assert Joined(f.c, f.peers) == f;
    var polls := Offers(f.peers, e.polls);
    assert polls(0) == Offer(f.peers, 0, p);
    if SlotStep(codec, f, 0, polls(0)).Going? {
      assert ScanStep(codec, SlotStep(codec, f, 0, polls(0)).farm, polls, 0) == SlotStep(codec, f, 0, polls(0));
    }
    assert ScanStep(codec, f, polls, 1) == SlotStep(codec, f, 0, polls(0));
  }

  /** Handing out to one worker. */
  lemma HandsToOne(ps: Parameters, codec: Codec, f: Farm, p: NetPoll)
    requires |f.c.live| == 1 && AllEncodable(Assigning(ps, codec, f.c).live)
    ensures AfterScanStep(ps, codec, f, Rounding(p, false)) == Going(Farm(Assigning(ps, codec, f.c), f.peers))
  {
    hide FrameScript;
    var c, disks := f.c, Rounding(p, false).disks;
    if c.queue != [] && c.live[0].phase.Idle? {
      var w := c.live[0].(frame := c.queue[0], given := c.live[0].given + [c.queue[0]]);
      var next := Issuing(codec, w, FrameScript(ps, c.queue[0]));
      assert RunFrame(ps, codec, c.live[0], c.queue[0], disks(|c.queue|)) == Ok(next);
      assert next.phase.Awaiting?;
      assert FirstIdle(c.live) == Some(0) && c.live[0 := next] == [next];
      assert FirstIdle([next]) == None;
      assert HandOut(ps, codec, Assigning(ps, codec, c), disks) == Scheduler.Running(Assigning(ps, codec, c));
    }
    assert HandOut(ps, codec, c, disks) == Scheduler.Running(Assigning(ps, codec, c));
  }

  lemma BusyIsNotDone(c: Controller)
    requires |c.live| == 1 && c.live[0].phase.Awaiting?
    ensures !Done(c)
  {
  }

  lemma FlushStep(ps: Parameters, codec: Codec, f: Farm, n: nat)
    requires ps.proxyCount == 0 && Issued(codec, f) && n == |f.c.live[0].unsent|
    ensures RoundStep(ps, codec, f, Flushes(n)) == Going(Farm(
      f.c.(live := [f.c.live[0].(unsent := [])]), [f.peers[0].(down := f.c.live[0].unsent)]))
  {
    hide Frame, Asked;
    var p := Calm().(writable := true, send := Accepted(n));
    var w := f.c.live[0];
    var next := Farm(f.c.(live := [w.(unsent := [])]), [f.peers[0].(down := w.unsent)]);
    OneSlot(ps, codec, f, p);
    assert w.unsent[..n] == w.unsent && w.unsent[n..] == [] && [] + w.unsent == w.unsent;
    assert f.c.live[0 := w.(unsent := [])] == [w.(unsent := [])];
    assert f.peers[0 := f.peers[0].(down := w.unsent)] == [f.peers[0].(down := w.unsent)];
    assert SlotStep(codec, f, 0, Offer(f.peers, 0, p)) == Going(next);
    HandsToOne(ps, codec, next, p);
  }

  lemma TakeAndReply(ps: Parameters, codec: Codec, f: Farm, a: Action)
    requires |f.c.live| == 1 && |f.peers| == 1 && Faithful(codec) && Fit(codec, a)
    requires f.peers[0].down == Frame(codec.encodeRequest(Asked(a))) && f.peers[0].up == []
    requires f.peers[0].serving == None && f.peers[0].route == Straight && !f.peers[0].closed
    ensures var taken := f.(peers := [f.peers[0].(down := [], serving := Some(Asked(a)))]);
      && Step(ps, codec, f, Takes(0)) == Going(taken)
      && Step(ps, codec, taken, Replies(0, GOOD_HOST)) == Going(f.(peers := [Peer(
           [], Frame(codec.encodeResponse(Answer(a))), None, f.peers[0].served + [Asked(a)], Straight, false)]))
  {
    hide Asked, Handle;
    var p := f.peers[0];
    assert p.down + [] == p.down;
    Direct.WholeFrame(codec, Asked(a), p.down);
    assert p.down[|p.down|..] == [];
    var taken := f.(peers := [p.(down := [], serving := Some(Asked(a)))]);
    assert f.peers[0 := p.(down := [], serving := Some(Asked(a)))] == taken.peers;
    var r := codec.encodeResponse(Answer(a));
    assert [] + Frame(r) == Frame(r);
    var replied := Peer([], Frame(r), None, p.served + [Asked(a)], Straight, false);
    assert taken.peers[0 := replied] == [replied];
  }

  lemma HeaderStep(ps: Parameters, codec: Codec, f: Farm, payload: Bytes)
    requires ps.proxyCount == 0 && |f.c.live| == 1 && |f.peers| == 1 && 0 < |payload| <= MAX_INCOMING_FILE_SIZE
    requires f.c.live[0].phase.Awaiting? && f.c.live[0].progress == [] && f.c.live[0].unsent == []
    requires f.peers[0].up == Frame(payload)
    ensures RoundStep(ps, codec, f, Hears(HEADER_SIZE)) == Going(Farm(
      f.c.(live := [f.c.live[0].(progress := Header(|payload|))]), [f.peers[0].(up := payload)]))
  {
    hide Dispatch, SizeOf;
    var p := Calm().(readable := true, arrival := InFlight(HEADER_SIZE));
    var w, h := f.c.live[0], Header(|payload|);
    var next := Farm(f.c.(live := [w.(progress := h)]), [f.peers[0].(up := payload)]);
    OneSlot(ps, codec, f, p);
    HeaderRoundTrip(|payload|);
    assert f.peers[0].up[..HEADER_SIZE] == h && f.peers[0].up[HEADER_SIZE..] == payload;
    assert h[..HEADER_SIZE] == h && [] + h == h;
    assert ReceiveOn(codec, w, Offered(h), GOOD_DISK) == Ok(w.(progress := h));
    assert f.c.live[0 := w.(progress := h)] == next.c.live && f.peers[0 := f.peers[0].(up := payload)] == next.peers;
    assert SlotStep(codec, f, 0, Offer(f.peers, 0, p)) == Going(next);
    HandsToOne(ps, codec, next, p);
  }

  lemma BodyReceived(codec: Codec, w: WorkerState, a: Action, rest: seq<Action>)
    requires Faithful(codec) && Fit(codec, a) && w.phase == Awaiting(a, rest) && w.unsent == []
    requires w.progress == Header(|codec.encodeResponse(Answer(a))|)
    ensures ReceiveOn(codec, w, Offered(codec.encodeResponse(Answer(a))), GOOD_DISK)
         == Ok(Issuing(codec, Answered(w, Exchange(a, Answer(a))), rest))
    ensures Want(w.progress) == |codec.encodeResponse(Answer(a))|
  {
    hide Asked, Handle, Issue, Issuing;
    var payload := codec.encodeResponse(Answer(a));
    HeaderRoundTrip(|payload|);
    assert w.progress + payload == Frame(payload) && Frame(payload) + [] == Frame(payload);
    PrefixWants(Frame(payload), [], payload);
    PrefixWants(w.progress, payload, payload);
    assert payload[..|payload|] == payload;
    GoodAnswer(a);
    var full := w.(progress := Frame(payload));
    assert Receive(w.progress, Offered(payload)) == Progressed(Frame(payload));
    assert Dispatch(codec, full, GOOD_DISK) == Issue(codec, Answered(full, Exchange(a, Answer(a))), rest, GOOD_DISK);
    assert Answered(full, Exchange(a, Answer(a))) == Answered(w, Exchange(a, Answer(a)));
  }

  lemma BodyStep(ps: Parameters, codec: Codec, f: Farm, a: Action, rest: seq<Action>)
    requires ps.proxyCount == 0 && |f.c.live| == 1 && |f.peers| == 1 && Faithful(codec) && Fit(codec, a)
    requires f.c.live[0].phase == Awaiting(a, rest) && f.c.live[0].unsent == []
    requires f.c.live[0].progress == Header(|codec.encodeResponse(Answer(a))|)
    requires f.peers[0].up == codec.encodeResponse(Answer(a))
    requires AllFit(codec, rest) && (f.c.queue != [] ==> AllFit(codec, FrameScript(ps, f.c.queue[0])))
    ensures RoundStep(ps, codec, f, Hears(|codec.encodeResponse(Answer(a))|)) == Going(Farm(
      Assigning(ps, codec, f.c.(live := [Issuing(codec, Answered(f.c.live[0], Exchange(a, Answer(a))), rest)])),
      [f.peers[0].(up := [])]))
  {
    hide Asked, Handle, ReceiveOn, Header, Fit, FrameScript, Want, Issuing, Assigning, AfterScanStep;
    var payload := codec.encodeResponse(Answer(a));
    var p := Calm().(readable := true, arrival := InFlight(|payload|));
    var w := f.c.live[0];
    var answered := Answered(w, Exchange(a, Answer(a)));
    var next := Issuing(codec, answered, rest);
    OneSlot(ps, codec, f, p);
    BodyReceived(codec, w, a, rest);
    IssuedIsEncodable(codec, answered, rest);
    assert f.peers[0].up[..|payload|] == payload && payload[|payload|..] == [];
    assert f.c.live[0 := next] == [next] && f.peers[0 := f.peers[0].(up := [])] == [f.peers[0].(up := [])];
    var after := Farm(f.c.(live := [next]), [f.peers[0].(up := [])]);
    assert SlotStep(codec, f, 0, Offer(f.peers, 0, p)) == Going(after);
    AssignedIsEncodable(ps, codec, after.c);
    HandsToOne(ps, codec, after, p);
  }

  lemma IssuedIsEncodable(codec: Codec, w: WorkerState, rest: seq<Action>)
    requires AllFit(codec, rest) && w.unsent == []
    ensures Encodable(Issuing(codec, w, rest))
  {
    hide Asked, Handle;
    assert rest != [] ==> Fit(codec, rest[0]);
  }

  lemma AssignedIsEncodable(ps: Parameters, codec: Codec, c: Controller)
    requires |c.live| == 1 && Encodable(c.live[0])
    requires c.queue != [] ==> AllFit(codec, FrameScript(ps, c.queue[0]))
    ensures AllEncodable(Assigning(ps, codec, c).live)
  {
    hide Asked, Handle, FrameScript;
    if c.queue != [] {
      assert Fit(codec, FrameScript(ps, c.queue[0])[0]);
    }
  }

  /** The request has been answered, and the header of the response been received. */
  function AfterHeader(codec: Codec, f: Farm): Farm
    requires |f.c.live| == 1 && |f.peers| == 1 && f.c.live[0].phase.Awaiting?
  {
    var w := f.c.live[0];
    var payload := codec.encodeResponse(Answer(w.phase.pending));
    Farm(f.c.(live := [w.(unsent := [], progress := Header(|payload|))]),
         [Peer([], payload, None, f.peers[0].served + [Asked(w.phase.pending)], Straight, false)])
  }

  lemma UpToHeader(ps: Parameters, codec: Codec, f: Farm, more: seq<Event>)
    requires ps.proxyCount == 0 && Faithful(codec) && Issued(codec, f) && Fit(codec, f.c.live[0].phase.pending)
    ensures RunFarm(ps, codec, f, HeaderEvents(codec, f.c.live[0].phase.pending) + more)
         == RunFarm(ps, codec, AfterHeader(codec, f), more)
  {
    hide Asked, Handle, RunFarm, RoundStep, Frame, Header, Direct.TakeStep, Direct.ReplyStep, Done;
    var w, p := f.c.live[0], f.peers[0];
    var a := w.phase.pending;
    var payload := codec.encodeResponse(Answer(a));
    var es := HeaderEvents(codec, a);
    var f1 := Farm(f.c.(live := [w.(unsent := [])]), [p.(down := w.unsent)]);
    var f2 := f1.(peers := [p.(serving := Some(Asked(a)))]);
    var f3 := f1.(peers := [Peer([], Frame(payload), None, p.served + [Asked(a)], Straight, false)]);
    Lengths(codec.encodeRequest(Asked(a)));
    FlushStep(ps, codec, f, |w.unsent|);
    TakeAndReply(ps, codec, f1, a);
    HeaderStep(ps, codec, f3, payload);
    BusyIsNotDone(f.c);
    BusyIsNotDone(f1.c);
    Steps(ps, codec, f3, es[3], AfterHeader(codec, f), more);
    Steps(ps, codec, f2, es[2], f3, [es[3]] + more);
    Steps(ps, codec, f1, es[1], f2, [es[2]] + ([es[3]] + more));
    Steps(ps, codec, f, es[0], f1, [es[1]] + ([es[2]] + ([es[3]] + more)));
    assert es + more == [es[0]] + ([es[1]] + ([es[2]] + ([es[3]] + more)));
  }

  /** In five events the pending request is sent, taken, answered and received. */
  lemma OneExchange(ps: Parameters, codec: Codec, f: Farm, more: seq<Event>)
    requires ps.proxyCount == 0 && Faithful(codec) && Issued(codec, f) && Fit(codec, f.c.live[0].phase.pending)
    requires AllFit(codec, f.c.live[0].phase.rest)
    requires f.c.queue != [] ==> AllFit(codec, FrameScript(ps, f.c.queue[0]))
    ensures RunFarm(ps, codec, f, ExchangeEvents(codec, f.c.live[0].phase.pending) + more)
         == RunFarm(ps, codec, AfterExchange(ps, codec, f), more)
  {
    hide Asked, Handle, RunFarm, RoundStep, Frame, Header, HeaderEvents, Issuing, Assigning, FrameScript, Done;
    var w := f.c.live[0];
    var a, payload := w.phase.pending, codec.encodeResponse(Answer(w.phase.pending));
    var last := InRound(Hears(|payload|));
    var answered := AfterHeader(codec, f);
    BodyStep(ps, codec, answered, a, w.phase.rest);
    assert Answered(answered.c.live[0], Exchange(a, Answer(a))) == Answered(w.(unsent := []), Exchange(a, Answer(a)));
    BusyIsNotDone(answered.c);
    Steps(ps, codec, answered, last, AfterExchange(ps, codec, f), more);
    UpToHeader(ps, codec, f, [last] + more);
    assert ExchangeEvents(codec, a) + more == HeaderEvents(codec, a) + ([last] + more);
  }

  lemma Lengths(payload: Bytes)
    ensures |Frame(payload)| == HEADER_SIZE + |payload|
  {
  }

  // All that is queued.

  /** All requests there will be are within the limits. */
  predicate Manageable(ps: Parameters, codec: Codec, queue: seq<int>) {
    AllFit(codec, SetupScript(ps)) && forall k :: 0 <= k < |queue| ==> AllFit(codec, FrameScript(ps, queue[k]))
  }

  lemma AfterIsIssued(ps: Parameters, codec: Codec, f: Farm)
    requires Issued(codec, f)
    ensures var next := AfterExchange(ps, codec, f); var rest := f.c.live[0].phase.rest;
      && next.c.dead == f.c.dead
      && if rest != [] then
           Issued(codec, next) && next.c.queue == f.c.queue && next.c.live[0].phase == Awaiting(rest[0], rest[1..])
         else if f.c.queue != [] then
           && Issued(codec, next) && next.c.queue == f.c.queue[1..]
           && next.c.live[0].phase
              == Awaiting(FrameScript(ps, f.c.queue[0])[0], FrameScript(ps, f.c.queue[0])[1..])
         else
           Done(next.c)
  {
    hide FrameScript, Asked, Handle, Frame;
  }

  lemma FreshJoins(ps: Parameters, codec: Codec, c: Controller)
    requires c.live == [StartWorker(ps, codec, -1)]
    ensures Joined(c, []) == Farm(c, [NEW_PEER])
  {
    assert NewPeer(c.live[0]) == NEW_PEER;
    assert Joined(c, []).peers == [NEW_PEER];
  }
}
