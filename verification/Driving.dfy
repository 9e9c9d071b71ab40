/** From wherever a farm has got to, its requests can be answered one after the other. */
module Driving {
  import opened Wrappers
  import opened Framing
  import opened Outgoing
  import opened Protocol
  import opened Serving
  import opened Scheduler
  import opened Guarantees
  import opened Network
  import opened OneWorker
  import Totals
  import Relay
  import Descriptors
  import RelayedLink
  import Direct = Connection

  // One connection.

  /** The response on its way will be accepted; its size is looked at when the header is complete. */
  predicate Acceptable(codec: Codec, l: Direct.Link, r: Response) {
    && l.w.phase.Awaiting? && Direct.Replying(codec, l, r)
    && Refusal(l.w.phase.pending, r, GOOD_DISK) == None
    && (|l.w.progress| < HEADER_SIZE ==> |codec.encodeResponse(r)| <= MAX_INCOMING_FILE_SIZE)
  }

  /** No failing answer is pending, and all that is still to be asked is within the limits. */
  ghost predicate Promising(codec: Codec, l: Direct.Link) {
    && AllFit(codec, Outstanding(l.w.phase))
    && (l.up != [] ==> exists r :: Acceptable(codec, l, r))
  }

  /** No answer came in, or one did; the index of a proxy is given up with the first one. */
  predicate Evolved(w: WorkerState, next: WorkerState) {
    && next.given == w.given && |next.done| >= |w.done|
    && (next.proxyIndex == w.proxyIndex || next.proxyIndex == -1)
    && (|next.done| == |w.done| ==> next == w.(unsent := next.unsent, progress := next.progress))
  }

  function Ahead(l: Direct.Link): Direct.Event {
    Direct.Towards(l, GOOD_HOST, GOOD_DISK)
  }

  lemma RestFits(codec: Codec, w: WorkerState)
    requires w.phase.Awaiting? && AllFit(codec, Outstanding(w.phase))
    ensures Fit(codec, w.phase.pending) && AllFit(codec, w.phase.rest)
  {
    hide Fit;
    assert Outstanding(w.phase)[0] == w.phase.pending && Outstanding(w.phase)[1..] == w.phase.rest;
  }

  /** Whatever content was read for a request, a good machine gives the one answer to it. */
  lemma OneAnswer(q: Request, a: Action)
    requires Direct.Asks(q, a)
    ensures Handle(q, GOOD_HOST) == Answer(a)
  {
  }

  lemma RepliesWell(ps: Parameters, codec: Codec, l: Direct.Link)
    requires Direct.LinkInv(ps, codec, l) && Faithful(codec) && l.w.phase.Awaiting? && Promising(codec, l)
    requires Direct.Stage(l) == 1
    ensures Direct.ReplyStep(codec, l, GOOD_HOST).Up? && Promising(codec, Direct.ReplyStep(codec, l, GOOD_HOST).link)
  {
    hide WorkerInv, Direct.AllAsk, Direct.Asks, Handle, Frame, Fit;
    RestFits(codec, l.w);
    var a := l.w.phase.pending;
    var q := l.serving.value;
    assert Direct.Working(l, q) && Direct.Asks(q, a);
    OneAnswer(q, a);
    assert Fit(codec, a);
    AnswerAccepted(codec, a);
    var next := Direct.ReplyStep(codec, l, GOOD_HOST).link;
    assert [] + Frame(codec.encodeResponse(Answer(a))) == Frame(codec.encodeResponse(Answer(a)));
    assert [] + [] + Frame(codec.encodeResponse(Answer(a))) == Frame(codec.encodeResponse(Answer(a)));
    assert |Frame(codec.encodeResponse(Answer(a)))| > 0 by { Lengths(codec.encodeResponse(Answer(a))); }
    assert Acceptable(codec, next, Answer(a));
  }

  lemma AnswerAccepted(codec: Codec, a: Action)
    requires Fit(codec, a)
    ensures Refusal(a, Answer(a), GOOD_DISK) == None
    ensures |codec.encodeResponse(Answer(a))| <= MAX_INCOMING_FILE_SIZE <= MAX_MESSAGE_SIZE
  {
    GoodAnswer(a);
  }

  lemma ArrivesWell(ps: Parameters, codec: Codec, l: Direct.Link)
    requires Direct.LinkInv(ps, codec, l) && Faithful(codec) && l.w.phase.Awaiting? && Promising(codec, l)
    requires Direct.Stage(l) == 0
    ensures Direct.ArriveStep(codec, l, 1, GOOD_DISK).Up?
    ensures Promising(codec, Direct.ArriveStep(codec, l, 1, GOOD_DISK).link)
  {
    hide WorkerInv, Direct.AllAsk, Direct.Asks, Frame, Fit, Issuing;
    RestFits(codec, l.w);
    var r: Response :| Acceptable(codec, l, r);
    var payload := codec.encodeResponse(r);
    var offered := l.up[..1];
    ReceivePart(l.w.progress, l.up, payload, offered);
    var progress := l.w.progress + offered;
    PrefixWants(progress, l.up[1..], payload);
    var w := l.w.(progress := progress);
    if Complete(progress) {
      assert Payload(progress) == payload;
      var answered := Answered(w, Exchange(l.w.phase.pending, r));
      var next := Issuing(codec, answered, l.w.phase.rest);
      assert ReceiveOn(codec, l.w, Offered(offered), GOOD_DISK) == Ok(next);
      IssuedIsEncodable(codec, answered, l.w.phase.rest);
      IssuedFits(codec, answered, l.w.phase.rest);
    } else {
      assert Acceptable(codec, Direct.ArriveStep(codec, l, 1, GOOD_DISK).link, r);
    }
  }

  lemma IssuedFits(codec: Codec, w: WorkerState, rest: seq<Action>)
    requires AllFit(codec, rest)
    ensures rest == [] ==> Issuing(codec, w, rest).phase == Idle
    ensures AllFit(codec, Outstanding(Issuing(codec, w, rest).phase))
  {
    hide Fit;
    if rest != [] {
      assert [rest[0]] + rest[1..] == rest;
    }
  }

  /** The outstanding request gets nearer to its response, and all stays well. */
  lemma GoesAhead(ps: Parameters, codec: Codec, l: Direct.Link)
    requires Direct.LinkInv(ps, codec, l) && Faithful(codec) && l.w.phase.Awaiting? && Promising(codec, l)
    ensures var next := Direct.Step(ps, codec, l, Ahead(l));
      && next.Up? && Direct.LinkInv(ps, codec, next.link) && Promising(codec, next.link)
      && Direct.Nearer(l, next.link)
      && Evolved(l.w, next.link.w)
  {
    hide Direct.LinkInv, Direct.ArriveStep, Direct.ReplyStep, Promising;
    Direct.NeverStuck(ps, codec, l, GOOD_HOST, GOOD_DISK);
    Direct.StepKeeps(ps, codec, l, Ahead(l));
    match Direct.Stage(l)
    case 3 => SendsWell(ps, codec, l);
    case 2 => Direct.TakesNearer(ps, codec, l); TakesWell(ps, codec, l);
    case 1 => RepliesWell(ps, codec, l); ReplyLeaves(codec, l);
    case _ => ArrivesWell(ps, codec, l); ArriveEvolves(ps, codec, l);
  }

  lemma SendsWell(ps: Parameters, codec: Codec, l: Direct.Link)
    requires Direct.LinkInv(ps, codec, l) && Promising(codec, l) && l.w.unsent != []
    ensures Promising(codec, Direct.FlushStep(l, 1))
  {
    hide WorkerInv, Frame, Direct.Asks, Fit;
  }

  lemma TakesWell(ps: Parameters, codec: Codec, l: Direct.Link)
    requires Direct.LinkInv(ps, codec, l) && Promising(codec, l) && l.down != [] && Direct.TakeStep(codec, l).Up?
    ensures Promising(codec, Direct.TakeStep(codec, l).link)
    ensures Direct.TakeStep(codec, l).link.w == l.w
  {
    hide WorkerInv, Frame, Direct.Asks, Fit, ReceiveMessage;
  }

  lemma ReplyLeaves(codec: Codec, l: Direct.Link)
    requires Direct.ReplyStep(codec, l, GOOD_HOST).Up?
    ensures Direct.ReplyStep(codec, l, GOOD_HOST).link.w == l.w
  {
    hide Handle;
  }

  lemma ArriveEvolves(ps: Parameters, codec: Codec, l: Direct.Link)
    requires Direct.LinkInv(ps, codec, l) && Direct.ArriveStep(codec, l, 1, GOOD_DISK).Up?
    ensures Evolved(l.w, Direct.ArriveStep(codec, l, 1, GOOD_DISK).link.w)
  {
    hide WorkerInv, RequestFor, FileOf, Refusal;
    var offered := l.up[..Min(1, |l.up|)];
    ReceiveKeeps(ps, codec, l.w, Offered(offered), GOOD_DISK);
    if offered == [] {
      assert l.w == l.w.(progress := l.w.progress);
    }
  }

  /** A response that is not there completely does not complete a request. */
  lemma NotYet(ps: Parameters, codec: Codec, l: Direct.Link)
    requires Direct.LinkInv(ps, codec, l) && l.w.phase.Awaiting? && |l.up| >= 2
    requires Direct.ArriveStep(codec, l, 1, GOOD_DISK).Up?
    ensures Direct.ArriveStep(codec, l, 1, GOOD_DISK).link.w.done == l.w.done
  {
    hide WorkerInv, Direct.AllAsk, Direct.Asks, Frame, Dispatch;
    var r: Response :| r.requestType == l.w.phase.pending.Type() && Direct.Replying(codec, l, r);
    var offered := l.up[..1];
    ReceivePart(l.w.progress, l.up, codec.encodeResponse(r), offered);
    PrefixWants(l.w.progress + offered, l.up[1..], codec.encodeResponse(r));
  }

  // The way through a proxy.

  /** Bytes between the two ends that neither can have yet. */
  function OnWay(p: Peer): nat {
    match p.route
    case Straight => 0
    case Proxied(downIn, upIn, conn) => |downIn| + |conn.c2w| + |upIn| + |conn.w2c|
  }

  /** The moves a proxy has to make for all bytes to get through. */
  function ToMove(p: Peer): nat {
    match p.route
    case Straight => 0
    case Proxied(downIn, upIn, conn) =>
      2 * (|downIn| + |upIn|) + |conn.c2w| + |conn.w2c| + (if conn.workerFd == Relay.NONE then 1 else 0)
      + (if conn.controllerFd == Relay.NONE then 1 else 0)
  }

  /** The two sides have different descriptors. */
  predicate SidesApart(p: Peer) {
    p.route.Proxied? ==>
      && p.route.conn.workerFd >= Relay.NONE && p.route.conn.controllerFd >= Relay.NONE
      && (p.route.conn.workerFd != Relay.NONE ==> p.route.conn.workerFd != p.route.conn.controllerFd)
  }

  /** A descriptor that the other side does not have. */
  function FreeFd(taken: int): int {
    if taken == 0 then 1 else 0
  }

  function Chunk(bytes: Bytes): Bytes {
    bytes[..Min(|bytes|, Relay.TMP_BUFFER_SIZE)]
  }

  /** Both sides connect, then everything that has arrived is received and sent on. */
  function NextMove(p: Peer): Descriptors.Move
    requires p.route.Proxied?
  {
    var conn := p.route.conn;
    if conn.workerFd == Relay.NONE then Descriptors.JoinWorker(FreeFd(conn.controllerFd))
    else if conn.controllerFd == Relay.NONE then Descriptors.JoinController(FreeFd(conn.workerFd))
    else if p.route.downIn != [] then Descriptors.Receive(conn.controllerFd, Chunk(p.route.downIn))
    else if conn.c2w != [] then Descriptors.Send(conn.workerFd, |conn.c2w|)
    else if p.route.upIn != [] then Descriptors.Receive(conn.workerFd, Chunk(p.route.upIn))
    else Descriptors.Send(conn.controllerFd, |conn.w2c|)
  }

  lemma MovesWell(ps: Parameters, codec: Codec, w: WorkerState, p: Peer)
    requires p.route.Proxied? && !p.closed && SidesApart(p) && OnWay(p) > 0
    ensures var a := Act(ps, codec, w, p, RelayedLink.InProxy(NextMove(p)));
      && a.Acts? && LinkOf(w, a.peer) == LinkOf(w, p) && ToMove(a.peer) < ToMove(p)
      && !a.peer.closed && SidesApart(a.peer)
  {
    hide LinkOf;
    var m := NextMove(p);
    RelayedLink.ProxyMoves(Relayed(w, p), m);
    FlatLink(w, p);
    var next := RelayedLink.MoveStep(Relayed(w, p), m).link;
    FlatPeer(next, p.closed);
  }

  // What a connection has to be like to be driven.

  /** What the far end has closed holds all that the controller still waits for. */
  predicate Delivered(w: WorkerState, p: Peer) {
    p.closed && w.phase.Awaiting? ==> w.phase.rest == [] && p.up != [] && OnWay(p) == 0
  }

  ghost predicate Good(codec: Codec, w: WorkerState, p: Peer) {
    Promising(codec, LinkOf(w, p)) && SidesApart(p) && Delivered(w, p)
  }

  ghost predicate AllGood(codec: Codec, f: Farm) {
    forall k :: 0 <= k < |f.peers| && k < |f.c.live| ==> Good(codec, f.c.live[k], f.peers[k])
  }

  predicate AllCarried(ps: Parameters, live: seq<WorkerState>) {
    forall i: nat :: i < ps.proxyCount ==> Carries(live, i)
  }

  /** Nothing is left to be handed out to anybody. */
  predicate Settled(c: Controller) {
    c.queue == [] || FirstIdle(c.live) == None
  }

  /** No frame would go to a worker that has gone. */
  predicate Manned(f: Farm) {
    f.c.queue != [] ==>
      forall k :: 0 <= k < |f.peers| && k < |f.c.live| && f.peers[k].closed ==> f.c.live[k].phase.Awaiting?
  }

  ghost predicate Fine(ps: Parameters, codec: Codec, f: Farm) {
    && FarmInv(ps, codec, f) && AllGood(codec, f) && AllCarried(ps, f.c.live) && Manageable(ps, codec, f.c.queue)
    && Manned(f)
  }

  /** Worker k and its peer are as these now. */
  function Put(f: Farm, k: nat, w: WorkerState, p: Peer): Farm
    requires k < |f.c.live| && k < |f.peers|
  {
    Farm(f.c.(live := f.c.live[k := w]), f.peers[k := p])
  }

  lemma SameIndices(ps: Parameters, a: seq<WorkerState>, b: seq<WorkerState>)
    requires AllCarried(ps, a) && |a| == |b| && forall k :: 0 <= k < |a| ==> a[k].proxyIndex == b[k].proxyIndex
    ensures AllCarried(ps, b)
  {
    forall i: nat | i < ps.proxyCount ensures Carries(b, i) {
      assert Carries(a, i);
      var k :| 0 <= k < |a| && a[k].proxyIndex == i;
      assert b[k].proxyIndex == i;
    }
  }

  lemma PutKeeps(ps: Parameters, codec: Codec, f: Farm, k: nat, w: WorkerState, p: Peer)
    requires Fine(ps, codec, f) && k < |f.peers| && Direct.LinkInv(ps, codec, LinkOf(w, p)) && Good(codec, w, p)
    requires w.proxyIndex == f.c.live[k].proxyIndex && (p.closed ==> w.phase.Awaiting?)
    ensures Fine(ps, codec, Put(f, k, w, p))
  {
    hide Direct.LinkInv, Good, Manageable, AllCarried;
    SameIndices(ps, f.c.live, f.c.live[k := w]);
  }

  // Rounds in which nobody else has an event.

  /** Only slot k has an event. */
  function At(k: nat, e: NetPoll): NetEvents {
    NetEvents(_ => true, j => if j == k then e else Calm(), false, _ => GOOD_DISK)
  }

  predicate IsCalm(e: Poll) {
    !e.readable && !e.writable && !e.hungUp
  }

  lemma {:induction false} CalmScan(codec: Codec, f: Farm, polls: nat -> Poll, n: nat)
    requires forall j: nat :: j < n ==> IsCalm(polls(j))
    ensures ScanStep(codec, f, polls, n) == Going(f)
    decreases n
  {
    if n > 0 {
      CalmScan(codec, f, polls, n - 1);
    }
  }

  lemma {:induction false} OneEventScan(codec: Codec, f: Farm, polls: nat -> Poll, k: nat, n: nat)
    requires k < n && forall j: nat :: j < n && j != k ==> IsCalm(polls(j))
    ensures ScanStep(codec, f, polls, n) == SlotStep(codec, f, k, polls(k))
    decreases n
  {
    if n == k + 1 {
      if SlotStep(codec, f, k, polls(k)).Going? {
        CalmScan(codec, SlotStep(codec, f, k, polls(k)).farm, polls, k);
      }
    } else {
      assert IsCalm(polls(n - 1)) && SlotStep(codec, f, n - 1, polls(n - 1)) == Going(f);
      OneEventScan(codec, f, polls, k, n - 1);
    }
  }

  lemma {:induction false} NobodyToConnect(ps: Parameters, codec: Codec, c: Controller, connects: nat -> bool, i: nat)
    requires AllCarried(ps, c.live)
    ensures Connect(ps, codec, c, connects, i) == Scheduler.Running(c)
    decreases ps.proxyCount - i
  {
    if i < ps.proxyCount {
      NobodyToConnect(ps, codec, c, connects, i + 1);
    }
  }

  lemma OneEventRound(ps: Parameters, codec: Codec, f: Farm, k: nat, e: NetPoll)
    requires AllCarried(ps, f.c.live) && k < |f.c.live| == |f.peers|
    ensures RoundStep(ps, codec, f, At(k, e)) == match SlotStep(codec, f, k, Offer(f.peers, k, e))
      case Going(g) => AfterScanStep(ps, codec, g, At(k, e))
      case other => other
  {
    hide SlotStep, AfterScanStep;
    NobodyToConnect(ps, codec, f.c, At(k, e).connects, 0);
    assert Joined(f.c, f.peers) == f;
    var polls := Offers(f.peers, At(k, e).polls);
    assert polls(k) == Offer(f.peers, k, e);
    forall j: nat | j < |f.c.live| && j != k ensures IsCalm(polls(j)) {
      assert polls(j) == Offer(f.peers, j, Calm());
    }
    OneEventScan(codec, f, polls, k, |f.c.live|);
  }

  // The next event of one connection.

  /** The proxy's part in it did not change. */
  predicate SameRoad(p: Peer, q: Peer) {
    && q.closed == p.closed && (q.route.Proxied? <==> p.route.Proxied?)
    && (p.route.Proxied? ==> q.route.conn == p.route.conn)
  }

  function Flushing(): NetPoll {
    Calm().(writable := true, send := Accepted(1))
  }

  function Hearing(): NetPoll {
    Calm().(readable := true, arrival := InFlight(1))
  }

  /** What brings the outstanding request of worker k nearer to its answer. */
  function NextEvent(f: Farm, k: nat): Event
    requires k < |f.c.live| && k < |f.peers|
  {
    var l, p := LinkOf(f.c.live[k], f.peers[k]), f.peers[k];
    if l.w.unsent != [] then InRound(At(k, Flushing()))
    else if p.route.Proxied? && OnWay(p) > 0 then Moves(k, NextMove(p))
    else if l.down != [] then Takes(k)
    else if l.serving.Some? then Replies(k, GOOD_HOST)
    else InRound(At(k, Hearing()))
  }

  lemma FlushSlot(codec: Codec, f: Farm, k: nat)
    requires k < |f.c.live| == |f.peers|
    ensures var w := f.c.live[k].(unsent := f.c.live[k].unsent[Min(1, |f.c.live[k].unsent|)..]);
      var p := SentDown(f.c.live[k], f.peers[k], Accepted(1));
      && SlotStep(codec, f, k, Offer(f.peers, k, Flushing())) == Going(Put(f, k, w, p))
      && LinkOf(w, p) == Direct.FlushStep(LinkOf(f.c.live[k], f.peers[k]), 1)
      && SameRoad(f.peers[k], p)
  {
    SendOne(f.c.live[k], f.peers[k], Accepted(1));
  }

  lemma HearSlot(ps: Parameters, codec: Codec, f: Farm, k: nat) returns (w: WorkerState, p: Peer)
    requires k < |f.c.live| == |f.peers| && f.peers[k].up != []
    requires Direct.ArriveStep(codec, LinkOf(f.c.live[k], f.peers[k]), 1, GOOD_DISK).Up?
    ensures SlotStep(codec, f, k, Offer(f.peers, k, Hearing())) == Going(Put(f, k, w, p))
    ensures LinkOf(w, p) == Direct.ArriveStep(codec, LinkOf(f.c.live[k], f.peers[k]), 1, GOOD_DISK).link
    ensures SameRoad(f.peers[k], p) && OnWay(p) == OnWay(f.peers[k]) && (|f.peers[k].up| >= 2 ==> p.up != [])
  {
    hide ReceiveOn, Want;
    var l, was := LinkOf(f.c.live[k], f.peers[k]), f.peers[k];
    var offered := was.up[..1];
    assert l.up[..1] == offered && offered != [];
    w := ReceiveOn(codec, l.w, Offered(offered), GOOD_DISK).value;
    p := Network.Received(l.w, was, Offered(offered));
    var n := Min(1, Want(l.w.progress));
    assert FlatUp(p) == l.up[n..];
    assert Min(Min(1, Want(l.w.progress)), |was.up|) == n;
  }

  /** A worker takes or answers a request as if its connection were direct. */
  lemma ActsWell(ps: Parameters, codec: Codec, w: WorkerState, p: Peer, e: Direct.Event)
    requires !p.closed && (e.Take? || e.Reply?) && (e.Take? ==> OnWay(p) == 0)
    requires Direct.Step(ps, codec, LinkOf(w, p), e).Up?
    ensures var a := Act(ps, codec, w, p, RelayedLink.AtEnds(e));
      && a.Acts? && LinkOf(w, a.peer) == Direct.Step(ps, codec, LinkOf(w, p), e).link && SameRoad(p, a.peer)
  {
    hide Direct.Step, RelayedLink.Step, LinkOf;
    if p.route.Straight? {
      FarLeavesNearDirectly(ps, codec, LinkOf(w, p), e);
      LinksWorker(w, p);
    } else {
      var l := Relayed(w, p);
      FlatLink(w, p);
      RelayedLink.RelayRefines(ps, codec, l, RelayedLink.AtEnds(e));
      AmountsToItself(ps, codec, w, p, e);
      RoadStays(ps, codec, l, e);
      FarLeavesNear(ps, codec, l, RelayedLink.AtEnds(e));
      RelayedWorker(w, p);
      FlatPeer(RelayedLink.Step(ps, codec, l, RelayedLink.AtEnds(e)).link, p.closed);
    }
  }

  lemma RoadStays(ps: Parameters, codec: Codec, l: RelayedLink.Link, e: Direct.Event)
    ensures var status := RelayedLink.Step(ps, codec, l, RelayedLink.AtEnds(e));
      status.Ended? || (status.Up? && status.link.conn == l.conn)
  {
    hide Direct.Step;
  }

  /** All that was sent has arrived, so the worker sees what it would see directly. */
  lemma AmountsToItself(ps: Parameters, codec: Codec, w: WorkerState, p: Peer, e: Direct.Event)
    requires p.route.Proxied? && (e.Take? || e.Reply?) && (e.Take? ==> OnWay(p) == 0)
    ensures Direct.Step(ps, codec, LinkOf(w, p), RelayedLink.Amounts(codec, Relayed(w, p), RelayedLink.AtEnds(e)))
         == Direct.Step(ps, codec, LinkOf(w, p), e)
  {
    hide Direct.Step, ReceiveMessage;
    if e.Take? {
      assert FlatDown(p) == p.down;
      if ReceiveMessage(codec, p.down).Waiting? {
        RelayedLink.NothingMoves(ps, codec, LinkOf(w, p));
        TakesNothing(ps, codec, LinkOf(w, p));
      }
    }
  }

  lemma TakesNothing(ps: Parameters, codec: Codec, l: Direct.Link)
    requires ReceiveMessage(codec, l.down).Waiting?
    ensures Direct.Step(ps, codec, l, Direct.Take) == Direct.Up(l)
  {
    hide ReceiveMessage;
  }

  /** Nearer to the response, counting also what is on the way through a proxy. */
  predicate Lower(w: WorkerState, p: Peer, v: WorkerState, q: Peer) {
    var l, m := LinkOf(w, p), LinkOf(v, q);
    || Direct.Stage(m) < Direct.Stage(l)
    || (Direct.Stage(m) == Direct.Stage(l)
        && (|m.w.unsent| + |m.up| < |l.w.unsent| + |l.up|
            || (|m.w.unsent| + |m.up| == |l.w.unsent| + |l.up| && ToMove(q) < ToMove(p))))
  }

  /** A connection to a proxy that is still pending, or one that has been closed. */
  predicate Holding(w: WorkerState, p: Peer) {
    w.proxyIndex != -1 || p.closed
  }

  /** One byte more and the worker is idle. */
  predicate OneByte(w: WorkerState, p: Peer) {
    w.phase.Awaiting? && w.phase.rest == [] && |p.up| == 1 && OnWay(p) == 0
  }

  /** Worker k after its next event. */
  ghost predicate Advanced(ps: Parameters, codec: Codec, w: WorkerState, p: Peer, v: WorkerState, q: Peer) {
    && Direct.LinkInv(ps, codec, LinkOf(v, q)) && Good(codec, v, q) && Evolved(w, v) && q.closed == p.closed
    && (|v.done| > |w.done| || Lower(w, p, v, q)) && (Holding(w, p) ==> |v.done| == |w.done|)
  }

  /** What keeps worker k from holding its last byte back. */
  predicate MayAdvance(w: WorkerState, p: Peer) {
    w.phase.Awaiting? && (Holding(w, p) ==> w.phase.rest == [] && !OneByte(w, p))
  }

  lemma FlushAdvances(ps: Parameters, codec: Codec, f: Farm, k: nat) returns (w: WorkerState, p: Peer)
    requires Fine(ps, codec, f) && Faithful(codec) && k < |f.peers| && MayAdvance(f.c.live[k], f.peers[k])
    requires f.c.live[k].unsent != []
    ensures SlotStep(codec, f, k, Offer(f.peers, k, Flushing())) == Going(Put(f, k, w, p))
    ensures Advanced(ps, codec, f.c.live[k], f.peers[k], w, p)
  {
    hide Direct.LinkInv, Promising, Manageable, AllCarried, SlotStep, Offer, Put;
    var l := LinkOf(f.c.live[k], f.peers[k]);
    UnsentIsClosedTo(ps, codec, l.w, f.peers[k]);
    GoesAhead(ps, codec, l);
    FlushSlot(codec, f, k);
    w := f.c.live[k].(unsent := f.c.live[k].unsent[Min(1, |f.c.live[k].unsent|)..]);
    p := SentDown(f.c.live[k], f.peers[k], Accepted(1));
  }

  /** What still has to be sent goes to a peer that is there. */
  lemma UnsentIsClosedTo(ps: Parameters, codec: Codec, w: WorkerState, p: Peer)
    requires Direct.LinkInv(ps, codec, LinkOf(w, p)) && w.unsent != []
    ensures FlatUp(p) == [] && p.up == []
  {
    hide WorkerInv, Direct.AllAsk, Direct.Asks, Frame;
  }

  lemma FarAdvances(ps: Parameters, codec: Codec, f: Farm, k: nat) returns (p: Peer)
    requires Fine(ps, codec, f) && Faithful(codec) && k < |f.peers| && MayAdvance(f.c.live[k], f.peers[k])
    requires f.c.live[k].unsent == [] && (NextEvent(f, k).Takes? || NextEvent(f, k).Replies?)
    ensures Step(ps, codec, f, NextEvent(f, k)) == Going(Put(f, k, f.c.live[k], p))
    ensures Advanced(ps, codec, f.c.live[k], f.peers[k], f.c.live[k], p)
  {
    hide Direct.LinkInv, Promising, Manageable, AllCarried, Direct.Step, Act;
    var w, was := f.c.live[k], f.peers[k];
    var l := LinkOf(w, was);
    GoesAhead(ps, codec, l);
    BusyFarEnd(ps, codec, w, was);
    assert Ahead(l) == if NextEvent(f, k).Takes? then Direct.Take else Direct.Reply(GOOD_HOST);
    assert OnWay(was) == 0 || was.route.Straight?;
    ActsWell(ps, codec, w, was, Ahead(l));
    p := Act(ps, codec, w, was, RelayedLink.AtEnds(Ahead(l))).peer;
    assert f.c.live[k := w] == f.c.live;
  }

  /** Nothing can be due from the other end if the worker has not even sent all. */
  lemma BusyFarEnd(ps: Parameters, codec: Codec, w: WorkerState, p: Peer)
    requires Direct.LinkInv(ps, codec, LinkOf(w, p)) && (FlatDown(p) != [] || p.serving.Some?)
    ensures FlatUp(p) == [] && p.up == []
  {
    hide WorkerInv, Direct.AllAsk, Direct.Asks, Frame;
  }

  lemma HearAdvances(ps: Parameters, codec: Codec, f: Farm, k: nat) returns (w: WorkerState, p: Peer)
    requires Fine(ps, codec, f) && Faithful(codec) && k < |f.peers| && MayAdvance(f.c.live[k], f.peers[k])
    requires f.c.live[k].unsent == [] && NextEvent(f, k).InRound?
    ensures SlotStep(codec, f, k, Offer(f.peers, k, Hearing())) == Going(Put(f, k, w, p))
    ensures Advanced(ps, codec, f.c.live[k], f.peers[k], w, p)
  {
    hide Direct.LinkInv, Good, Manageable, AllCarried, SlotStep, Offer, Put, Direct.ArriveStep, Advanced, LinkOf,
      Manned, OneByte, Holding;
    var was := f.peers[k];
    var l := LinkOf(f.c.live[k], was);
    Arrives(ps, codec, f, k);
    w, p := HearSlot(ps, codec, f, k);
    Heard(ps, codec, f.c.live[k], was, w, p);
  }

  lemma Arrives(ps: Parameters, codec: Codec, f: Farm, k: nat)
    requires FarmInv(ps, codec, f) && k < |f.peers| && f.c.live[k].phase.Awaiting?
    requires Faithful(codec) && Good(codec, f.c.live[k], f.peers[k])
    requires f.c.live[k].unsent == [] && NextEvent(f, k).InRound?
    ensures var l := LinkOf(f.c.live[k], f.peers[k]);
      && OnWay(f.peers[k]) == 0 && f.peers[k].up == l.up != []
      && Ahead(l) == Direct.Arrive(1, GOOD_DISK) && Direct.ArriveStep(codec, l, 1, GOOD_DISK).Up?
  {
    hide Direct.LinkInv, Promising, Direct.ArriveStep;
    HearsNext(f, k);
    ArrivedUp(f.peers[k]);
    ArrivesOn(ps, codec, LinkOf(f.c.live[k], f.peers[k]));
  }

  lemma HearsNext(f: Farm, k: nat)
    requires k < |f.c.live| && k < |f.peers| && f.c.live[k].unsent == [] && NextEvent(f, k).InRound?
    ensures Direct.Stage(LinkOf(f.c.live[k], f.peers[k])) == 0 && OnWay(f.peers[k]) == 0
  {
    hide FlatUp, FlatDown;
  }

  lemma ArrivesOn(ps: Parameters, codec: Codec, l: Direct.Link)
    requires Direct.LinkInv(ps, codec, l) && Faithful(codec) && Promising(codec, l) && l.w.phase.Awaiting?
    requires Direct.Stage(l) == 0
    ensures Ahead(l) == Direct.Arrive(1, GOOD_DISK) && Direct.ArriveStep(codec, l, 1, GOOD_DISK).Up? && l.up != []
  {
    hide Direct.LinkInv, Promising, Direct.ArriveStep;
    ResponseIsThere(ps, codec, l);
    ArrivesWell(ps, codec, l);
  }

  lemma Heard(ps: Parameters, codec: Codec, w: WorkerState, p: Peer, v: WorkerState, q: Peer)
    requires Direct.LinkInv(ps, codec, LinkOf(w, p)) && Faithful(codec) && Good(codec, w, p) && MayAdvance(w, p)
    requires Ahead(LinkOf(w, p)) == Direct.Arrive(1, GOOD_DISK) && OnWay(q) == OnWay(p) == 0 && SameRoad(p, q)
    requires LinkOf(w, p).up == p.up != [] && (|p.up| >= 2 ==> q.up != [])
    requires Direct.ArriveStep(codec, LinkOf(w, p), 1, GOOD_DISK) == Direct.Up(LinkOf(v, q))
    ensures Advanced(ps, codec, w, p, v, q)
  {
    hide Direct.LinkInv, Promising, Direct.ArriveStep, Direct.Nearer, Direct.Replying, Acceptable, AllFit;
    GoesAhead(ps, codec, LinkOf(w, p));
    if Holding(w, p) {
      NotYet(ps, codec, LinkOf(w, p));
    }
    NearerIsLower(w, p, v, q);
  }

  lemma NearerIsLower(w: WorkerState, p: Peer, v: WorkerState, q: Peer)
    requires Direct.Nearer(LinkOf(w, p), LinkOf(v, q))
    ensures |v.done| > |w.done| || Lower(w, p, v, q)
  {
  }

  lemma ResponseIsThere(ps: Parameters, codec: Codec, l: Direct.Link)
    requires Direct.LinkInv(ps, codec, l) && l.w.phase.Awaiting? && Direct.Stage(l) == 0
    ensures l.up != []
  {
    hide WorkerInv, Direct.AllAsk, Direct.Asks;
    if q :| Direct.Requesting(codec, l, q) {
      Lengths(codec.encodeRequest(q));
      assert false;
    }
  }

  lemma ArrivedUp(p: Peer)
    requires OnWay(p) == 0
    ensures FlatUp(p) == p.up
  {
  }

  lemma MoveAdvances(ps: Parameters, codec: Codec, f: Farm, k: nat) returns (p: Peer)
    requires Fine(ps, codec, f) && k < |f.peers| && MayAdvance(f.c.live[k], f.peers[k])
    requires NextEvent(f, k).Moves?
    ensures Step(ps, codec, f, NextEvent(f, k)) == Going(Put(f, k, f.c.live[k], p))
    ensures Advanced(ps, codec, f.c.live[k], f.peers[k], f.c.live[k], p)
  {
    hide Direct.LinkInv, Promising, Manageable, AllCarried, Act, LinkOf;
    var w := f.c.live[k];
    MovesWell(ps, codec, w, f.peers[k]);
    p := Act(ps, codec, w, f.peers[k], RelayedLink.InProxy(NextMove(f.peers[k]))).peer;
    assert f.c.live[k := w] == f.c.live;
  }

  // Handing out.

  lemma GivenFine(ps: Parameters, codec: Codec, f: Farm, k: nat, w: WorkerState)
    requires Fine(ps, codec, f) && k < |f.peers| && f.c.queue != [] && !f.peers[k].closed
    requires Direct.LinkInv(ps, codec, LinkOf(w, f.peers[k])) && Promising(codec, LinkOf(w, f.peers[k]))
    requires w.proxyIndex == f.c.live[k].proxyIndex
    ensures Fine(ps, codec, Farm(f.c.(queue := f.c.queue[1..], live := f.c.live[k := w]), f.peers))
  {
    hide Direct.LinkInv, Promising, AllFit, AllCarried, SidesApart;
    SameIndices(ps, f.c.live, f.c.live[k := w]);
  }

  lemma GivenWell(ps: Parameters, codec: Codec, w: WorkerState, p: Peer, frame: int)
    returns (next: WorkerState)
    requires Direct.LinkInv(ps, codec, LinkOf(w, p)) && w.phase.Idle? && AllFit(codec, FrameScript(ps, frame))
    ensures RunFrame(ps, codec, w, frame, GOOD_DISK) == Ok(next)
    ensures Direct.LinkInv(ps, codec, LinkOf(next, p)) && Promising(codec, LinkOf(next, p))
    ensures |Outstanding(next.phase)| == |FrameScript(ps, frame)| && next.proxyIndex == w.proxyIndex
  {
    hide Direct.LinkInv, FrameScript, AllFit, Frame, Asked;
    var given := w.(frame := frame, given := w.given + [frame]);
    next := Issuing(codec, given, FrameScript(ps, frame));
    IdleIsSilent(ps, codec, w, p);
    AssignOne(ps, codec, w, p, frame, GOOD_DISK);
    IssuedIsEncodable(codec, given, FrameScript(ps, frame));
    IssuedFits(codec, given, FrameScript(ps, frame));
    IssuedLength(codec, given, FrameScript(ps, frame));
  }

  lemma IdleIsSilent(ps: Parameters, codec: Codec, w: WorkerState, p: Peer)
    requires Direct.LinkInv(ps, codec, LinkOf(w, p)) && w.phase.Idle?
    ensures FlatUp(p) == [] && w.unsent == []
  {
  }

  lemma IssuedLength(codec: Codec, w: WorkerState, rest: seq<Action>)
    ensures |Outstanding(Issuing(codec, w, rest).phase)| == |rest|
  {
  }

  /** Frames move from the queue to the idle workers, and the work there is to do stays the same. */
  lemma {:induction false} HandsOutWell(ps: Parameters, codec: Codec, f: Farm, disks: nat -> Disk)
    requires Fine(ps, codec, f) && forall n: nat :: disks(n) == GOOD_DISK
    ensures HandOut(ps, codec, f.c, disks).Running?
    ensures var after := HandOut(ps, codec, f.c, disks).controller;
      && Fine(ps, codec, Farm(after, f.peers)) && Settled(after)
      && after.dead == f.c.dead && |after.live| == |f.c.live|
      && (forall k :: 0 <= k < |after.live| ==> after.live[k].proxyIndex == f.c.live[k].proxyIndex)
      && Potential(ps, after) == Potential(ps, f.c) && (Settled(f.c) ==> after == f.c)
    decreases |f.c.queue|
  {
    hide Direct.LinkInv, Promising, AllFit, FrameScript, RunFrame, AllCarried, SidesApart;
    if !Settled(f.c) {
      var k, c := FirstIdle(f.c.live).value, f.c;
      assert !f.peers[k].closed;
      var w := GivenWell(ps, codec, c.live[k], f.peers[k], c.queue[0]);
      GivenFine(ps, codec, f, k, w);
      Totals.TotalUpdate(c.live, k, w, LeftCount());
      var next := c.(queue := c.queue[1..], live := c.live[k := w]);
      assert RunFrame(ps, codec, c.live[k], c.queue[0], disks(|c.queue|)) == Ok(w);
      assert Potential(ps, next) == Potential(ps, c);
      HandsOutWell(ps, codec, Farm(next, f.peers), disks);
      assert HandOut(ps, codec, c, disks) == HandOut(ps, codec, next, disks);
    }
  }

  lemma LinkEncodable(ps: Parameters, codec: Codec, w: WorkerState, p: Peer)
    requires Direct.LinkInv(ps, codec, LinkOf(w, p))
    ensures Encodable(w)
  {
    hide WorkerInv, Direct.Asks, Direct.AllAsk;
    if w.unsent != [] {
      var q :| Direct.Requesting(codec, LinkOf(w, p), q);
      Lengths(codec.encodeRequest(q));
    }
  }

  /** The number of the proxy and whether the connection is closed. */
  predicate SamePlaces(f: Farm, g: Farm) {
    && |f.c.live| == |g.c.live| && |f.peers| == |g.peers|
    && (forall k :: 0 <= k < |f.c.live| ==> g.c.live[k].proxyIndex == f.c.live[k].proxyIndex)
    && (forall k :: 0 <= k < |f.peers| ==> g.peers[k].closed == f.peers[k].closed)
  }

  /** What follows a scan in which all went well. */
  lemma AfterScanWell(ps: Parameters, codec: Codec, f: Farm, e: NetEvents) returns (g: Farm)
    requires Fine(ps, codec, f) && !e.accepts && forall n: nat :: e.disks(n) == GOOD_DISK
    ensures AfterScanStep(ps, codec, f, e) == Going(g)
    ensures Fine(ps, codec, g) && Settled(g.c) && g.c.dead == f.c.dead && SamePlaces(f, g)
    ensures Potential(ps, g.c) == Potential(ps, f.c) && (Settled(f.c) ==> g == f)
  {
    hide Direct.LinkInv, Good, HandOut, Settled, Manageable, Potential, AllCarried;
    HandsOutWell(ps, codec, f, e.disks);
    g := Farm(HandOut(ps, codec, f.c, e.disks).controller, f.peers);
    forall k | 0 <= k < |g.c.live| ensures Encodable(g.c.live[k]) {
      LinkEncodable(ps, codec, g.c.live[k], g.peers[k]);
    }
  }

  // One event at a time.

  /** Answers received are requests less to be made. */
  lemma LessToDo(ps: Parameters, codec: Codec, f: Farm, k: nat, v: WorkerState, q: Peer)
    requires FarmInv(ps, codec, f) && k < |f.peers| && Direct.LinkInv(ps, codec, LinkOf(v, q))
    requires Evolved(f.c.live[k], v)
    ensures Potential(ps, Put(f, k, v, q).c) == Potential(ps, f.c) - (|v.done| - |f.c.live[k].done|)
  {
    hide WorkerInv, Direct.OneOutstanding;
    var w := f.c.live[k];
    assert WorkerInv(ps, LinkOf(w, f.peers[k]).w) && WorkerInv(ps, LinkOf(v, q).w);
    ExchangesOfOne(ps, w);
    ExchangesOfOne(ps, v);
    Totals.TotalUpdate(f.c.live, k, v, LeftCount());
  }

  lemma StaysSettled(c: Controller, k: nat, w: WorkerState)
    requires Settled(c) && k < |c.live| && w.phase.Awaiting?
    ensures Settled(c.(live := c.live[k := w]))
  {
    if c.queue != [] && FirstIdle(c.live[k := w]).Some? {
      assert false;
    }
  }

  /** The next event of worker k, whatever kind it is, up to the handing out. */
  lemma PeerAdvances(ps: Parameters, codec: Codec, f: Farm, k: nat) returns (w: WorkerState, p: Peer)
    requires Fine(ps, codec, f) && Faithful(codec) && k < |f.peers| && MayAdvance(f.c.live[k], f.peers[k])
    ensures Advanced(ps, codec, f.c.live[k], f.peers[k], w, p)
    ensures var e := NextEvent(f, k);
      Step(ps, codec, f, e)
      == if e.InRound? then AfterScanStep(ps, codec, Put(f, k, w, p), e.e) else Going(Put(f, k, w, p))
    ensures var e := NextEvent(f, k);
      e.InRound? ==> !e.e.accepts && forall n: nat :: e.e.disks(n) == GOOD_DISK
  {
    hide Direct.LinkInv, AllGood, Manageable, AllCarried, Manned, MayAdvance, Advanced, AfterScanStep, SlotStep,
      FarStep, Offer, RoundStep;
    var e := NextEvent(f, k);
    if f.c.live[k].unsent != [] {
      w, p := FlushAdvances(ps, codec, f, k);
      OneEventRound(ps, codec, f, k, Flushing());
    } else if e.Moves? {
      w := f.c.live[k];
      p := MoveAdvances(ps, codec, f, k);
    } else if e.InRound? {
      w, p := HearAdvances(ps, codec, f, k);
      OneEventRound(ps, codec, f, k, Hearing());
    } else {
      w := f.c.live[k];
      p := FarAdvances(ps, codec, f, k);
    }
  }

  lemma AheadStep(ps: Parameters, codec: Codec, f: Farm, k: nat) returns (g: Farm, w: WorkerState, p: Peer)
    requires Fine(ps, codec, f) && Settled(f.c) && Faithful(codec) && k < |f.peers|
    requires MayAdvance(f.c.live[k], f.peers[k])
    ensures Step(ps, codec, f, NextEvent(f, k)) == Going(g)
    ensures Fine(ps, codec, g) && Settled(g.c) && g.c.dead == f.c.dead && SamePlaces(f, g)
    ensures Advanced(ps, codec, f.c.live[k], f.peers[k], w, p)
    ensures Potential(ps, g.c) == Potential(ps, f.c) - (|w.done| - |f.c.live[k].done|)
    ensures |w.done| == |f.c.live[k].done| ==> g == Put(f, k, w, p)
  {
    hide Direct.LinkInv, AllGood, Good, Manageable, AllCarried, AfterScanStep, Step, Potential, Settled, NextEvent,
      Lower, SamePlaces;
    w, p := PeerAdvances(ps, codec, f, k);
    KeepsPlace(ps, codec, f, k, w, p);
    LessToDo(ps, codec, f, k, w, p);
    var e := NextEvent(f, k);
    var put := Put(f, k, w, p);
    if w.phase.Awaiting? {
      StaysSettled(f.c, k, w);
    }
    if e.InRound? {
      g := AfterScanWell(ps, codec, put, e.e);
      PlacesOver(f, put, g);
    } else {
      FarLeavesWorker(ps, codec, f, e, put);
      g := put;
    }
  }

  lemma FarLeavesWorker(ps: Parameters, codec: Codec, f: Farm, e: Event, g: Farm)
    requires !e.InRound? && Step(ps, codec, f, e) == Going(g)
    ensures g.c == f.c
  {
    hide Act;
  }

  lemma PlacesOver(f: Farm, g: Farm, h: Farm)
    requires SamePlaces(f, g) && SamePlaces(g, h)
    ensures SamePlaces(f, h)
  {
  }

  lemma KeepsPlace(ps: Parameters, codec: Codec, f: Farm, k: nat, w: WorkerState, p: Peer)
    requires Fine(ps, codec, f) && k < |f.peers| && f.c.live[k].phase.Awaiting?
    requires Advanced(ps, codec, f.c.live[k], f.peers[k], w, p)
    ensures Fine(ps, codec, Put(f, k, w, p)) && SamePlaces(f, Put(f, k, w, p))
  {
    hide Direct.LinkInv, Good, AllGood, Manageable, AllCarried, Manned, Lower;
    PutKeeps(ps, codec, f, k, w, p);
  }

  // Until nobody can be driven any further.

  /** Where these events lead. */
  ghost predicate LeadsTo(ps: Parameters, codec: Codec, f: Farm, events: seq<Event>, g: Farm) {
    RunFarm(ps, codec, f, events) == RunFarm(ps, codec, g, [])
  }

  lemma {:induction false} CompletedOn(ps: Parameters, codec: Codec, f: Farm, events: seq<Event>, more: seq<Event>)
    requires RunFarm(ps, codec, f, events).Completed?
    ensures RunFarm(ps, codec, f, events + more) == RunFarm(ps, codec, f, events)
    decreases |events|
  {
    hide Step, Done;
    if !Done(f.c) {
      assert (events + more)[1..] == events[1..] + more;
      CompletedOn(ps, codec, Step(ps, codec, f, events[0]).farm, events[1..], more);
    }
  }

  lemma LeadsOn(ps: Parameters, codec: Codec, f: Farm, a: seq<Event>, g: Farm, b: seq<Event>, h: Farm)
    requires LeadsTo(ps, codec, f, a, g) && LeadsTo(ps, codec, g, b, h)
    ensures LeadsTo(ps, codec, f, a + b, h)
  {
    if Done(g.c) {
      CompletedOn(ps, codec, f, a, b);
    } else {
      RunOn(ps, codec, f, a, b);
    }
  }

  lemma LeadsByOne(ps: Parameters, codec: Codec, f: Farm, e: Event, g: Farm)
    requires !Done(f.c) && Step(ps, codec, f, e) == Going(g)
    ensures LeadsTo(ps, codec, f, [e], g)
  {
    Steps(ps, codec, f, e, g, []);
    assert [e] + [] == [e];
  }

  lemma BusyGoesOn(c: Controller, k: nat)
    requires k < |c.live| && c.live[k].phase.Awaiting?
    ensures !Done(c)
  {
  }

  /** Everything is done but what is held back. */
  predicate OnlyHeld(f: Farm) {
    && f.c.queue == []
    && forall k :: 0 <= k < |f.peers| && k < |f.c.live| && f.c.live[k].phase.Awaiting? ==>
         Holding(f.c.live[k], f.peers[k])
  }

  /** Another worker to be driven; if there is none and worker k is idle, nothing is left. */
  lemma NextDriven(f: Farm, k: nat) returns (j: nat)
    requires Settled(f.c) && k < |f.peers| == |f.c.live|
    ensures OnlyHeld(f) || f.c.live[k].phase.Awaiting?
      || (j < |f.peers| && f.c.live[j].phase.Awaiting? && !Holding(f.c.live[j], f.peers[j]))
  {
    j := 0;
    if f.c.live[k].phase.Idle? {
      if i: nat :| i < |f.peers| && f.c.live[i].phase.Awaiting? && !Holding(f.c.live[i], f.peers[i]) {
        j := i;
      }
    }
  }

  /**
   * From a busy worker that is not held back: its requests and those of all
   * others are answered, and every frame there is is handed out and processed.
   */
  lemma {:induction false} DrivesAll(ps: Parameters, codec: Codec, f: Farm, k: nat)
    returns (events: seq<Event>, g: Farm)
    requires Fine(ps, codec, f) && Settled(f.c) && Faithful(codec) && k < |f.peers|
    requires f.c.live[k].phase.Awaiting? && !Holding(f.c.live[k], f.peers[k])
    ensures LeadsTo(ps, codec, f, events, g)
    ensures Fine(ps, codec, g) && OnlyHeld(g) && g.c.dead == f.c.dead && SamePlaces(f, g)
    decreases Potential(ps, f.c), Direct.Stage(LinkOf(f.c.live[k], f.peers[k])),
      |f.c.live[k].unsent| + |FlatUp(f.peers[k])|, ToMove(f.peers[k])
  {
    hide Direct.LinkInv, AllGood, Good, Manageable, AllCarried, Settled, Step, LeadsTo, Done, NextEvent, Potential,
      OnlyHeld, ToMove, Manned, FlatUp;
    var next, w, p := AheadStep(ps, codec, f, k);
    var e := NextEvent(f, k);
    assert !Done(f.c) by { BusyGoesOn(f.c, k); }
    LeadsByOne(ps, codec, f, e, next);
    events, g := [e], next;
    if |w.done| == |f.c.live[k].done| {
      var more;
      more, g := DrivesAll(ps, codec, next, k);
      LeadsOn(ps, codec, f, [e], next, more, g);
      events := [e] + more;
    } else {
      var j := NextDriven(next, k);
      if !OnlyHeld(next) {
        var i := if next.c.live[k].phase.Awaiting? then k else j;
        var more;
        more, g := DrivesAll(ps, codec, next, i);
        LeadsOn(ps, codec, f, [e], next, more, g);
        events := [e] + more;
      }
    }
  }
}
