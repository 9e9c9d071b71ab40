/**
 * The controller's event loop together with the workers at the other ends of
 * its connections, some of them behind proxies.
 */
module Network {
  import opened Wrappers
  import opened Framing
  import opened Outgoing
  import opened Protocol
  import opened Serving
  import opened Scheduler
  import opened Rounds
  import opened Walks
  import Relay
  import RelayedLink
  import Descriptors
  import Direct = Connection

  /**
   * How bytes get from one end to the other: straight, or through a connection
   * of a proxy, with the bytes in flight to the proxy from either end.
   */
  datatype Route = Straight | Proxied(downIn: Bytes, upIn: Bytes, conn: Relay.Conn)

  /**
   * A worker and the bytes in flight on the last part of the way to and from
   * it. Closed is a connection that the other side of that part has closed:
   * the worker if it is direct, the proxy if it is not.
   */
  datatype Peer = Peer(down: Bytes, up: Bytes, serving: Option<Request>, served: seq<Request>, route: Route,
                       closed: bool)

  /** One peer for every live connection of the controller. */
  datatype Farm = Farm(c: Controller, peers: seq<Peer>)

  /** What recv meets: some of the bytes in flight, or a broken connection. */
  datatype Arrival = InFlight(count: nat) | Broken(connReset: bool)

  datatype NetPoll = NetPoll(readable: bool, writable: bool, hungUp: bool, arrival: Arrival, send: SendIO, disk: Disk)

  /** The events of one round of the controller. */
  datatype NetEvents = NetEvents(connects: nat -> bool, polls: nat -> NetPoll, accepts: bool, disks: nat -> Disk)

  /** A worker takes or answers a request, a proxy moves bytes, either closes, or the controller goes round. */
  datatype Event = Takes(k: nat) | Replies(k: nat, host: Host) | Moves(k: nat, move: Descriptors.Move)
    | Closes(k: nat) | InRound(e: NetEvents)

  /** The controller's loop goes on, or has stopped; a worker gives up; a message is too long to encode. */
  datatype Status = Going(farm: Farm) | Stopped(status: Scheduler.Status) | WorkerExits | TooLong

  datatype Result = Completed(farm: Farm) | Underway(status: Status)

  const NEW_PEER: Peer := Peer([], [], None, [], Straight, false)

  /** A connection to a proxy is relayed; its worker may be there or not. */
  function NewPeer(w: WorkerState): Peer {
    if w.proxyIndex >= 0 then NEW_PEER.(route := Proxied([], [], Relay.NewConn(0))) else NEW_PEER
  }

  function FlatDown(p: Peer): Bytes {
    match p.route case Straight => p.down case Proxied(downIn, _, conn) => p.down + conn.c2w + downIn
  }

  function FlatUp(p: Peer): Bytes {
    match p.route case Straight => p.up case Proxied(_, upIn, conn) => p.up + conn.w2c + upIn
  }

  /** The connection as if it were direct. */
  function LinkOf(w: WorkerState, p: Peer): Direct.Link {
    Direct.Link(w, FlatDown(p), FlatUp(p), p.serving, p.served)
  }

  function Relayed(w: WorkerState, p: Peer): RelayedLink.Link
    requires p.route.Proxied?
  {
    RelayedLink.Link(w, p.route.downIn, p.down, p.route.upIn, p.up, p.route.conn, p.serving, p.served)
  }

  function PeerOf(l: Direct.Link): Peer {
    Peer(l.down, l.up, l.serving, l.served, Straight, false)
  }

  function ProxiedPeer(l: RelayedLink.Link, closed: bool): Peer {
    Peer(l.downOut, l.upOut, l.serving, l.served, Proxied(l.downIn, l.upIn, l.conn), closed)
  }

  predicate Encodable(w: WorkerState) {
    |w.unsent| <= HEADER_SIZE + MAX_MESSAGE_SIZE
  }

  /** The poll of the event loop: nothing is received but what the worker sent. */
  function Offer(peers: seq<Peer>, k: nat, e: NetPoll): Poll {
    var recv := match e.arrival
      case Broken(connReset) => RecvError(connReset)
      case InFlight(count) => Offered(if k < |peers| then peers[k].up[..Min(count, |peers[k].up|)] else []);
    Poll(e.readable, e.writable, e.hungUp, recv, e.send, e.disk)
  }

  function Offers(peers: seq<Peer>, polls: nat -> NetPoll): nat -> Poll {
    (k: nat) => Offer(peers, k, polls(k))
  }

  function Received(w: WorkerState, p: Peer, io: RecvIO): Peer {
    match io
    case RecvError(_) => p
    case Offered(bytes) => p.(up := p.up[Min(Min(|bytes|, Want(w.progress)), |p.up|)..])
  }

  function SentDown(w: WorkerState, p: Peer, io: SendIO): Peer {
    match io
    case SendError => p
    case Accepted(count) =>
      var bytes := w.unsent[..Min(count, |w.unsent|)];
      match p.route
      case Straight => p.(down := p.down + bytes)
      case Proxied(downIn, _, _) => p.(route := p.route.(downIn := downIn + bytes))
  }

  function ReadStep(codec: Codec, f: Farm, k: nat, e: Poll): Status {
    if !e.readable || k >= |f.c.live| || k >= |f.peers| then
      (if e.readable then Stopped(Undefined) else Going(f))
    else match ReadSlot(codec, f.c, k, e)
      case Running(c) =>
        if |c.live| < |f.c.live| then Going(Farm(c, Erase(f.peers, k)))
        else if k < |c.live| && !Encodable(c.live[k]) then TooLong
        else Going(Farm(c, f.peers[k := Received(f.c.live[k], f.peers[k], e.recv)]))
      case other => Stopped(other)
  }

  function WriteStep(f: Farm, k: nat, e: Poll): Status {
    if !e.writable || k >= |f.c.live| || k >= |f.peers| then
      (if e.writable then Stopped(Undefined) else Going(f))
    else match WriteSlot(f.c, k, e)
      case Running(c) => Going(Farm(c, f.peers[k := SentDown(f.c.live[k], f.peers[k], e.send)]))
      case other => Stopped(other)
  }

  function HangStep(f: Farm, k: nat, e: Poll): Status {
    if !e.hungUp || k >= |f.c.live| || k >= |f.peers| then
      (if e.hungUp then Stopped(Undefined) else Going(f))
    else match HangSlot(f.c, k, e)
      case Running(c) => Going(Farm(c, Erase(f.peers, k)))
      case other => Stopped(other)
  }

  function SlotStep(codec: Codec, f: Farm, k: nat, e: Poll): Status {
    match ReadStep(codec, f, k, e)
    case Going(f1) =>
      (match WriteStep(f1, k, e)
       case Going(f2) => HangStep(f2, k, e)
       case other => other)
    case other => other
  }

  function ScanStep(codec: Codec, f: Farm, polls: nat -> Poll, n: nat): Status
    decreases n
  {
    if n == 0 then Going(f)
    else match SlotStep(codec, f, n - 1, polls(n - 1))
      case Going(next) => ScanStep(codec, next, polls, n - 1)
      case other => other
  }

  /** New connections have new workers behind them. */
  function Joined(c: Controller, peers: seq<Peer>): Farm {
    if |peers| >= |c.live| then Farm(c, peers)
    else
      var more := |c.live| - |peers|;
      Farm(c, peers + seq(more, k requires 0 <= k < more => NewPeer(c.live[|peers| + k])))
  }

  function AllEncodable(live: seq<WorkerState>): bool {
    forall k :: 0 <= k < |live| ==> Encodable(live[k])
  }

  function AfterScanStep(ps: Parameters, codec: Codec, f: Farm, e: NetEvents): Status {
    var joined := if e.accepts then Joined(AddWorker(ps, codec, f.c, -1), f.peers) else f;
    match HandOut(ps, codec, joined.c, e.disks)
    case Running(c) => if AllEncodable(c.live) then Going(Farm(c, joined.peers)) else TooLong
    case other => Stopped(other)
  }

  function RoundStep(ps: Parameters, codec: Codec, f: Farm, e: NetEvents): Status {
    match Connect(ps, codec, f.c, e.connects, 0)
    case Running(c) =>
      (var joined := Joined(c, f.peers);
       match ScanStep(codec, joined, Offers(joined.peers, e.polls), |c.live|)
       case Going(scanned) => AfterScanStep(ps, codec, scanned, e)
       case other => other)
    case other => Stopped(other)
  }

  /** What an event at the other end, or in the proxy, makes of a connection. */
  datatype Acted = Acts(peer: Peer) | GivesUp | Unencodable

  /** A worker that has closed does nothing more, and a proxy moves nothing more on a connection it has closed. */
  predicate Idles(p: Peer, e: RelayedLink.Event) {
    match p.route
    case Straight => p.closed || !e.AtEnds?
    case Proxied(_, _, conn) => e.InProxy? && (p.closed || !Descriptors.Allowed(conn, e.move))
  }

  function Act(ps: Parameters, codec: Codec, w: WorkerState, p: Peer, e: RelayedLink.Event): Acted {
    if e.Closes? then Acts(p.(closed := true))
    else if Idles(p, e) then Acts(p)
    else match p.route
      case Straight =>
        (match Direct.Step(ps, codec, LinkOf(w, p), e.event)
         case Up(l) => Acts(PeerOf(l))
         case TooLong => Unencodable
         case _ => GivesUp)
      case Proxied(_, _, _) =>
        match RelayedLink.Step(ps, codec, Relayed(w, p), e)
        case Up(l) => Acts(ProxiedPeer(l, p.closed))
        case Ended(status) => if status.TooLong? then Unencodable else GivesUp
        case _ => Acts(p)
  }

  /** What a worker or a proxy may do. */
  predicate FarEvent(e: RelayedLink.Event) {
    e.AtEnds? ==> e.event.Take? || e.event.Reply?
  }

  function FarStep(ps: Parameters, codec: Codec, f: Farm, k: nat, e: RelayedLink.Event): Status {
    if k >= |f.c.live| || k >= |f.peers| then Going(f)
    else match Act(ps, codec, f.c.live[k], f.peers[k], e)
      case Acts(p) => Going(f.(peers := f.peers[k := p]))
      case GivesUp => WorkerExits
      case Unencodable => TooLong
  }

  function Step(ps: Parameters, codec: Codec, f: Farm, e: Event): Status {
    match e
    case InRound(events) => RoundStep(ps, codec, f, events)
    case Takes(k) => FarStep(ps, codec, f, k, RelayedLink.AtEnds(Direct.Take))
    case Replies(k, host) => FarStep(ps, codec, f, k, RelayedLink.AtEnds(Direct.Reply(host)))
    case Moves(k, move) => FarStep(ps, codec, f, k, RelayedLink.InProxy(move))
    case Closes(k) => FarStep(ps, codec, f, k, RelayedLink.Closes)
  }

  function Begin(frames: seq<int>): Farm {
    Farm(Start(frames), [])
  }

  predicate Done(c: Controller) {
    c.queue == [] && !AnyWorking(c.live)
  }

  function RunFarm(ps: Parameters, codec: Codec, f: Farm, events: seq<Event>): Result
    decreases |events|
  {
    if Done(f.c) then Completed(f)
    else if events == [] then Underway(Going(f))
    else match Step(ps, codec, f, events[0])
      case Going(next) => RunFarm(ps, codec, next, events[1..])
      case other => Underway(other)
  }

  // The invariant: every connection is in order.

  ghost predicate FarmInv(ps: Parameters, codec: Codec, f: Farm) {
    && |f.peers| == |f.c.live|
    && forall k :: 0 <= k < |f.peers| ==> Direct.LinkInv(ps, codec, LinkOf(f.c.live[k], f.peers[k]))
  }

  /** Up to slot n only bytes in flight are offered. */
  predicate Honest(peers: seq<Peer>, polls: nat -> Poll, n: nat) {
    forall k: nat :: k < n && k < |peers| && polls(k).recv.Offered? ==> polls(k).recv.bytes <= peers[k].up
  }

  lemma UpdateKeeps(ps: Parameters, codec: Codec, f: Farm, k: nat, w: WorkerState, p: Peer)
    requires FarmInv(ps, codec, f) && k < |f.peers| && Direct.LinkInv(ps, codec, LinkOf(w, p))
    ensures FarmInv(ps, codec, Farm(f.c.(live := f.c.live[k := w]), f.peers[k := p]))
  {
    hide Direct.LinkInv;
  }

  lemma EraseKeeps(ps: Parameters, codec: Codec, f: Farm, k: nat, c: Controller)
    requires FarmInv(ps, codec, f) && k < |f.peers| && c.live == Erase(f.c.live, k)
    ensures FarmInv(ps, codec, Farm(c, Erase(f.peers, k)))
  {
    hide Direct.LinkInv;
    var next := Farm(c, Erase(f.peers, k));
    forall j | 0 <= j < |next.peers| ensures Direct.LinkInv(ps, codec, LinkOf(next.c.live[j], next.peers[j])) {
      var i := if j < k then j else j + 1;
      assert next.c.live[j] == f.c.live[i] && next.peers[j] == f.peers[i];
    }
  }

  /** The controller stops for a reason that no honest worker can prevent. */
  predicate FairStop(s: Status) {
    match s
    case Going(_) => true
    case Stopped(status) => status.Quit? ==> !Direct.ProtocolExit(status.reason)
    case WorkerExits => false
    case TooLong => true
  }

  /** Reading from an honest worker: only the last part of the way can be read from. */
  lemma ReadOne(ps: Parameters, codec: Codec, w: WorkerState, p: Peer, io: RecvIO, disk: Disk)
    requires Direct.LinkInv(ps, codec, LinkOf(w, p)) && Faithful(codec) && (io.Offered? ==> io.bytes <= p.up)
    ensures match ReceiveOn(codec, w, io, disk)
      case Ok(next) => Encodable(next) ==> Direct.LinkInv(ps, codec, LinkOf(next, Received(w, p, io)))
      case SocketFailure(_) => true
      case Exited(reason) => !Direct.ProtocolExit(reason)
  {
    hide Direct.LinkInv, Dispatch, Frame, Received;
    if io.Offered? {
      if io.bytes == [] {
        NothingReceived(ps, codec, LinkOf(w, p), p, disk);
      } else {
        SomethingReceived(ps, codec, w, p, io.bytes, disk);
      }
    }
  }

  /** Reading from the last part of the way is reading from all of it. */
  lemma ReadFlat(w: WorkerState, p: Peer, bytes: Bytes, next: WorkerState)
    requires bytes <= p.up && bytes != []
    ensures bytes <= FlatUp(p)
    ensures LinkOf(next, Received(w, p, Offered(bytes)))
         == LinkOf(w, p).(w := next, up := FlatUp(p)[Min(|bytes|, Want(w.progress))..])
  {
    hide Want;
    var n := Min(|bytes|, Want(w.progress));
    if p.route.Proxied? {
      FrontOf(p.up, p.route.conn.w2c, p.route.upIn, |bytes|);
      FrontOf(p.up, p.route.conn.w2c, p.route.upIn, n);
    }
  }

  lemma FrontOf(a: Bytes, b: Bytes, c: Bytes, n: nat)
    requires n <= |a|
    ensures (a + b + c)[..n] == a[..n] && (a + b + c)[n..] == a[n..] + b + c
  {
  }

  lemma SomethingReceived(ps: Parameters, codec: Codec, w: WorkerState, p: Peer, bytes: Bytes, disk: Disk)
    requires Direct.LinkInv(ps, codec, LinkOf(w, p)) && Faithful(codec) && bytes <= p.up && bytes != []
    ensures match ReceiveOn(codec, w, Offered(bytes), disk)
      case Ok(next) => Encodable(next) ==> Direct.LinkInv(ps, codec, LinkOf(next, Received(w, p, Offered(bytes))))
      case SocketFailure(_) => true
      case Exited(reason) => !Direct.ProtocolExit(reason)
  {
    hide Direct.LinkInv, ReceiveOn, Frame, Want, Received;
    var l := LinkOf(w, p);
    Direct.ArriveKeeps(ps, codec, l, |bytes|, disk);
    ReadFlat(w, p, bytes, w);
    assert l.up[..Min(|bytes|, |l.up|)] == bytes;
    if ReceiveOn(codec, w, Offered(bytes), disk).Ok? {
      ReadFlat(w, p, bytes, ReceiveOn(codec, w, Offered(bytes), disk).value);
    }
  }

  lemma NothingReceived(ps: Parameters, codec: Codec, l: Direct.Link, p: Peer, disk: Disk)
    requires Direct.LinkInv(ps, codec, l) && l == LinkOf(l.w, p)
    ensures ReceiveOn(codec, l.w, Offered([]), disk) in {Ok(l.w), SocketFailure(true)}
    ensures LinkOf(l.w, Received(l.w, p, Offered([]))) == l
  {
    hide Direct.OneOutstanding, OnScript;
    assert l.w.progress + [] == l.w.progress;
    assert l.w.(progress := l.w.progress) == l.w;
    assert p.up[0..] == p.up;
  }

  lemma SendOne(w: WorkerState, p: Peer, io: SendIO)
    ensures FlatDown(SentDown(w, p, io))
         == FlatDown(p) + (if io.Accepted? then w.unsent[..Min(io.count, |w.unsent|)] else [])
    ensures FlatUp(SentDown(w, p, io)) == FlatUp(p)
  {
    if io.Accepted? && p.route.Proxied? {
      var bytes := w.unsent[..Min(io.count, |w.unsent|)];
      assert p.down + p.route.conn.c2w + (p.route.downIn + bytes) == p.down + p.route.conn.c2w + p.route.downIn + bytes;
    } else {
      assert FlatDown(p) + [] == FlatDown(p);
    }
  }

  lemma ReadKeepsFarm(ps: Parameters, codec: Codec, f: Farm, k: nat, polls: nat -> Poll)
    requires FarmInv(ps, codec, f) && Faithful(codec) && Honest(f.peers, polls, k + 1)
    ensures FairStop(ReadStep(codec, f, k, polls(k)))
    ensures ReadStep(codec, f, k, polls(k)).Going? ==> FarmInv(ps, codec, ReadStep(codec, f, k, polls(k)).farm)
  {
    hide Direct.LinkInv, ReceiveOn, Received, Kill;
    var e := polls(k);
    if e.readable && k < |f.peers| {
      var w := f.c.live[k];
      ReadOne(ps, codec, w, f.peers[k], e.recv, e.disk);
      match ReceiveOn(codec, w, e.recv, e.disk)
      case Ok(next) =>
        if Encodable(next) {
          UpdateKeeps(ps, codec, f, k, next, Received(w, f.peers[k], e.recv));
        }
      case SocketFailure(_) =>
        KillErases(f.c, k);
        EraseKeeps(ps, codec, f, k, Kill(f.c, k));
      case Exited(_) =>
    }
  }

  lemma KillErases(c: Controller, k: nat)
    requires k < |c.live|
    ensures Kill(c, k).live == Erase(c.live, k) && |Kill(c, k).live| < |c.live|
  {
  }

  lemma WriteKeepsFarm(ps: Parameters, codec: Codec, f: Farm, k: nat, e: Poll)
    requires FarmInv(ps, codec, f)
    ensures FairStop(WriteStep(f, k, e))
    ensures WriteStep(f, k, e).Going? ==> FarmInv(ps, codec, WriteStep(f, k, e).farm)
    ensures WriteStep(f, k, e).Going? ==> |WriteStep(f, k, e).farm.peers| == |f.peers|
    ensures WriteStep(f, k, e).Going? ==>
      forall j :: 0 <= j < |f.peers| ==> WriteStep(f, k, e).farm.peers[j].up == f.peers[j].up
  {
    hide Direct.LinkInv;
    if e.writable && k < |f.peers| && SendOn(f.c.live[k], e.send).Ok? {
      var w := f.c.live[k];
      var count := if e.send.Accepted? then e.send.count else 0;
      var l := LinkOf(w, f.peers[k]);
      Direct.FlushKeeps(ps, codec, l, count);
      SendOne(w, f.peers[k], e.send);
      assert w.unsent[0..] == w.unsent && l.down + w.unsent[..0] == l.down;
      UpdateKeeps(ps, codec, f, k, SendOn(w, e.send).value, SentDown(w, f.peers[k], e.send));
    }
  }

  lemma HangKeepsFarm(ps: Parameters, codec: Codec, f: Farm, k: nat, e: Poll)
    requires FarmInv(ps, codec, f)
    ensures FairStop(HangStep(f, k, e))
    ensures HangStep(f, k, e).Going? ==> FarmInv(ps, codec, HangStep(f, k, e).farm)
  {
    hide Direct.LinkInv, Kill;
    if e.hungUp && k < |f.peers| {
      KillErases(f.c, k);
      EraseKeeps(ps, codec, f, k, Kill(f.c, k));
    }
  }

  /** A slot leaves the peers below it as they are. */
  lemma SlotKeepsFarm(ps: Parameters, codec: Codec, f: Farm, k: nat, polls: nat -> Poll)
    requires FarmInv(ps, codec, f) && Faithful(codec) && Honest(f.peers, polls, k + 1)
    ensures FairStop(SlotStep(codec, f, k, polls(k)))
    ensures SlotStep(codec, f, k, polls(k)).Going? ==>
      FarmInv(ps, codec, SlotStep(codec, f, k, polls(k)).farm)
          && Honest(SlotStep(codec, f, k, polls(k)).farm.peers, polls, k)
  {
    hide FarmInv, ReadSlot, WriteSlot, HangSlot, Received, SentDown;
    var e := polls(k);
    ReadKeepsFarm(ps, codec, f, k, polls);
    if ReadStep(codec, f, k, e).Going? {
      var f1 := ReadStep(codec, f, k, e).farm;
      WriteKeepsFarm(ps, codec, f1, k, e);
      if WriteStep(f1, k, e).Going? {
        HangKeepsFarm(ps, codec, WriteStep(f1, k, e).farm, k, e);
      }
    }
  }

  lemma {:induction false} ScanKeepsFarm(ps: Parameters, codec: Codec, f: Farm, polls: nat -> Poll, n: nat)
    requires FarmInv(ps, codec, f) && Faithful(codec) && Honest(f.peers, polls, n)
    ensures FairStop(ScanStep(codec, f, polls, n))
    ensures ScanStep(codec, f, polls, n).Going? ==> FarmInv(ps, codec, ScanStep(codec, f, polls, n).farm)
    decreases n
  {
    hide FarmInv, SlotStep, Honest, FairStop;
    if n == 0 {
      assert FairStop(Going(f)) by { GoesFairly(f); }
    } else {
      SlotKeepsFarm(ps, codec, f, n - 1, polls);
      if SlotStep(codec, f, n - 1, polls(n - 1)).Going? {
        ScanKeepsFarm(ps, codec, SlotStep(codec, f, n - 1, polls(n - 1)).farm, polls, n - 1);
      } else {
        assert ScanStep(codec, f, polls, n) == SlotStep(codec, f, n - 1, polls(n - 1));
      }
    }
  }

  /** Like FarmInv, but for requests that may be too long to encode. */
  ghost predicate AssignInv(ps: Parameters, codec: Codec, live: seq<WorkerState>, peers: seq<Peer>) {
    && |peers| == |live|
    && forall k :: 0 <= k < |peers| && (live[k].phase.Idle? || Encodable(live[k])) ==>
         Direct.LinkInv(ps, codec, LinkOf(live[k], peers[k]))
  }

  lemma {:induction false} HandOutKeepsFarm(ps: Parameters, codec: Codec, c: Controller, peers: seq<Peer>,
      disks: nat -> Disk)
    requires AssignInv(ps, codec, c.live, peers)
    ensures HandOut(ps, codec, c, disks).Running? ==>
      AssignInv(ps, codec, HandOut(ps, codec, c, disks).controller.live, peers)
    decreases |c.queue|
  {
    hide Direct.LinkInv, RunFrame;
    if c.queue != [] && FirstIdle(c.live).Some? {
      var k := FirstIdle(c.live).value;
      var disk := disks(|c.queue|);
      AssignOne(ps, codec, c.live[k], peers[k], c.queue[0], disk);
      if RunFrame(ps, codec, c.live[k], c.queue[0], disk).Ok? {
        var w := RunFrame(ps, codec, c.live[k], c.queue[0], disk).value;
        HandOutKeepsFarm(ps, codec, c.(queue := c.queue[1..], live := c.live[k := w]), peers, disks);
      }
    }
  }

  lemma AssignOne(ps: Parameters, codec: Codec, w: WorkerState, p: Peer, frame: int, disk: Disk)
    requires Direct.LinkInv(ps, codec, LinkOf(w, p)) && w.phase.Idle?
    ensures RunFrame(ps, codec, w, frame, disk).Ok? ==>
      var next := RunFrame(ps, codec, w, frame, disk).value;
      next.phase.Awaiting? && (Encodable(next) ==> Direct.LinkInv(ps, codec, LinkOf(next, p)))
  {
    hide Direct.LinkInv, FrameScript;
    Direct.AssignKeeps(ps, codec, LinkOf(w, p), frame, disk);
  }

  ghost predicate JustStarted(ps: Parameters, codec: Codec, w: WorkerState) {
    exists i: int :: w == StartWorker(ps, codec, i)
  }

  lemma JoinedKeeps(ps: Parameters, codec: Codec, f: Farm, c: Controller)
    requires FarmInv(ps, codec, f) && Faithful(codec) && f.c.live <= c.live
    requires forall k :: |f.c.live| <= k < |c.live| ==> JustStarted(ps, codec, c.live[k])
    ensures FarmInv(ps, codec, Joined(c, f.peers))
  {
    hide Direct.LinkInv;
    var next := Joined(c, f.peers);
    forall k | 0 <= k < |next.peers| ensures Direct.LinkInv(ps, codec, LinkOf(next.c.live[k], next.peers[k])) {
      if k >= |f.peers| {
        var i: int :| c.live[k] == StartWorker(ps, codec, i);
        NewLink(ps, codec, i);
      } else {
        assert c.live[k] == f.c.live[k];
      }
    }
  }

  lemma NewLink(ps: Parameters, codec: Codec, i: int)
    requires Faithful(codec)
    ensures var w := StartWorker(ps, codec, i); Direct.LinkInv(ps, codec, LinkOf(w, NewPeer(w)))
  {
    hide Direct.LinkInv, StartWorker;
    var w := StartWorker(ps, codec, i);
    var none: Bytes := [];
    assert none + none + none == none;
    assert LinkOf(w, NewPeer(w)) == Direct.Open(ps, codec, i);
    Direct.OpenInv(ps, codec, i);
  }

  lemma {:induction false} ConnectAppends(ps: Parameters, codec: Codec, c: Controller, connects: nat -> bool, i: nat)
    ensures match Connect(ps, codec, c, connects, i)
      case Running(after) => c.live <= after.live
        && forall k :: |c.live| <= k < |after.live| ==> JustStarted(ps, codec, after.live[k])
      case other => other == Returned
    decreases ps.proxyCount - i
  {
    hide StartWorker;
    if i < ps.proxyCount {
      assert JustStarted(ps, codec, StartWorker(ps, codec, i));
      ConnectAppends(ps, codec, if Carries(c.live, i) then c else AddWorker(ps, codec, c, i), connects, i + 1);
    }
  }

  lemma OffersAreHonest(peers: seq<Peer>, polls: nat -> NetPoll, n: nat)
    ensures Honest(peers, Offers(peers, polls), n)
  {
    var offers := Offers(peers, polls);
    forall k: nat | k < n && k < |peers| && offers(k).recv.Offered? ensures offers(k).recv.bytes <= peers[k].up {
      assert offers(k) == Offer(peers, k, polls(k));
    }
  }

  lemma RoundKeepsFarm(ps: Parameters, codec: Codec, f: Farm, e: NetEvents)
    requires FarmInv(ps, codec, f) && Faithful(codec)
    ensures FairStop(RoundStep(ps, codec, f, e))
    ensures RoundStep(ps, codec, f, e).Going? ==> FarmInv(ps, codec, RoundStep(ps, codec, f, e).farm)
  {
    hide FarmInv, Connect, ScanStep, AfterScanStep, Joined, Offers, Honest, FairStop;
    ConnectAppends(ps, codec, f.c, e.connects, 0);
    if Connect(ps, codec, f.c, e.connects, 0).Running? {
      var c := Connect(ps, codec, f.c, e.connects, 0).controller;
      JoinedKeeps(ps, codec, f, c);
      var joined := Joined(c, f.peers);
      var polls := Offers(joined.peers, e.polls);
      OffersAreHonest(joined.peers, e.polls, |c.live|);
      ScanKeepsFarm(ps, codec, joined, polls, |c.live|);
      if ScanStep(codec, joined, polls, |c.live|).Going? {
        AfterScanKeeps(ps, codec, ScanStep(codec, joined, polls, |c.live|).farm, e);
      }
    } else {
      assert FairStop(Stopped(Returned)) by { ReturnsFairly(); }
    }
  }

  lemma ReturnsFairly()
    ensures FairStop(Stopped(Returned))
  {
  }

  lemma GoesFairly(f: Farm)
    ensures FairStop(Going(f))
  {
  }

  lemma AfterScanKeeps(ps: Parameters, codec: Codec, f: Farm, e: NetEvents)
    requires FarmInv(ps, codec, f) && Faithful(codec)
    ensures FairStop(AfterScanStep(ps, codec, f, e))
    ensures AfterScanStep(ps, codec, f, e).Going? ==> FarmInv(ps, codec, AfterScanStep(ps, codec, f, e).farm)
  {
    hide Direct.LinkInv, HandOut, Joined, StartWorker;
    var joined := if e.accepts then Joined(AddWorker(ps, codec, f.c, -1), f.peers) else f;
    if e.accepts {
      assert JustStarted(ps, codec, StartWorker(ps, codec, -1));
      JoinedKeeps(ps, codec, f, AddWorker(ps, codec, f.c, -1));
      JoinedList(AddWorker(ps, codec, f.c, -1), f.peers);
    }
    HandOutKeepsFarm(ps, codec, joined.c, joined.peers, e.disks);
    HandOutServes(ps, codec, joined.c, e.disks);
  }

  lemma JoinedList(c: Controller, peers: seq<Peer>)
    ensures Joined(c, peers).c == c
  {
  }

  lemma PeerKeeps(ps: Parameters, codec: Codec, f: Farm, k: nat, p: Peer)
    requires FarmInv(ps, codec, f) && k < |f.peers| && Direct.LinkInv(ps, codec, LinkOf(f.c.live[k], p))
    ensures FarmInv(ps, codec, f.(peers := f.peers[k := p]))
  {
    hide Direct.LinkInv;
  }

  lemma FlatLink(w: WorkerState, p: Peer)
    requires p.route.Proxied?
    ensures RelayedLink.Flat(Relayed(w, p)) == LinkOf(w, p)
  {
  }

  lemma FlatPeer(l: RelayedLink.Link, closed: bool)
    ensures RelayedLink.Flat(l) == LinkOf(l.w, ProxiedPeer(l, closed))
  {
  }

  /** An event at the far end leaves the controller's end alone. */
  lemma FarLeavesNear(ps: Parameters, codec: Codec, l: RelayedLink.Link, e: RelayedLink.Event)
    requires FarEvent(e) && RelayedLink.Step(ps, codec, l, e).Up?
    ensures RelayedLink.Step(ps, codec, l, e).link.w == l.w
  {
    hide ReceiveMessage, Handle, Frame;
  }

  lemma FarLeavesNearDirectly(ps: Parameters, codec: Codec, l: Direct.Link, e: Direct.Event)
    requires (e.Take? || e.Reply?) && Direct.Step(ps, codec, l, e).Up?
    ensures Direct.Step(ps, codec, l, e).link == LinkOf(l.w, PeerOf(Direct.Step(ps, codec, l, e).link))
  {
    hide ReceiveMessage, Handle, Frame;
  }

  /** Behind a proxy or not, the far end keeps a connection in order and never gives up. */
  lemma ActKeeps(ps: Parameters, codec: Codec, w: WorkerState, p: Peer, e: RelayedLink.Event)
    requires Direct.LinkInv(ps, codec, LinkOf(w, p)) && Faithful(codec) && FarEvent(e)
    ensures !Act(ps, codec, w, p, e).GivesUp?
    ensures Act(ps, codec, w, p, e).Acts? ==> Direct.LinkInv(ps, codec, LinkOf(w, Act(ps, codec, w, p, e).peer))
  {
    hide Direct.LinkInv, Direct.Step, RelayedLink.Step, RelayedLink.Amounts, RelayedLink.Flat, LinkOf, Relayed, PeerOf,
      ProxiedPeer;
    var l := LinkOf(w, p);
    assert l.w == w by { LinksWorker(w, p); }
    if e.Closes? {
      ClosingLeaves(w, p);
    } else if Idles(p, e) {
    } else if p.route.Proxied? {
      FlatLink(w, p);
      RelayedLink.RelayRefines(ps, codec, Relayed(w, p), e);
      Direct.StepKeeps(ps, codec, l, RelayedLink.Amounts(codec, Relayed(w, p), e));
      FarEnds(ps, codec, l, Relayed(w, p), e);
      if RelayedLink.Step(ps, codec, Relayed(w, p), e).Up? {
        var next := RelayedLink.Step(ps, codec, Relayed(w, p), e).link;
        RelayedWorker(w, p);
        FarLeavesNear(ps, codec, Relayed(w, p), e);
        FlatPeer(next, p.closed);
      }
    } else {
      Direct.StepKeeps(ps, codec, l, e.event);
      FarEndsDirectly(ps, codec, l, e.event);
      if Direct.Step(ps, codec, l, e.event).Up? {
        FarLeavesNearDirectly(ps, codec, l, e.event);
      }
    }
  }

  lemma LinksWorker(w: WorkerState, p: Peer)
    ensures LinkOf(w, p).w == w
  {
  }

  lemma ClosingLeaves(w: WorkerState, p: Peer)
    ensures LinkOf(w, p.(closed := true)) == LinkOf(w, p)
  {
  }

  lemma RelayedWorker(w: WorkerState, p: Peer)
    requires p.route.Proxied?
    ensures Relayed(w, p).w == w
  {
  }

  /** The controller does not exit by what happens at the far end. */
  lemma FarEndsDirectly(ps: Parameters, codec: Codec, l: Direct.Link, e: Direct.Event)
    requires e.Take? || e.Reply?
    ensures !Direct.Step(ps, codec, l, e).ControllerExits? && !Direct.Step(ps, codec, l, e).Lost?
  {
  }

  lemma FarEnds(ps: Parameters, codec: Codec, l: Direct.Link, r: RelayedLink.Link, e: RelayedLink.Event)
    requires FarEvent(e)
    ensures var status := Direct.Step(ps, codec, l, RelayedLink.Amounts(codec, r, e));
      !status.ControllerExits? && !status.Lost?
  {
    hide ReceiveMessage;
  }

  lemma FarKeepsFarm(ps: Parameters, codec: Codec, f: Farm, k: nat, e: RelayedLink.Event)
    requires FarmInv(ps, codec, f) && Faithful(codec) && FarEvent(e)
    ensures FairStop(FarStep(ps, codec, f, k, e)) && !FarStep(ps, codec, f, k, e).Stopped?
    ensures FarStep(ps, codec, f, k, e).Going? ==>
      FarmInv(ps, codec, FarStep(ps, codec, f, k, e).farm) && FarStep(ps, codec, f, k, e).farm.c == f.c
  {
    hide Direct.LinkInv, Act, LinkOf;
    if k < |f.peers| {
      ActKeeps(ps, codec, f.c.live[k], f.peers[k], e);
      if Act(ps, codec, f.c.live[k], f.peers[k], e).Acts? {
        PeerKeeps(ps, codec, f, k, Act(ps, codec, f.c.live[k], f.peers[k], e).peer);
      }
    }
  }

  lemma StepKeepsFarm(ps: Parameters, codec: Codec, f: Farm, e: Event)
    requires FarmInv(ps, codec, f) && Faithful(codec)
    ensures FairStop(Step(ps, codec, f, e))
    ensures Step(ps, codec, f, e).Going? ==> FarmInv(ps, codec, Step(ps, codec, f, e).farm)
    ensures Step(ps, codec, f, e).Going? && !e.InRound? ==> Step(ps, codec, f, e).farm.c == f.c
  {
    hide RoundStep, FarStep, FarmInv, FairStop;
    match e
    case InRound(events) => RoundKeepsFarm(ps, codec, f, events);
    case Takes(k) => FarKeepsFarm(ps, codec, f, k, RelayedLink.AtEnds(Direct.Take));
    case Replies(k, host) => FarKeepsFarm(ps, codec, f, k, RelayedLink.AtEnds(Direct.Reply(host)));
    case Moves(k, move) => FarKeepsFarm(ps, codec, f, k, RelayedLink.InProxy(move));
    case Closes(k) => FarKeepsFarm(ps, codec, f, k, RelayedLink.Closes);
  }

  lemma {:induction false} RunKeepsFarm(ps: Parameters, codec: Codec, f: Farm, events: seq<Event>)
    requires FarmInv(ps, codec, f) && Faithful(codec)
    ensures RunFarm(ps, codec, f, events).Underway? ==> FairStop(RunFarm(ps, codec, f, events).status)
    ensures RunFarm(ps, codec, f, events).Completed? ==> FarmInv(ps, codec, RunFarm(ps, codec, f, events).farm)
    ensures RunFarm(ps, codec, f, events).Underway? && RunFarm(ps, codec, f, events).status.Going? ==>
      FarmInv(ps, codec, RunFarm(ps, codec, f, events).status.farm)
    decreases |events|
  {
    hide FarmInv, Step, Done;
    if events != [] && !Done(f.c) {
      StepKeepsFarm(ps, codec, f, events[0]);
      if Step(ps, codec, f, events[0]).Going? {
        RunKeepsFarm(ps, codec, Step(ps, codec, f, events[0]).farm, events[1..]);
      }
    }
  }

  /**
   * The controller with any number of honest workers, direct or behind proxies,
   * whatever breaks and whenever: it never exits because of a message that
   * cannot be decoded, has the wrong type or comes to an idle worker, nor
   * because a busy worker is given a frame; and no worker gives up.
   */
  lemma NoProtocolExit(ps: Parameters, codec: Codec, frames: seq<int>, events: seq<Event>)
    requires Faithful(codec)
    ensures var r := RunFarm(ps, codec, Begin(frames), events);
      r.Underway? ==>
        r.status != WorkerExits && forall reason | Direct.ProtocolExit(reason) :: r.status != Stopped(Quit(reason))
  {
    hide RunFarm, Direct.LinkInv;
    RunKeepsFarm(ps, codec, Begin(frames), events);
  }

  /** An answer comes in, or a frame is handed out, only when all of the last request has been sent. */
  lemma AnswerNeedsSilence(ps: Parameters, codec: Codec, w: WorkerState, p: Peer, io: RecvIO, disk: Disk)
    requires Direct.LinkInv(ps, codec, LinkOf(w, p)) && (io.Offered? ==> io.bytes <= p.up)
    ensures var o := ReceiveOn(codec, w, io, disk); o.Ok? && |o.value.done| > |w.done| ==> w.unsent == []
    ensures w.phase.Idle? ==> w.unsent == []
  {
    hide WorkerInv, Direct.AllAsk, Direct.Asks, Frame, Dispatch;
    if w.unsent != [] && io.Offered? {
      assert FlatUp(p) == [];
      assert io.bytes == [];
      NothingReceived(ps, codec, LinkOf(w, p), p, disk);
    }
  }

  /**
   * In every round of every run: an outgoing buffer is filled with the next
   * request, by an answer in the scan or by a frame after it, only when all of
   * the request before has been sent.
   */
  lemma NoOverwrite(ps: Parameters, codec: Codec, frames: seq<int>, events: seq<Event>, e: NetEvents)
    requires Faithful(codec) && RunFarm(ps, codec, Begin(frames), events).Underway?
    requires RunFarm(ps, codec, Begin(frames), events).status.Going?
    requires Connect(ps, codec, RunFarm(ps, codec, Begin(frames), events).status.farm.c, e.connects, 0).Running?
    ensures var f := RunFarm(ps, codec, Begin(frames), events).status.farm;
      var c := Connect(ps, codec, f.c, e.connects, 0).controller;
      var polls := Offers(Joined(c, f.peers).peers, e.polls);
      var scanned := ScanStep(codec, Joined(c, f.peers), polls, |c.live|);
      && (forall k :: 0 <= k < |c.live| ==>
            var o := ReceiveOn(codec, c.live[k], polls(k).recv, polls(k).disk);
            o.Ok? && |o.value.done| > |c.live[k].done| ==> c.live[k].unsent == [])
      && (scanned.Going? ==>
            forall w :: w in scanned.farm.c.live && w.phase.Idle? ==> w.unsent == [])
  {
    hide RunFarm, Direct.LinkInv, Connect, ScanStep, ReceiveOn, Joined, Offers, StartWorker, Dispatch;
    var f := RunFarm(ps, codec, Begin(frames), events).status.farm;
    BeginInv(ps, codec, frames);
    RunKeepsFarm(ps, codec, Begin(frames), events);
    ConnectAppends(ps, codec, f.c, e.connects, 0);
    var c := Connect(ps, codec, f.c, e.connects, 0).controller;
    JoinedKeeps(ps, codec, f, c);
    JoinedList(c, f.peers);
    var joined := Joined(c, f.peers);
    var polls := Offers(joined.peers, e.polls);
    OffersAreHonest(joined.peers, e.polls, |c.live|);
    ScanKeepsFarm(ps, codec, joined, polls, |c.live|);
    forall k | 0 <= k < |c.live|
      ensures var o := ReceiveOn(codec, c.live[k], polls(k).recv, polls(k).disk);
        o.Ok? && |o.value.done| > |c.live[k].done| ==> c.live[k].unsent == []
    {
      AnswerNeedsSilence(ps, codec, c.live[k], joined.peers[k], polls(k).recv, polls(k).disk);
    }
    if ScanStep(codec, joined, polls, |c.live|).Going? {
      IdleIsSent(ps, codec, ScanStep(codec, joined, polls, |c.live|).farm);
    }
  }

  lemma IdleIsSent(ps: Parameters, codec: Codec, f: Farm)
    requires FarmInv(ps, codec, f)
    ensures forall w :: w in f.c.live && w.phase.Idle? ==> w.unsent == []
  {
    hide Direct.LinkInv, ReceiveOn;
    forall k | 0 <= k < |f.c.live| && f.c.live[k].phase.Idle? ensures f.c.live[k].unsent == [] {
      AnswerNeedsSilence(ps, codec, f.c.live[k], f.peers[k], Offered([]), Disk(_ => None, _ => false));
    }
  }

  // Every such run is one of the event loop.

  lemma SlotIsSlot(codec: Codec, f: Farm, k: nat, e: Poll)
    requires |f.peers| == |f.c.live| && SlotStep(codec, f, k, e).Going?
    ensures Slot(codec, f.c, k, e) == Scheduler.Running(SlotStep(codec, f, k, e).farm.c)
    ensures |SlotStep(codec, f, k, e).farm.peers| == |SlotStep(codec, f, k, e).farm.c.live|
  {
    hide ReceiveOn, SendOn, Received, SentDown;
  }

  lemma {:induction false} ScanIsScan(codec: Codec, f: Farm, polls: nat -> Poll, n: nat)
    requires |f.peers| == |f.c.live| && ScanStep(codec, f, polls, n).Going?
    ensures Scan(codec, f.c, polls, n) == Scheduler.Running(ScanStep(codec, f, polls, n).farm.c)
    decreases n
  {
    hide SlotStep, Slot;
    if n > 0 {
      SlotIsSlot(codec, f, n - 1, polls(n - 1));
      ScanIsScan(codec, SlotStep(codec, f, n - 1, polls(n - 1)).farm, polls, n - 1);
    }
  }

  function Heard(c: Controller, f: Farm, e: NetEvents): Events {
    Events(e.connects, Offers(Joined(c, f.peers).peers, e.polls), e.accepts, e.disks)
  }

  lemma RoundIsRound(ps: Parameters, codec: Codec, f: Farm, e: NetEvents) returns (events: Events)
    requires |f.peers| == |f.c.live| && RoundStep(ps, codec, f, e).Going?
    ensures Round(ps, codec, f.c, events) == Scheduler.Running(RoundStep(ps, codec, f, e).farm.c)
  {
    hide Connect, ScanStep, Scan, HandOut, AddWorker, Offers, AllEncodable;
    var c := Connect(ps, codec, f.c, e.connects, 0).controller;
    events := Heard(c, f, e);
    ConnectAppends(ps, codec, f.c, e.connects, 0);
    ScanIsScan(codec, Joined(c, f.peers), events.polls, |c.live|);
  }

  lemma {:induction false} RunIsRun(ps: Parameters, codec: Codec, f: Farm, events: seq<Event>)
      returns (rounds: seq<Events>)
    requires FarmInv(ps, codec, f) && Faithful(codec)
    ensures match RunFarm(ps, codec, f, events)
      case Completed(last) => Scheduler.Run(ps, codec, f.c, rounds) == Scheduler.Finished(last.c)
      case Underway(Going(last)) =>
        Scheduler.Run(ps, codec, f.c, rounds) == Scheduler.Unfinished(Scheduler.Running(last.c))
      case _ => true
    decreases |events|
  {
    hide FarmInv, RoundStep, Round;
    rounds := [];
    if events != [] && !Done(f.c) && Step(ps, codec, f, events[0]).Going? {
      StepKeepsFarm(ps, codec, f, events[0]);
      var next := Step(ps, codec, f, events[0]).farm;
      rounds := RunIsRun(ps, codec, next, events[1..]);
      if events[0].InRound? {
        assert |f.peers| == |f.c.live| by { PeersPerWorker(ps, codec, f); }
        var first := RoundIsRound(ps, codec, f, events[0].e);
        assert ([first] + rounds)[1..] == rounds;
        rounds := [first] + rounds;
      } else {
        assert next.c == f.c;
      }
    }
  }

  lemma PeersPerWorker(ps: Parameters, codec: Codec, f: Farm)
    requires FarmInv(ps, codec, f)
    ensures |f.peers| == |f.c.live|
  {
  }

  lemma BeginInv(ps: Parameters, codec: Codec, frames: seq<int>)
    ensures FarmInv(ps, codec, Begin(frames))
  {
  }

  /** The controller of a farm is always in a state its event loop can reach. */
  lemma FarmReached(ps: Parameters, codec: Codec, frames: seq<int>, events: seq<Event>)
    requires Faithful(codec)
    ensures match RunFarm(ps, codec, Begin(frames), events)
      case Completed(f) => Reached(ps, codec, frames, f.c)
      case Underway(Going(f)) => Reached(ps, codec, frames, f.c)
      case _ => true
  {
    hide RunFarm, FarmInv, Reached, Scheduler.Run;
    BeginInv(ps, codec, frames);
    var rounds := RunIsRun(ps, codec, Begin(frames), events);
    StartReached(ps, codec, frames);
    if EndOf(Scheduler.Run(ps, codec, Start(frames), rounds)).Some? {
      RunReached(ps, codec, frames, Start(frames), rounds);
    }
  }

  // Runs in parts.

  lemma Steps(ps: Parameters, codec: Codec, f: Farm, e: Event, next: Farm, more: seq<Event>)
    requires !Done(f.c) && Step(ps, codec, f, e) == Going(next)
    ensures RunFarm(ps, codec, f, [e] + more) == RunFarm(ps, codec, next, more)
  {
    hide Step, Done;
    assert ([e] + more)[1..] == more;
  }

  lemma Exits(ps: Parameters, codec: Codec, f: Farm)
    requires Done(f.c)
    ensures RunFarm(ps, codec, f, []) == Completed(f)
  {
  }

  lemma {:induction false} RunOn(ps: Parameters, codec: Codec, f: Farm, events: seq<Event>, more: seq<Event>)
    requires RunFarm(ps, codec, f, events).Underway? && RunFarm(ps, codec, f, events).status.Going?
    ensures RunFarm(ps, codec, f, events + more) == RunFarm(ps, codec, RunFarm(ps, codec, f, events).status.farm, more)
    decreases |events|
  {
    hide Step, Done;
    if events == [] {
      assert events + more == more;
    } else {
      assert (events + more)[1..] == events[1..] + more;
      RunOn(ps, codec, Step(ps, codec, f, events[0]).farm, events[1..], more);
    }
  }

  lemma {:induction false} UnderwayIsNotDone(ps: Parameters, codec: Codec, f: Farm, events: seq<Event>)
    requires RunFarm(ps, codec, f, events).Underway? && RunFarm(ps, codec, f, events).status.Going?
    ensures !Done(RunFarm(ps, codec, f, events).status.farm.c)
    decreases |events|
  {
    hide Step, Done;
    if events != [] {
      UnderwayIsNotDone(ps, codec, Step(ps, codec, f, events[0]).farm, events[1..]);
    }
  }
}
