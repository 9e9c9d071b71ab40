/** What can only end with the loss of a connection, and so exactly when none has to be lost. */
module Refusals {
  import opened Wrappers
  import opened Framing
  import opened Outgoing
  import opened Protocol
  import opened Serving
  import opened Scheduler
  import opened Rounds
  import opened Walks
  import opened Network
  import opened OneWorker
  import opened Driving
  import opened Unbroken
  import opened Pendings
  import RelayedLink
  import Direct = Connection

  /** This response is on its way, and will not be accepted. */
  predicate Refused(codec: Codec, w: WorkerState, p: Peer, r: Response) {
    && w.phase.Awaiting? && Direct.Replying(codec, LinkOf(w, p), r)
    && !Acceptable(codec, LinkOf(w, p), r)
  }

  /** The worker can never become idle: its answer will be refused, or cannot come. */
  ghost predicate Doomed(codec: Codec, w: WorkerState, p: Peer) {
    (exists r :: Refused(codec, w, p, r)) || !Delivered(w, p)
  }

  ghost predicate DoomedAt(codec: Codec, f: Farm, k: nat) {
    k < |f.peers| == |f.c.live| && Doomed(codec, f.c.live[k], f.peers[k])
  }

  lemma NoDiskHelps(a: Action, r: Response, disk: Disk)
    requires Refusal(a, r, GOOD_DISK) != None
    ensures Refusal(a, r, disk) != None
  {
  }

  lemma Decodes(codec: Codec, r: Response)
    requires Faithful(codec)
    ensures codec.decodeResponse(codec.encodeResponse(r)) == Some(r)
  {
  }

  lemma HeaderIsSize(progress: Bytes, rest: Bytes, payload: Bytes)
    requires progress + rest == Frame(payload) && |progress| == HEADER_SIZE && |payload| <= MAX_MESSAGE_SIZE
    ensures SizeOf(progress) == |payload|
  {
    hide Header;
    HeaderRoundTrip(|payload|);
    assert progress == Frame(payload)[..HEADER_SIZE] == Header(|payload|);
  }

  // Receiving.

  /** What is received of a refused response leaves it what it is, or the process ends. */
  lemma ReadsRefused(codec: Codec, l: Direct.Link, bytes: Bytes, disk: Disk, r: Response)
    requires l.w.phase.Awaiting? && Direct.Replying(codec, l, r) && !Acceptable(codec, l, r) && Faithful(codec)
    requires bytes <= l.up && bytes != []
    ensures var o := ReceiveOn(codec, l.w, Offered(bytes), disk);
      && !o.SocketFailure?
      && (o.Ok? ==>
            var next := l.(w := o.value, up := l.up[Min(|bytes|, Want(l.w.progress))..]);
            next.w.phase.Awaiting? && Direct.Replying(codec, next, r) && !Acceptable(codec, next, r))
  {
    hide Frame, Header, Faithful;
    var payload := codec.encodeResponse(r);
    ReceivePart(l.w.progress, l.up, payload, bytes);
    var n := Min(|bytes|, Want(l.w.progress));
    var next := l.w.progress + bytes[..n];
    PrefixWants(next, l.up[n..], payload);
    if Receive(l.w.progress, Offered(bytes)).Progressed? {
      if |l.w.progress| < HEADER_SIZE == |next| {
        HeaderIsSize(next, l.up[n..], payload);
      }
      if Complete(next) {
        assert codec.decodeResponse(payload) == Some(r) by { Decodes(codec, r); }
        NoDiskHelps(l.w.phase.pending, r, disk);
      }
    }
  }

  lemma NothingRead(codec: Codec, w: WorkerState, p: Peer, disk: Disk)
    ensures var o := ReceiveOn(codec, w, Offered([]), disk);
      Complete(w.progress) || o == Ok(w) || o == SocketFailure(true)
    ensures Network.Received(w, p, Offered([])) == p
  {
    assert w.progress + [] == w.progress && w.(progress := w.progress) == w;
    assert p.up[0..] == p.up;
  }

  /** A response that is cut off does not become complete, and one after which more is to come does not help. */
  lemma ReadsCut(ps: Parameters, codec: Codec, w: WorkerState, p: Peer, bytes: Bytes, disk: Disk)
    requires Direct.LinkInv(ps, codec, LinkOf(w, p)) && Faithful(codec) && !Delivered(w, p)
    requires bytes <= p.up && bytes != []
    ensures var o := ReceiveOn(codec, w, Offered(bytes), disk);
      o.Ok? ==> !Delivered(o.value, Network.Received(w, p, Offered(bytes)))
  {
    hide WorkerInv, Direct.AllAsk, Direct.Asks, Frame, RequestFor, Refusal;
    var l := LinkOf(w, p);
    var r: Response :| r.requestType == w.phase.pending.Type() && Direct.Replying(codec, l, r);
    ReadFlat(w, p, bytes, w);
    ReceivePart(w.progress, l.up, codec.encodeResponse(r), bytes);
    var n := Min(|bytes|, Want(w.progress));
    PrefixWants(w.progress + bytes[..n], l.up[n..], codec.encodeResponse(r));
    if l.up[n..] == [] && OnWay(p) == 0 {
      ArrivedUp(p);
    }
  }

  lemma ReadsDoomed(ps: Parameters, codec: Codec, w: WorkerState, p: Peer, bytes: Bytes, disk: Disk)
    requires Direct.LinkInv(ps, codec, LinkOf(w, p)) && Faithful(codec) && Doomed(codec, w, p)
    requires bytes <= p.up && bytes != []
    ensures var o := ReceiveOn(codec, w, Offered(bytes), disk);
      o.Ok? ==> Doomed(codec, o.value, Network.Received(w, p, Offered(bytes)))
  {
    hide Direct.LinkInv, ReceiveOn, Network.Received, Direct.Replying, Acceptable, Delivered, LinkOf, FlatUp, Want;
    if r :| Refused(codec, w, p, r) {
      LinksBack(w, p);
      ReadFlat(w, p, bytes, w);
      ReadsRefused(codec, LinkOf(w, p), bytes, disk, r);
      if ReceiveOn(codec, w, Offered(bytes), disk).Ok? {
        var next := ReceiveOn(codec, w, Offered(bytes), disk).value;
        ReadFlat(w, p, bytes, next);
        LinksWorker(next, Network.Received(w, p, Offered(bytes)));
        assert Refused(codec, next, Network.Received(w, p, Offered(bytes)), r);
      }
    } else {
      ReadsCut(ps, codec, w, p, bytes, disk);
    }
  }

  lemma LinksBack(w: WorkerState, p: Peer)
    ensures LinkOf(w, p).w == w && LinkOf(w, p).up == FlatUp(p)
  {
  }

  lemma DoomedIsBusy(codec: Codec, w: WorkerState, p: Peer)
    requires Doomed(codec, w, p)
    ensures w.phase.Awaiting?
  {
  }

  // Sending, and what happens at the other end.

  lemma WritesDoomed(codec: Codec, w: WorkerState, p: Peer, io: SendIO)
    requires Doomed(codec, w, p) && SendOn(w, io).Ok?
    ensures Doomed(codec, SendOn(w, io).value, SentDown(w, p, io))
  {
    hide Acceptable, Frame;
    var v, q := SendOn(w, io).value, SentDown(w, p, io);
    if r :| Refused(codec, w, p, r) {
      SendOne(w, p, io);
      assert w.unsent == [] && v == w;
      assert LinkOf(v, q) == LinkOf(w, p);
      assert Refused(codec, v, q, r);
    } else {
      assert !Delivered(v, q);
    }
  }

  /** Without a request under way the other end has nothing to do, and what the proxy moves stays on its way. */
  lemma FarLeavesRefused(ps: Parameters, codec: Codec, w: WorkerState, p: Peer, e: RelayedLink.Event, r: Response)
    requires Refused(codec, w, p, r) && FarEvent(e) && Act(ps, codec, w, p, e).Acts?
    ensures Refused(codec, w, Act(ps, codec, w, p, e).peer, r)
  {
    hide Acceptable, Direct.Replying, LinkOf, Relayed, RelayedLink.Flat, RelayedLink.Amounts, RelayedLink.Step,
      Direct.Step, ProxiedPeer, PeerOf;
    if e.Closes? {
      ClosingLeaves(w, p);
    } else if !Idles(p, e) {
      var l := LinkOf(w, p);
      RefusedIsQuiet(codec, w, p, r);
      if p.route.Straight? {
        QuietFarEnd(ps, codec, l, e.event);
        FarLeavesNearDirectly(ps, codec, l, e.event);
        LinksWorker(w, p);
      } else {
        FlatLink(w, p);
        RelayedLink.RelayRefines(ps, codec, Relayed(w, p), e);
        QuietAmounts(ps, codec, Relayed(w, p), l, e);
        if RelayedLink.Step(ps, codec, Relayed(w, p), e).Up? {
          var next := RelayedLink.Step(ps, codec, Relayed(w, p), e).link;
          RelayedWorker(w, p);
          FarLeavesNear(ps, codec, Relayed(w, p), e);
          FlatPeer(next, p.closed);
        }
      }
    }
  }

  lemma RefusedIsQuiet(codec: Codec, w: WorkerState, p: Peer, r: Response)
    requires Refused(codec, w, p, r)
    ensures LinkOf(w, p).down == [] && LinkOf(w, p).serving == None
  {
  }

  lemma QuietFarEnd(ps: Parameters, codec: Codec, l: Direct.Link, e: Direct.Event)
    requires l.down == [] && l.serving == None && (e.Take? || e.Reply?)
    ensures Direct.Step(ps, codec, l, e) == Direct.Up(l)
  {
    EmptyWaits(codec);
  }

  lemma QuietAmounts(ps: Parameters, codec: Codec, r: RelayedLink.Link, l: Direct.Link, e: RelayedLink.Event)
    requires l.down == [] && l.serving == None && FarEvent(e)
    ensures Direct.Step(ps, codec, l, RelayedLink.Amounts(codec, r, e)) == Direct.Up(l)
  {
    hide Direct.Step, ReceiveMessage;
    RelayedLink.NothingMoves(ps, codec, l);
    if e.AtEnds? {
      QuietFarEnd(ps, codec, l, e.event);
    }
  }

  lemma FarLeavesCut(ps: Parameters, codec: Codec, w: WorkerState, p: Peer, e: RelayedLink.Event)
    requires !Delivered(w, p) && FarEvent(e) && Act(ps, codec, w, p, e).Acts?
    ensures !Delivered(w, Act(ps, codec, w, p, e).peer)
  {
    hide ReceiveMessage, Handle, Frame;
  }

  lemma FarLeavesDoomed(ps: Parameters, codec: Codec, w: WorkerState, p: Peer, e: RelayedLink.Event)
    requires Doomed(codec, w, p) && FarEvent(e) && Act(ps, codec, w, p, e).Acts?
    ensures Doomed(codec, w, Act(ps, codec, w, p, e).peer)
  {
    hide Refused, Delivered, Act;
    if r :| Refused(codec, w, p, r) {
      FarLeavesRefused(ps, codec, w, p, e, r);
    } else {
      FarLeavesCut(ps, codec, w, p, e);
    }
  }

  // A round.

  lemma ReadStaysDoomed(ps: Parameters, codec: Codec, f: Farm, j: nat, e: Poll, k: nat)
    requires DoomedAt(codec, f, k) && Faithful(codec) && FarmInv(ps, codec, f) && j < |f.peers|
    requires j == k && e.recv.Offered? ==> e.recv.bytes <= f.peers[k].up
    requires ReadStep(codec, f, j, e).Going?
    ensures var g := ReadStep(codec, f, j, e).farm;
      |g.c.dead| > |f.c.dead| || (g.c.dead == f.c.dead && DoomedAt(codec, g, k) && |g.peers| == |f.peers|)
  {
    hide Doomed, ReceiveOn, Network.Received, Direct.OneOutstanding, OnScript;
    if e.readable && j == k {
      if e.recv.Offered? && e.recv.bytes != [] {
        ReadsDoomed(ps, codec, f.c.live[k], f.peers[k], e.recv.bytes, e.disk);
      } else if e.recv.Offered? {
        NothingRead(codec, f.c.live[k], f.peers[k], e.disk);
        assert Direct.LinkInv(ps, codec, LinkOf(f.c.live[k], f.peers[k]));
      } else {
        ErrorRead(codec, f.c.live[k], e);
      }
    }
  }

  lemma ErrorRead(codec: Codec, w: WorkerState, e: Poll)
    requires e.recv.RecvError?
    ensures ReceiveOn(codec, w, e.recv, e.disk).SocketFailure?
  {
  }

  lemma WriteStaysDoomed(codec: Codec, f: Farm, j: nat, e: Poll, k: nat)
    requires DoomedAt(codec, f, k) && WriteStep(f, j, e).Going?
    ensures var g := WriteStep(f, j, e).farm;
      g.c.dead == f.c.dead && DoomedAt(codec, g, k) && |g.peers| == |f.peers|
  {
    hide Doomed, SendOn, SentDown;
    if e.writable && j == k {
      WritesDoomed(codec, f.c.live[k], f.peers[k], e.send);
    }
  }

  lemma SlotStaysDoomed(ps: Parameters, codec: Codec, f: Farm, j: nat, e: Poll, k: nat)
    requires DoomedAt(codec, f, k) && Faithful(codec) && FarmInv(ps, codec, f) && j < |f.peers|
    requires j == k && e.recv.Offered? ==> e.recv.bytes <= f.peers[k].up
    requires SlotStep(codec, f, j, e).Going?
    ensures var g := SlotStep(codec, f, j, e).farm;
      |g.c.dead| > |f.c.dead| || (g.c.dead == f.c.dead && DoomedAt(codec, g, k) && |g.peers| == |f.peers|)
  {
    hide Doomed, ReadStep, WriteStep, FarmInv;
    ReadStaysDoomed(ps, codec, f, j, e, k);
    var f1 := ReadStep(codec, f, j, e).farm;
    if f1.c.dead == f.c.dead {
      WriteStaysDoomed(codec, f1, j, e, k);
    } else {
      WriteBuriesNobody(f1, j, e);
    }
  }

  lemma WriteBuriesNobody(f: Farm, j: nat, e: Poll)
    ensures WriteStep(f, j, e).Going? ==> WriteStep(f, j, e).farm.c.dead == f.c.dead
  {
  }

  lemma SlotBuries(codec: Codec, f: Farm, j: nat, e: Poll)
    ensures SlotStep(codec, f, j, e).Going? ==> |SlotStep(codec, f, j, e).farm.c.dead| >= |f.c.dead|
  {
    hide ReceiveOn, SendOn, Network.Received, SentDown;
  }

  lemma {:induction false} ScanBuries(codec: Codec, f: Farm, polls: nat -> Poll, n: nat)
    ensures ScanStep(codec, f, polls, n).Going? ==> |ScanStep(codec, f, polls, n).farm.c.dead| >= |f.c.dead|
    decreases n
  {
    hide SlotStep;
    if n > 0 && SlotStep(codec, f, n - 1, polls(n - 1)).Going? {
      SlotBuries(codec, f, n - 1, polls(n - 1));
      ScanBuries(codec, SlotStep(codec, f, n - 1, polls(n - 1)).farm, polls, n - 1);
    }
  }

  lemma {:induction false} ScanStaysDoomed(ps: Parameters, codec: Codec, f: Farm, polls: nat -> Poll, n: nat, k: nat)
    requires DoomedAt(codec, f, k) && Faithful(codec) && FarmInv(ps, codec, f) && n <= |f.peers|
    requires Honest(f.peers, polls, n) && ScanStep(codec, f, polls, n).Going?
    ensures var g := ScanStep(codec, f, polls, n).farm;
      |g.c.dead| > |f.c.dead| || (g.c.dead == f.c.dead && DoomedAt(codec, g, k) && |g.peers| == |f.peers|)
    decreases n
  {
    hide SlotStep, FarmInv, Doomed;
    if n > 0 {
      var j := n - 1;
      assert j == k && polls(j).recv.Offered? ==> polls(j).recv.bytes <= f.peers[k].up;
      SlotStaysDoomed(ps, codec, f, j, polls(j), k);
      SlotKeepsFarm(ps, codec, f, j, polls);
      var g := SlotStep(codec, f, j, polls(j)).farm;
      if g.c.dead == f.c.dead {
        ScanStaysDoomed(ps, codec, g, polls, j, k);
      } else {
        ScanBuries(codec, g, polls, j);
      }
    }
  }

  lemma JoinedStaysDoomed(codec: Codec, f: Farm, c: Controller, k: nat)
    requires DoomedAt(codec, f, k) && f.c.live <= c.live
    ensures DoomedAt(codec, Joined(c, f.peers), k)
  {
    hide Doomed;
    assert Joined(c, f.peers).peers[k] == f.peers[k] && c.live[k] == f.c.live[k];
  }

  /** Neither a new connection nor frames for idle workers are of help. */
  lemma AfterScanStaysDoomed(ps: Parameters, codec: Codec, f: Farm, e: NetEvents, k: nat)
    requires DoomedAt(codec, f, k) && AfterScanStep(ps, codec, f, e).Going?
    ensures var g := AfterScanStep(ps, codec, f, e).farm; g.c.dead == f.c.dead && DoomedAt(codec, g, k)
  {
    hide Doomed, HandOut, StartWorker, AllEncodable, Joined;
    var c := AddWorker(ps, codec, f.c, -1);
    JoinedStaysDoomed(codec, f, c, k);
    JoinedList(c, f.peers);
    var joined := if e.accepts then Joined(c, f.peers) else f;
    HandOutServes(ps, codec, joined.c, e.disks);
    DoomedIsBusy(codec, joined.c.live[k], joined.peers[k]);
    var idle := IdleSlots(joined.c.live);
    assert forall j :: 0 <= j < |idle| ==> idle[j] != k;
  }

  lemma AfterScanBuries(ps: Parameters, codec: Codec, f: Farm, e: NetEvents)
    requires AfterScanStep(ps, codec, f, e).Going?
    ensures AfterScanStep(ps, codec, f, e).farm.c.dead == f.c.dead
  {
    hide HandOut, StartWorker, AllEncodable;
    var joined := if e.accepts then Joined(AddWorker(ps, codec, f.c, -1), f.peers) else f;
    HandOutServes(ps, codec, joined.c, e.disks);
  }

  lemma RoundStaysDoomed(ps: Parameters, codec: Codec, f: Farm, e: NetEvents, k: nat)
    requires DoomedAt(codec, f, k) && Faithful(codec) && FarmInv(ps, codec, f)
    requires RoundStep(ps, codec, f, e).Going?
    ensures var g := RoundStep(ps, codec, f, e).farm;
      |g.c.dead| > |f.c.dead| || (g.c.dead == f.c.dead && DoomedAt(codec, g, k))
  {
    hide Doomed, FarmInv, ScanStep, AfterScanStep, Honest, Connect, Joined, StartWorker, JustStarted;
    ConnectAppends(ps, codec, f.c, e.connects, 0);
    ConnectBuriesNobody(ps, codec, f.c, e.connects, 0);
    var c := Connect(ps, codec, f.c, e.connects, 0).controller;
    JoinedKeeps(ps, codec, f, c);
    JoinedStaysDoomed(codec, f, c, k);
    JoinedList(c, f.peers);
    var joined := Joined(c, f.peers);
    var polls := Offers(joined.peers, e.polls);
    OffersAreHonest(joined.peers, e.polls, |c.live|);
    ScanStaysDoomed(ps, codec, joined, polls, |c.live|, k);
    var scanned := ScanStep(codec, joined, polls, |c.live|).farm;
    AfterScanBuries(ps, codec, scanned, e);
    if scanned.c.dead == f.c.dead {
      AfterScanStaysDoomed(ps, codec, scanned, e, k);
    }
  }

  lemma FarStaysDoomed(ps: Parameters, codec: Codec, f: Farm, j: nat, e: RelayedLink.Event, k: nat)
    requires DoomedAt(codec, f, k) && FarEvent(e) && FarStep(ps, codec, f, j, e).Going?
    ensures var g := FarStep(ps, codec, f, j, e).farm; g.c == f.c && DoomedAt(codec, g, k)
  {
    hide Doomed, Act;
    if j == k {
      FarLeavesDoomed(ps, codec, f.c.live[k], f.peers[k], e);
    }
  }

  // Whole runs.

  lemma StepStaysDoomed(ps: Parameters, codec: Codec, f: Farm, e: Event, k: nat)
    requires DoomedAt(codec, f, k) && Faithful(codec) && FarmInv(ps, codec, f)
    requires Step(ps, codec, f, e).Going?
    ensures var g := Step(ps, codec, f, e).farm;
      |g.c.dead| > |f.c.dead| || (g.c.dead == f.c.dead && DoomedAt(codec, g, k))
  {
    hide RoundStep, FarStep, FarmInv, DoomedAt;
    match e
    case InRound(events) => RoundStaysDoomed(ps, codec, f, events, k);
    case Takes(j) => FarStaysDoomed(ps, codec, f, j, RelayedLink.AtEnds(Direct.Take), k);
    case Replies(j, host) => FarStaysDoomed(ps, codec, f, j, RelayedLink.AtEnds(Direct.Reply(host)), k);
    case Moves(j, move) => FarStaysDoomed(ps, codec, f, j, RelayedLink.InProxy(move), k);
    case Closes(j) => FarStaysDoomed(ps, codec, f, j, RelayedLink.Closes, k);
  }

  lemma StepBuries(ps: Parameters, codec: Codec, f: Farm, e: Event)
    requires Step(ps, codec, f, e).Going?
    ensures |Step(ps, codec, f, e).farm.c.dead| >= |f.c.dead|
  {
    hide ScanStep, AfterScanStep, Act, Connect, Joined;
    if e.InRound? {
      ConnectBuriesNobody(ps, codec, f.c, e.e.connects, 0);
      var c := Connect(ps, codec, f.c, e.e.connects, 0).controller;
      JoinedList(c, f.peers);
      var joined := Joined(c, f.peers);
      var polls := Offers(joined.peers, e.e.polls);
      ScanBuries(codec, joined, polls, |c.live|);
      AfterScanBuries(ps, codec, ScanStep(codec, joined, polls, |c.live|).farm, e.e);
    }
  }

  lemma {:induction false} RunBuries(ps: Parameters, codec: Codec, f: Farm, events: seq<Event>)
    requires RunFarm(ps, codec, f, events).Completed?
    ensures |RunFarm(ps, codec, f, events).farm.c.dead| >= |f.c.dead|
    decreases |events|
  {
    hide Step, Done;
    if !Done(f.c) {
      StepBuries(ps, codec, f, events[0]);
      RunBuries(ps, codec, Step(ps, codec, f, events[0]).farm, events[1..]);
    }
  }

  /**
   * With an answer pending that will be refused, or a request cut off, the
   * controller exits normally only over a lost connection.
   */
  lemma {:induction false} LosesConnection(ps: Parameters, codec: Codec, f: Farm, events: seq<Event>, k: nat)
    requires Faithful(codec) && FarmInv(ps, codec, f) && DoomedAt(codec, f, k)
    requires RunFarm(ps, codec, f, events).Completed?
    ensures |RunFarm(ps, codec, f, events).farm.c.dead| > |f.c.dead|
    decreases |events|
  {
    hide FarmInv, Step, Doomed, Done;
    assert !Done(f.c) by {
      DoomedIsBusy(codec, f.c.live[k], f.peers[k]);
      BusyGoesOn(f.c, k);
    }
    StepKeepsFarm(ps, codec, f, events[0]);
    StepStaysDoomed(ps, codec, f, events[0], k);
    var g := Step(ps, codec, f, events[0]).farm;
    if g.c.dead == f.c.dead {
      LosesConnection(ps, codec, g, events[1..], k);
    } else {
      RunBuries(ps, codec, g, events[1..]);
    }
  }

  /** With files to set up every proxy costs a connection in the end. */
  lemma {:induction false} ProxiesCost(ps: Parameters, codec: Codec, frames: seq<int>, f: Farm, events: seq<Event>)
    requires Faithful(codec) && FarmInv(ps, codec, f) && Reached(ps, codec, frames, f.c) && SetupScript(ps) != [Hello]
    requires !Done(f.c) && RunFarm(ps, codec, f, events).Completed?
    ensures |RunFarm(ps, codec, f, events).farm.c.dead| >= |f.c.dead| + ps.proxyCount
    decreases |events|
  {
    hide FarmInv, RoundStep, FarStep, Done, Reached, SetupScript, Round;
    var e := events[0];
    var g := Step(ps, codec, f, e).farm;
    StepKeepsFarm(ps, codec, f, e);
    StepBuries(ps, codec, f, e);
    if e.InRound? {
      PeersPerWorker(ps, codec, f);
      var round := RoundIsRound(ps, codec, f, e.e);
      RoundReached(ps, codec, frames, f.c, round);
      if Done(g.c) {
        DoneIsOver(g.c);
        LastRound(ps, codec, frames, f.c, round);
      }
    }
    if Done(g.c) {
      assert RunFarm(ps, codec, g, events[1..]) == Completed(g);
    } else {
      ProxiesCost(ps, codec, frames, g, events[1..]);
    }
  }

  lemma DoneIsOver(c: Controller)
    requires Done(c)
    ensures Over(c)
  {
  }

  lemma SomeDoom(ps: Parameters, codec: Codec, f: Farm) returns (k: nat)
    requires FarmInv(ps, codec, f) && !(NoFailurePending(codec, f) && NothingCut(f))
    ensures DoomedAt(codec, f, k)
  {
    hide Direct.Asks, Direct.AllAsk, WorkerInv, Acceptable, Frame, Delivered;
    if NoFailurePending(codec, f) {
      k :| k < |f.peers| && k < |f.c.live| && !Delivered(f.c.live[k], f.peers[k]);
    } else {
      k :| k < |f.peers| && k < |f.c.live| && FlatUp(f.peers[k]) != []
        && !exists r :: Acceptable(codec, LinkOf(f.c.live[k], f.peers[k]), r);
      var l := LinkOf(f.c.live[k], f.peers[k]);
      assert Direct.LinkInv(ps, codec, l);
      var r: Response :| r.requestType == l.w.phase.pending.Type() && Direct.Replying(codec, l, r);
      assert Refused(codec, f.c.live[k], f.peers[k], r);
    }
  }

  ghost predicate CanFinishUndisturbed(ps: Parameters, codec: Codec, frames: seq<int>, events: seq<Event>)
    requires RunFarm(ps, codec, Begin(frames), events).Underway?
    requires RunFarm(ps, codec, Begin(frames), events).status.Going?
  {
    exists more: seq<Event> ::
      && RunFarm(ps, codec, Begin(frames), events + more).Completed?
      && RunFarm(ps, codec, Begin(frames), events + more).farm.c.dead
         == RunFarm(ps, codec, Begin(frames), events).status.farm.c.dead
  }

  /**
   * The controller can get to its normal exit without losing a connection
   * exactly if no answer is pending that it will refuse, no connection has
   * been closed over a request that still needs it, and there are no proxies
   * or connections to them have nothing to set up.
   */
  lemma UndisturbedExactly(ps: Parameters, codec: Codec, frames: seq<int>, events: seq<Event>)
    requires Faithful(codec) && Manageable(ps, codec, frames)
    requires RunFarm(ps, codec, Begin(frames), events).Underway?
    requires RunFarm(ps, codec, Begin(frames), events).status.Going?
    ensures var f := RunFarm(ps, codec, Begin(frames), events).status.farm;
      CanFinishUndisturbed(ps, codec, frames, events)
      <==> NoFailurePending(codec, f) && NothingCut(f) && NothingToSetUp(ps)
  {
    hide RunFarm, FarmInv, Manageable, NoFailurePending, NothingCut, DoomedAt, NothingToSetUp;
    var f := RunFarm(ps, codec, Begin(frames), events).status.farm;
    if NoFailurePending(codec, f) && NothingCut(f) && NothingToSetUp(ps) {
      var more := CanFinishUnbroken(ps, codec, frames, events);
    } else {
      forall more: seq<Event> | RunFarm(ps, codec, Begin(frames), events + more).Completed?
        ensures |RunFarm(ps, codec, Begin(frames), events + more).farm.c.dead| > |f.c.dead|
      {
        Disturbed(ps, codec, frames, events, more);
      }
    }
  }

  lemma Disturbed(ps: Parameters, codec: Codec, frames: seq<int>, events: seq<Event>, more: seq<Event>)
    requires Faithful(codec)
    requires RunFarm(ps, codec, Begin(frames), events).Underway?
    requires RunFarm(ps, codec, Begin(frames), events).status.Going?
    requires var f := RunFarm(ps, codec, Begin(frames), events).status.farm;
      !(NoFailurePending(codec, f) && NothingCut(f) && NothingToSetUp(ps))
    requires RunFarm(ps, codec, Begin(frames), events + more).Completed?
    ensures |RunFarm(ps, codec, Begin(frames), events + more).farm.c.dead|
          > |RunFarm(ps, codec, Begin(frames), events).status.farm.c.dead|
  {
    hide RunFarm, FarmInv, NoFailurePending, NothingCut, DoomedAt, SetupScript, Done, Reached;
    var f := RunFarm(ps, codec, Begin(frames), events).status.farm;
    BeginInv(ps, codec, frames);
    RunKeepsFarm(ps, codec, Begin(frames), events);
    UnderwayIsNotDone(ps, codec, Begin(frames), events);
    RunOn(ps, codec, Begin(frames), events, more);
    if NothingToSetUp(ps) {
      var k := SomeDoom(ps, codec, f);
      LosesConnection(ps, codec, f, more, k);
    } else {
      FarmReached(ps, codec, frames, events);
      ProxiesCost(ps, codec, frames, f, more);
    }
  }
}
