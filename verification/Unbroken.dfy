/** A way on to the normal exit on which no connection is lost. */
module Unbroken {
  import opened Framing
  import opened Protocol
  import opened Scheduler
  import opened Rounds
  import opened Walks
  import opened Guarantees
  import opened Network
  import opened OneWorker
  import opened Driving
  import opened Finishing
  import RelayedLink
  import Direct = Connection
  import Totals

  // What is held back comes up to the last byte.

  /** The same but for worker k. */
  predicate OnlyAt(f: Farm, g: Farm, k: nat) {
    && g.c.queue == f.c.queue && g.c.dead == f.c.dead && SamePlaces(f, g)
    && (forall j :: 0 <= j < |f.c.live| && j < |g.c.live| && j != k ==> g.c.live[j] == f.c.live[j])
    && (forall j :: 0 <= j < |f.peers| && j < |g.peers| && j != k ==> g.peers[j] == f.peers[j])
  }

  lemma OnlyOver(f: Farm, g: Farm, h: Farm, k: nat)
    requires OnlyAt(f, g, k) && OnlyAt(g, h, k)
    ensures OnlyAt(f, h, k)
  {
  }

  lemma {:induction false} BringsUp(ps: Parameters, codec: Codec, f: Farm, k: nat)
    returns (events: seq<Event>, g: Farm)
    requires Fine(ps, codec, f) && Settled(f.c) && Faithful(codec) && k < |f.peers|
    requires f.c.live[k].phase.Awaiting? && f.c.live[k].phase.rest == [] && Holding(f.c.live[k], f.peers[k])
    ensures LeadsTo(ps, codec, f, events, g) && Fine(ps, codec, g) && Settled(g.c) && OnlyAt(f, g, k)
    ensures OneByte(g.c.live[k], g.peers[k])
    decreases Direct.Stage(LinkOf(f.c.live[k], f.peers[k])), |f.c.live[k].unsent| + |FlatUp(f.peers[k])|,
      ToMove(f.peers[k])
  {
    hide Direct.LinkInv, AllGood, Good, Manageable, AllCarried, Settled, Step, LeadsTo, Done, NextEvent, Potential,
      ToMove, Manned, FlatUp, OneByte;
    if OneByte(f.c.live[k], f.peers[k]) {
      events, g := [], f;
      assert LeadsTo(ps, codec, f, [], f) by { Stays(ps, codec, f); }
    } else {
      var next, w, p := AheadStep(ps, codec, f, k);
      var e := NextEvent(f, k);
      assert !Done(f.c) by { BusyGoesOn(f.c, k); }
      LeadsByOne(ps, codec, f, e, next);
      var more;
      more, g := BringsUp(ps, codec, next, k);
      LeadsOn(ps, codec, f, [e], next, more, g);
      OnlyOver(f, next, g, k);
      events := [e] + more;
    }
  }

  lemma Stays(ps: Parameters, codec: Codec, f: Farm)
    ensures LeadsTo(ps, codec, f, [], f)
  {
  }

  /** Nobody is asked for anything more after what is held back. */
  predicate NoneAfter(f: Farm) {
    forall k :: 0 <= k < |f.c.live| && f.c.live[k].phase.Awaiting? ==> f.c.live[k].phase.rest == []
  }

  predicate AllOneByte(f: Farm, n: nat) {
    forall k :: 0 <= k < n && k < |f.c.live| && k < |f.peers| && f.c.live[k].phase.Awaiting? ==>
      OneByte(f.c.live[k], f.peers[k])
  }

  lemma OnlyAtKeeps(f: Farm, g: Farm, k: nat)
    requires OnlyAt(f, g, k) && |f.peers| == |f.c.live| && k < |f.peers|
    requires OnlyHeld(f) && NoneAfter(f) && AllOneByte(f, k) && OneByte(g.c.live[k], g.peers[k])
    requires Holding(f.c.live[k], f.peers[k])
    ensures OnlyHeld(g) && NoneAfter(g) && AllOneByte(g, k + 1)
  {
  }

  lemma {:induction false} BringsAll(ps: Parameters, codec: Codec, f: Farm, n: nat)
    returns (events: seq<Event>, g: Farm)
    requires Fine(ps, codec, f) && Faithful(codec) && n <= |f.peers|
    requires OnlyHeld(f) && NoneAfter(f) && AllOneByte(f, n)
    ensures LeadsTo(ps, codec, f, events, g) && Fine(ps, codec, g) && g.c.queue == [] && g.c.dead == f.c.dead
    ensures NoneAfter(g) && AllOneByte(g, |g.peers|)
    decreases |f.peers| - n
  {
    hide Direct.LinkInv, AllGood, Good, Manageable, AllCarried, LeadsTo, Manned, OneByte, Holding;
    if n == |f.peers| {
      events, g := [], f;
      Stays(ps, codec, f);
    } else if f.c.live[n].phase.Awaiting? {
      var first, next := BringsUp(ps, codec, f, n);
      OnlyAtKeeps(f, next, n);
      var more;
      more, g := BringsAll(ps, codec, next, n + 1);
      LeadsOn(ps, codec, f, first, next, more, g);
      events := first + more;
    } else {
      events, g := BringsAll(ps, codec, f, n + 1);
    }
  }

  // All last bytes arrive in one round.

  lemma Delivers(ps: Parameters, codec: Codec, l: Direct.Link)
    requires Direct.LinkInv(ps, codec, l) && Faithful(codec) && Promising(codec, l) && l.w.phase.Awaiting?
    requires l.w.phase.rest == [] && |l.up| == 1 && Direct.Stage(l) == 0
    ensures Direct.ArriveStep(codec, l, 1, GOOD_DISK).Up?
    ensures var w := Direct.ArriveStep(codec, l, 1, GOOD_DISK).link.w; w.phase.Idle? && w.unsent == []
  {
    hide WorkerInv, Direct.OneOutstanding, Promising, Direct.ArriveStep;
    ArrivesOn(ps, codec, l);
    GoesAhead(ps, codec, l);
    var next := Direct.ArriveStep(codec, l, 1, GOOD_DISK).link;
    if |next.w.done| == |l.w.done| {
      ResponseIsThere(ps, codec, next);
      assert false;
    }
    ExchangesOfOne(ps, l.w);
    ExchangesOfOne(ps, next.w);
    IdleSilent(ps, codec, next);
  }

  lemma IdleSilent(ps: Parameters, codec: Codec, l: Direct.Link)
    requires Direct.LinkInv(ps, codec, l) && l.w.phase.Idle?
    ensures l.w.unsent == []
  {
  }

  /** The poll of a slot in the last round. */
  function LastPoll(f: Farm, k: nat): NetPoll {
    if k < |f.c.live| && f.c.live[k].phase.Awaiting? then Hearing() else Calm()
  }

  function LastBytes(f: Farm): NetEvents {
    NetEvents(_ => true, (k: nat) => LastPoll(f, k), false, _ => GOOD_DISK)
  }

  /** One byte is left for this worker, and nothing after it. */
  ghost predicate Due(ps: Parameters, codec: Codec, w: WorkerState, p: Peer) {
    && Direct.LinkInv(ps, codec, LinkOf(w, p)) && Promising(codec, LinkOf(w, p)) && OneByte(w, p)
  }

  lemma DueIsThere(ps: Parameters, codec: Codec, w: WorkerState, p: Peer)
    requires Due(ps, codec, w, p)
    ensures LinkOf(w, p).up == p.up && Direct.Stage(LinkOf(w, p)) == 0
  {
    hide WorkerInv, Direct.AllAsk, Direct.Asks, Frame, Promising;
    ArrivedUp(p);
  }

  lemma DueSlot(ps: Parameters, codec: Codec, f: Farm, k: nat) returns (w: WorkerState, p: Peer)
    requires k < |f.c.live| == |f.peers| && Faithful(codec) && Due(ps, codec, f.c.live[k], f.peers[k])
    ensures SlotStep(codec, f, k, Offer(f.peers, k, Hearing())) == Going(Put(f, k, w, p))
    ensures w.phase.Idle? && Encodable(w)
  {
    hide Direct.LinkInv, Promising, Direct.ArriveStep, SlotStep, Put, LinkOf;
    DueIsThere(ps, codec, f.c.live[k], f.peers[k]);
    LinksWorker(f.c.live[k], f.peers[k]);
    Delivers(ps, codec, LinkOf(f.c.live[k], f.peers[k]));
    w, p := HearSlot(ps, codec, f, k);
    LinksWorker(w, p);
  }

  lemma {:induction false} DeliversAll(ps: Parameters, codec: Codec, f: Farm, was: Farm, polls: nat -> Poll, n: nat)
    requires Faithful(codec) && n <= |f.c.live| == |f.peers| == |was.c.live| == |was.peers|
    requires forall k: nat :: k < n ==> polls(k) == Offer(was.peers, k, LastPoll(was, k))
    requires forall k :: 0 <= k < n ==> f.c.live[k] == was.c.live[k] && f.peers[k] == was.peers[k]
    requires forall k :: 0 <= k < n ==>
      if f.c.live[k].phase.Awaiting? then Due(ps, codec, f.c.live[k], f.peers[k]) else Encodable(f.c.live[k])
    requires forall k :: n <= k < |f.c.live| ==> f.c.live[k].phase.Idle? && Encodable(f.c.live[k])
    ensures ScanStep(codec, f, polls, n).Going?
    ensures var g := ScanStep(codec, f, polls, n).farm;
      && g.c.queue == f.c.queue && g.c.dead == f.c.dead && AllEncodable(g.c.live) && !AnyWorking(g.c.live)
    decreases n
  {
    hide SlotStep, Due, Encodable;
    if n > 0 {
      var k := n - 1;
      var next := f;
      assert Offer(was.peers, k, LastPoll(was, k)) == Offer(f.peers, k, LastPoll(f, k));
      if f.c.live[k].phase.Awaiting? {
        var w, p := DueSlot(ps, codec, f, k);
        next := Put(f, k, w, p);
      } else {
        CalmSlot(codec, f, k, polls(k));
      }
      assert SlotStep(codec, f, k, polls(k)) == Going(next);
      DeliversAll(ps, codec, next, was, polls, k);
    }
  }

  lemma CalmSlot(codec: Codec, f: Farm, k: nat, e: Poll)
    requires IsCalm(e)
    ensures SlotStep(codec, f, k, e) == Going(f)
  {
  }

  lemma LastBytesWell(ps: Parameters, codec: Codec, f: Farm) returns (g: Farm)
    requires Fine(ps, codec, f) && Faithful(codec) && f.c.queue == [] && NoneAfter(f) && AllOneByte(f, |f.peers|)
    ensures RoundStep(ps, codec, f, LastBytes(f)) == Going(g) && Done(g.c) && g.c.dead == f.c.dead
  {
    hide Direct.LinkInv, Promising, AllCarried, ScanStep, Connect, SidesApart, Delivered;
    var e := LastBytes(f);
    NobodyToConnect(ps, codec, f.c, e.connects, 0);
    assert Joined(f.c, f.peers) == f;
    var polls := Offers(f.peers, e.polls);
    forall k: nat | k < |f.c.live|
      ensures polls(k) == Offer(f.peers, k, LastPoll(f, k)) && Encodable(f.c.live[k])
      ensures f.c.live[k].phase.Awaiting? ==> Due(ps, codec, f.c.live[k], f.peers[k])
    {
      LinkEncodable(ps, codec, f.c.live[k], f.peers[k]);
    }
    DeliversAll(ps, codec, f, f, polls, |f.c.live|);
    g := ScanStep(codec, f, polls, |f.c.live|).farm;
    assert HandOut(ps, codec, g.c, e.disks) == Scheduler.Running(g.c);
  }

  // What the workers have before them comes from the frames.

  lemma {:induction false} ScriptFits(ps: Parameters, codec: Codec, frames: seq<int>, given: seq<int>)
    requires Manageable(ps, codec, frames) && forall k :: 0 <= k < |given| ==> given[k] in frames
    ensures AllFit(codec, Script(ps, given))
  {
    hide Fit, FrameScript, SetupScript;
    if given != [] {
      var n := |given| - 1;
      ScriptFits(ps, codec, frames, given[..n]);
      assert given[n] in frames;
      var j :| 0 <= j < |frames| && frames[j] == given[n];
      assert AllFit(codec, FrameScript(ps, frames[j]));
    }
  }

  lemma OutstandingFits(ps: Parameters, codec: Codec, frames: seq<int>, w: WorkerState)
    requires Manageable(ps, codec, frames) && WorkerInv(ps, w)
    requires forall k :: 0 <= k < |w.given| ==> w.given[k] in frames
    ensures AllFit(codec, Outstanding(w.phase))
  {
    hide Fit, Manageable, Script;
    ScriptFits(ps, codec, frames, w.given);
    var before, left := Actions(w.done), Outstanding(w.phase);
    forall k | 0 <= k < |left| ensures Fit(codec, left[k]) {
      assert left[k] == Script(ps, w.given)[|before| + k];
    }
  }

  /** Answers on their way to the controller are ones it will accept. */
  ghost predicate NoFailurePending(codec: Codec, f: Farm) {
    forall k :: 0 <= k < |f.peers| && k < |f.c.live| && FlatUp(f.peers[k]) != [] ==>
      exists r :: Acceptable(codec, LinkOf(f.c.live[k], f.peers[k]), r)
  }

  // What holds in every run.

  lemma StepSettles(ps: Parameters, codec: Codec, f: Farm, e: Event)
    requires Settled(f.c) && Step(ps, codec, f, e).Going?
    ensures Settled(Step(ps, codec, f, e).farm.c)
  {
    hide Connect, ScanStep, AllEncodable, HandOut, Joined, Act;
    if e.InRound? {
      var joined := Joined(Connect(ps, codec, f.c, e.e.connects, 0).controller, f.peers);
      var polls := Offers(joined.peers, e.e.polls);
      var scanned := ScanStep(codec, joined, polls, |Connect(ps, codec, f.c, e.e.connects, 0).controller.live|).farm;
      HandsSettled(ps, codec, scanned, e.e);
    }
  }

  lemma HandsSettled(ps: Parameters, codec: Codec, f: Farm, e: NetEvents)
    requires AfterScanStep(ps, codec, f, e).Going?
    ensures Settled(AfterScanStep(ps, codec, f, e).farm.c)
  {
    hide HandOut, Joined, AllEncodable, StartWorker;
    var joined := if e.accepts then Joined(AddWorker(ps, codec, f.c, -1), f.peers) else f;
    HandOutServes(ps, codec, joined.c, e.disks);
  }

  /** Each proxy keeps the descriptors of the two sides apart. */
  predicate AllApart(peers: seq<Peer>) {
    forall k :: 0 <= k < |peers| ==> SidesApart(peers[k])
  }

  lemma SlotStaysApart(codec: Codec, f: Farm, k: nat, e: Poll)
    requires AllApart(f.peers) && SlotStep(codec, f, k, e).Going?
    ensures AllApart(SlotStep(codec, f, k, e).farm.peers)
  {
    hide ReadStep, WriteStep, HangStep, AllApart;
    ReadStaysApart(codec, f, k, e);
    if ReadStep(codec, f, k, e).Going? {
      var f1 := ReadStep(codec, f, k, e).farm;
      WriteStaysApart(f1, k, e);
      if WriteStep(f1, k, e).Going? {
        HangStaysApart(WriteStep(f1, k, e).farm, k, e);
      }
    }
  }

  lemma ReadStaysApart(codec: Codec, f: Farm, k: nat, e: Poll)
    requires AllApart(f.peers) && ReadStep(codec, f, k, e).Going?
    ensures AllApart(ReadStep(codec, f, k, e).farm.peers)
  {
    hide ReceiveOn, Want, Encodable, Kill;
  }

  lemma WriteStaysApart(f: Farm, k: nat, e: Poll)
    requires AllApart(f.peers) && WriteStep(f, k, e).Going?
    ensures AllApart(WriteStep(f, k, e).farm.peers)
  {
    hide SendOn;
  }

  lemma HangStaysApart(f: Farm, k: nat, e: Poll)
    requires AllApart(f.peers) && HangStep(f, k, e).Going?
    ensures AllApart(HangStep(f, k, e).farm.peers)
  {
    hide Kill;
  }

  lemma {:induction false} ScanStaysApart(codec: Codec, f: Farm, polls: nat -> Poll, n: nat)
    requires AllApart(f.peers) && ScanStep(codec, f, polls, n).Going?
    ensures AllApart(ScanStep(codec, f, polls, n).farm.peers)
    decreases n
  {
    hide SlotStep, AllApart;
    if n > 0 {
      SlotStaysApart(codec, f, n - 1, polls(n - 1));
      ScanStaysApart(codec, SlotStep(codec, f, n - 1, polls(n - 1)).farm, polls, n - 1);
    }
  }

  lemma JoinedStaysApart(c: Controller, peers: seq<Peer>)
    requires AllApart(peers)
    ensures AllApart(Joined(c, peers).peers)
  {
    forall k | 0 <= k < |Joined(c, peers).peers| ensures SidesApart(Joined(c, peers).peers[k]) {
      if k >= |peers| {
        assert SidesApart(NewPeer(c.live[k]));
      }
    }
  }

  lemma ActStaysApart(ps: Parameters, codec: Codec, w: WorkerState, p: Peer, e: RelayedLink.Event)
    requires SidesApart(p) && Act(ps, codec, w, p, e).Acts?
    ensures SidesApart(Act(ps, codec, w, p, e).peer)
  {
    hide Direct.Step;
  }

  lemma FarStaysApart(ps: Parameters, codec: Codec, f: Farm, k: nat, e: RelayedLink.Event)
    requires AllApart(f.peers) && FarStep(ps, codec, f, k, e).Going?
    ensures AllApart(FarStep(ps, codec, f, k, e).farm.peers)
  {
    hide Act, SidesApart;
    if k < |f.c.live| && k < |f.peers| {
      ActStaysApart(ps, codec, f.c.live[k], f.peers[k], e);
    }
  }

  lemma RoundStaysApart(ps: Parameters, codec: Codec, f: Farm, e: NetEvents)
    requires AllApart(f.peers) && RoundStep(ps, codec, f, e).Going?
    ensures AllApart(RoundStep(ps, codec, f, e).farm.peers)
  {
    hide ScanStep, HandOut, AllEncodable, StartWorker, Connect, Joined, AllApart;
    var c := Connect(ps, codec, f.c, e.connects, 0).controller;
    JoinedStaysApart(c, f.peers);
    var joined := Joined(c, f.peers);
    var polls := Offers(joined.peers, e.polls);
    ScanStaysApart(codec, joined, polls, |c.live|);
    var scanned := ScanStep(codec, joined, polls, |c.live|).farm;
    JoinedStaysApart(AddWorker(ps, codec, scanned.c, -1), scanned.peers);
  }

  lemma StepStaysApart(ps: Parameters, codec: Codec, f: Farm, e: Event)
    requires AllApart(f.peers) && Step(ps, codec, f, e).Going?
    ensures AllApart(Step(ps, codec, f, e).farm.peers)
  {
    hide RoundStep, FarStep, AllApart;
    match e
    case InRound(events) => RoundStaysApart(ps, codec, f, events);
    case Takes(k) => FarStaysApart(ps, codec, f, k, RelayedLink.AtEnds(Direct.Take));
    case Replies(k, host) => FarStaysApart(ps, codec, f, k, RelayedLink.AtEnds(Direct.Reply(host)));
    case Moves(k, move) => FarStaysApart(ps, codec, f, k, RelayedLink.InProxy(move));
    case Closes(k) => FarStaysApart(ps, codec, f, k, RelayedLink.Closes);
  }

  lemma {:induction false} RunStays(ps: Parameters, codec: Codec, f: Farm, events: seq<Event>)
    requires Settled(f.c) && AllApart(f.peers)
    requires RunFarm(ps, codec, f, events).Underway? && RunFarm(ps, codec, f, events).status.Going?
    ensures Settled(RunFarm(ps, codec, f, events).status.farm.c)
    ensures AllApart(RunFarm(ps, codec, f, events).status.farm.peers)
    decreases |events|
  {
    hide Step, Done, AllApart, Settled;
    if events != [] {
      StepSettles(ps, codec, f, events[0]);
      StepStaysApart(ps, codec, f, events[0]);
      RunStays(ps, codec, Step(ps, codec, f, events[0]).farm, events[1..]);
    }
  }

  // To the end.

  /** No connection has been closed over a request that still needs it. */
  predicate NothingCut(f: Farm) {
    forall k :: 0 <= k < |f.peers| && k < |f.c.live| ==> Delivered(f.c.live[k], f.peers[k])
  }

  /** A connection to a proxy that has just been welcomed has nothing to do. */
  predicate NothingToSetUp(ps: Parameters) {
    ps.proxyCount == 0 || SetupScript(ps) == [Hello]
  }

  lemma BecomesGood(ps: Parameters, codec: Codec, frames: seq<int>, f: Farm)
    requires FarmInv(ps, codec, f) && NoFailurePending(codec, f) && NothingCut(f) && AllApart(f.peers)
    requires Manageable(ps, codec, frames) && OnlyFrom(frames, f.c)
    ensures AllGood(codec, f) && Manageable(ps, codec, f.c.queue)
  {
    hide Acceptable, AllFit, Direct.OneOutstanding, WorkerInv, Manageable, SidesApart, Delivered;
    ManageableFrom(ps, codec, frames, f.c.queue);
    forall k | 0 <= k < |f.peers| ensures Good(codec, f.c.live[k], f.peers[k]) {
      assert f.c.live[k] in f.c.live + f.c.dead;
      assert Direct.LinkInv(ps, codec, LinkOf(f.c.live[k], f.peers[k]));
      OutstandingFits(ps, codec, frames, f.c.live[k]);
    }
  }

  lemma NoneAfterHeld(ps: Parameters, codec: Codec, frames: seq<int>, f: Farm)
    requires Fine(ps, codec, f) && OnlyHeld(f) && Reached(ps, codec, frames, f.c) && NothingToSetUp(ps)
    ensures NoneAfter(f)
  {
    hide Direct.OneOutstanding, WorkerInv, Promising, Reached, Manageable, SetupScript, AllCarried, NoneLost, Balanced;
    ReachedInv(ps, codec, frames, Totals.One(), f.c);
    forall k | 0 <= k < |f.c.live| && f.c.live[k].phase.Awaiting? ensures f.c.live[k].phase.rest == [] {
      if !f.peers[k].closed {
        PendingRest(ps, f.c.live[k]);
      }
    }
  }

  lemma PendingRest(ps: Parameters, w: WorkerState)
    requires WorkerInv(ps, w) && w.proxyIndex != -1 && SetupScript(ps) == [Hello]
    ensures w.phase.Awaiting? && w.phase.rest == []
  {
    hide SetupScript;
    PendingIsFresh(ps, w);
    assert Actions(w.done) + Outstanding(w.phase) == Outstanding(w.phase);
  }

  lemma GoingStays(ps: Parameters, codec: Codec, f: Farm)
    requires !Done(f.c)
    ensures RunFarm(ps, codec, f, []) == Underway(Going(f))
  {
  }

  /** The last answers come up to their last bytes, and these arrive together. */
  lemma Delivering(ps: Parameters, codec: Codec, f: Farm) returns (events: seq<Event>)
    requires Fine(ps, codec, f) && Faithful(codec) && OnlyHeld(f) && NoneAfter(f)
    ensures RunFarm(ps, codec, f, events).Completed? && RunFarm(ps, codec, f, events).farm.c.dead == f.c.dead
  {
    hide RunFarm, FarmInv, RoundStep, Manageable, Done, OnlyHeld, AllGood, AllCarried, NoneAfter, Manned;
    var g;
    events, g := BringsAll(ps, codec, f, 0);
    if !Done(g.c) {
      var end := LastBytesWell(ps, codec, g);
      var last := InRound(LastBytes(g));
      LeadsByOne(ps, codec, g, last, end);
      LeadsOn(ps, codec, f, events, g, [last], end);
      events := events + [last];
      g := end;
    }
    Exits(ps, codec, g);
  }

  /** What is not held back first, then what is. */
  lemma UpToLast(ps: Parameters, codec: Codec, frames: seq<int>, before: seq<Event>, f: Farm)
    returns (events: seq<Event>)
    requires RunFarm(ps, codec, Begin(frames), before) == Underway(Going(f)) && !Done(f.c)
    requires FarmInv(ps, codec, f) && Faithful(codec) && AllGood(codec, f) && Manageable(ps, codec, f.c.queue)
    requires Settled(f.c) && NothingToSetUp(ps)
    ensures RunFarm(ps, codec, f, events).Completed? && RunFarm(ps, codec, f, events).farm.c.dead == f.c.dead
  {
    hide RunFarm, FarmInv, RoundStep, Manageable, Done, StartWorker, Fine, OnlyHeld, AllGood, Settled, Reached,
      NoneAfter, AllOneByte;
    var g := OpensWell(ps, codec, f);
    var opening := InRound(Opening());
    LeadsByOne(ps, codec, f, opening, g);
    var more, h := DrivesAll(ps, codec, g, |g.peers| - 1);
    LeadsOn(ps, codec, f, [opening], g, more, h);
    events := [opening] + more;
    if Done(h.c) {
      Exits(ps, codec, h);
    } else {
      GoingStays(ps, codec, h);
      RunOn(ps, codec, Begin(frames), before, events);
      FarmReached(ps, codec, frames, before + events);
      NoneAfterHeld(ps, codec, frames, h);
      var rest := Delivering(ps, codec, h);
      RunOn(ps, codec, f, events, rest);
      events := events + rest;
    }
  }

  /**
   * Whatever has happened, as long as the loop goes on, no answer is on its
   * way that will be refused, nothing has been cut off and connections to
   * proxies have nothing to set up, there are events after which the
   * controller exits normally, and no connection is lost on the way.
   */
  lemma CanFinishUnbroken(ps: Parameters, codec: Codec, frames: seq<int>, events: seq<Event>)
    returns (more: seq<Event>)
    requires Faithful(codec) && Manageable(ps, codec, frames) && NothingToSetUp(ps)
    requires RunFarm(ps, codec, Begin(frames), events).Underway?
    requires RunFarm(ps, codec, Begin(frames), events).status.Going?
    requires NoFailurePending(codec, RunFarm(ps, codec, Begin(frames), events).status.farm)
    requires NothingCut(RunFarm(ps, codec, Begin(frames), events).status.farm)
    ensures RunFarm(ps, codec, Begin(frames), events + more).Completed?
    ensures RunFarm(ps, codec, Begin(frames), events + more).farm.c.dead
         == RunFarm(ps, codec, Begin(frames), events).status.farm.c.dead
  {
    hide RunFarm, FarmInv, Manageable, Reached, OnlyFrom, NoFailurePending, NothingCut, Settled, Done, AllApart,
      AllGood;
    var f := RunFarm(ps, codec, Begin(frames), events).status.farm;
    BeginInv(ps, codec, frames);
    BeginStays(frames);
    RunKeepsFarm(ps, codec, Begin(frames), events);
    UnderwayIsNotDone(ps, codec, Begin(frames), events);
    FarmReached(ps, codec, frames, events);
    ReachedWithin(ps, codec, frames, f.c);
    RunStays(ps, codec, Begin(frames), events);
    BecomesGood(ps, codec, frames, f);
    more := UpToLast(ps, codec, frames, events, f);
    RunOn(ps, codec, Begin(frames), events, more);
  }

  lemma BeginStays(frames: seq<int>)
    ensures Settled(Begin(frames).c) && AllApart(Begin(frames).peers)
  {
  }
}
