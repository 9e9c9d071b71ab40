/** From every state of a farm there is a way to the normal exit, proxies or not. */
module Finishing {
  import opened Framing
  import opened Protocol
  import opened Scheduler
  import opened Rounds
  import opened Walks
  import opened Guarantees
  import opened Network
  import opened OneWorker
  import opened Driving
  import Direct = Connection

  // The first round: the proxies are connected to, and a worker connects.

  function Opening(): NetEvents {
    Rounding(Calm(), true)
  }

  lemma {:induction false} ConnectsAll(ps: Parameters, codec: Codec, c: Controller, connects: nat -> bool, i: nat)
    requires forall n: nat :: connects(n)
    ensures var r := Connect(ps, codec, c, connects, i);
      r.Running? && r.controller.queue == c.queue && r.controller.dead == c.dead
    decreases ps.proxyCount - i
  {
    hide StartWorker;
    if i < ps.proxyCount {
      ConnectsAll(ps, codec, if Carries(c.live, i) then c else AddWorker(ps, codec, c, i), connects, i + 1);
    }
  }

  lemma StartsGood(ps: Parameters, codec: Codec, i: int)
    requires AllFit(codec, SetupScript(ps))
    ensures var w := StartWorker(ps, codec, i);
      Good(codec, w, NewPeer(w)) && w.phase.Awaiting? && !NewPeer(w).closed && w.proxyIndex == i
  {
    hide Fit, Acceptable;
    var none: Bytes := [];
    assert none + none + none == none;
    assert [Hello] + SetupScript(ps)[1..] == SetupScript(ps);
  }

  /** What was there stays, and what is new is busy and good. */
  predicate Appended(f: Farm, g: Farm) {
    && f.c.live <= g.c.live && f.peers <= g.peers && g.c.queue == f.c.queue && g.c.dead == f.c.dead
    && |g.peers| == |g.c.live|
    && forall k :: |f.peers| <= k < |g.peers| ==> g.c.live[k].phase.Awaiting? && !g.peers[k].closed
  }

  lemma JoinsGood(ps: Parameters, codec: Codec, f: Farm, c: Controller)
    requires FarmInv(ps, codec, f) && Faithful(codec) && AllGood(codec, f) && AllFit(codec, SetupScript(ps))
    requires f.c.live <= c.live && c.queue == f.c.queue && c.dead == f.c.dead
    requires forall k :: |f.c.live| <= k < |c.live| ==> JustStarted(ps, codec, c.live[k])
    ensures var g := Joined(c, f.peers); FarmInv(ps, codec, g) && AllGood(codec, g) && Appended(f, g) && g.c == c
  {
    hide Direct.LinkInv, Good, StartWorker, SetupScript, AllFit;
    JoinedKeeps(ps, codec, f, c);
    var g := Joined(c, f.peers);
    forall k | 0 <= k < |g.peers|
      ensures Good(codec, g.c.live[k], g.peers[k])
      ensures k >= |f.peers| ==> g.c.live[k].phase.Awaiting? && !g.peers[k].closed
    {
      if k >= |f.peers| {
        var i: int :| c.live[k] == StartWorker(ps, codec, i);
        StartsGood(ps, codec, i);
      }
    }
  }

  lemma AppendedOver(f: Farm, g: Farm, h: Farm)
    requires Appended(f, g) && Appended(g, h) && |f.peers| == |f.c.live|
    ensures Appended(f, h)
  {
    forall k | |f.peers| <= k < |h.peers| ensures h.c.live[k].phase.Awaiting? && !h.peers[k].closed {
      if k < |g.peers| {
        assert h.c.live[k] == g.c.live[k] && h.peers[k] == g.peers[k];
      }
    }
  }

  lemma StillSettled(f: Farm, g: Farm)
    requires Appended(f, g) && Settled(f.c) && |f.peers| == |f.c.live|
    ensures Settled(g.c)
  {
    if g.c.queue != [] && FirstIdle(g.c.live).Some? {
      assert false;
    }
  }

  lemma CarriedOn(ps: Parameters, a: seq<WorkerState>, b: seq<WorkerState>)
    requires AllCarried(ps, a) && a <= b
    ensures AllCarried(ps, b)
  {
    forall i: nat | i < ps.proxyCount ensures Carries(b, i) {
      assert Carries(a, i);
      var k :| 0 <= k < |a| && a[k].proxyIndex == i;
      assert b[k] == a[k];
    }
  }

  /** All proxies are connected to; nothing else has happened. */
  lemma ConnectsWell(ps: Parameters, codec: Codec, f: Farm, e: NetEvents) returns (g: Farm)
    requires FarmInv(ps, codec, f) && Faithful(codec) && AllGood(codec, f) && AllFit(codec, SetupScript(ps))
    requires forall n: nat :: e.connects(n)
    ensures Connect(ps, codec, f.c, e.connects, 0) == Scheduler.Running(g.c) && g == Joined(g.c, f.peers)
    ensures FarmInv(ps, codec, g) && AllGood(codec, g) && Appended(f, g) && AllCarried(ps, g.c.live)
  {
    hide FarmInv, AllGood, SetupScript, AllFit, Connect, JustStarted, Appended;
    ConnectsAll(ps, codec, f.c, e.connects, 0);
    ConnectAppends(ps, codec, f.c, e.connects, 0);
    ConnectCarries(ps, codec, f.c, e.connects, 0);
    var c := Connect(ps, codec, f.c, e.connects, 0).controller;
    JoinsGood(ps, codec, f, c);
    g := Joined(c, f.peers);
  }

  /** A worker connects. */
  lemma AcceptsWell(ps: Parameters, codec: Codec, f: Farm, e: NetEvents) returns (g: Farm)
    requires FarmInv(ps, codec, f) && Faithful(codec) && AllGood(codec, f) && AllFit(codec, SetupScript(ps))
    requires Settled(f.c) && e.accepts
    ensures AfterScanStep(ps, codec, f, e) == Going(g)
    ensures FarmInv(ps, codec, g) && AllGood(codec, g) && Appended(f, g) && Settled(g.c)
    ensures |g.peers| == |f.peers| + 1 && g.c.live[|f.peers|].proxyIndex == -1
  {
    hide Direct.LinkInv, AllGood, SetupScript, AllFit, StartWorker;
    var c := AddWorker(ps, codec, f.c, -1);
    assert JustStarted(ps, codec, StartWorker(ps, codec, -1));
    JoinsGood(ps, codec, f, c);
    StartsGood(ps, codec, -1);
    g := Joined(c, f.peers);
    StillSettled(f, g);
    assert HandOut(ps, codec, c, e.disks) == Scheduler.Running(c);
    forall k | 0 <= k < |g.c.live| ensures Encodable(g.c.live[k]) {
      LinkEncodable(ps, codec, g.c.live[k], g.peers[k]);
    }
  }

  lemma CalmRound(ps: Parameters, codec: Codec, f: Farm, joined: Farm, e: NetEvents)
    requires Connect(ps, codec, f.c, e.connects, 0) == Scheduler.Running(joined.c)
    requires joined == Joined(joined.c, f.peers)
    requires forall n: nat :: e.polls(n) == Calm()
    ensures RoundStep(ps, codec, f, e) == AfterScanStep(ps, codec, joined, e)
  {
    hide Connect, AfterScanStep;
    var polls := Offers(joined.peers, e.polls);
    forall j: nat | j < |joined.c.live| ensures IsCalm(polls(j)) {
      assert polls(j) == Offer(joined.peers, j, Calm());
    }
    CalmScan(codec, joined, polls, |joined.c.live|);
  }

  /** The new worker is the one to be driven. */
  lemma OpensWell(ps: Parameters, codec: Codec, f: Farm) returns (g: Farm)
    requires FarmInv(ps, codec, f) && Faithful(codec) && AllGood(codec, f) && Manageable(ps, codec, f.c.queue)
    requires Settled(f.c)
    ensures RoundStep(ps, codec, f, Opening()) == Going(g)
    ensures Fine(ps, codec, g) && Settled(g.c) && Appended(f, g) && g.peers != []
    ensures !Holding(g.c.live[|g.peers| - 1], g.peers[|g.peers| - 1])
    ensures g.c.live[|g.peers| - 1].phase.Awaiting?
  {
    hide FarmInv, AllGood, SetupScript, AllFit, Connect, AfterScanStep, RoundStep, AllCarried;
    assert |f.peers| == |f.c.live| by { PeersPerWorker(ps, codec, f); }
    var joined := ConnectsWell(ps, codec, f, Opening());
    StillSettled(f, joined);
    CalmRound(ps, codec, f, joined, Opening());
    g := AcceptsWell(ps, codec, joined, Opening());
    AppendedOver(f, joined, g);
    CarriedOn(ps, joined.c.live, g.c.live);
    assert Manned(g);
  }

  // All connections break.

  function Sweep(): NetEvents {
    Rounding(Calm().(hungUp := true), false)
  }

  lemma {:induction false} Sweeps(codec: Codec, f: Farm, polls: nat -> Poll, n: nat)
    requires |f.peers| == |f.c.live| == n
    requires forall k: nat :: k < n ==> !polls(k).readable && !polls(k).writable && polls(k).hungUp
    ensures ScanStep(codec, f, polls, n).Going?
    ensures ScanStep(codec, f, polls, n).farm.peers == [] && ScanStep(codec, f, polls, n).farm.c.live == []
    decreases n
  {
    if n > 0 {
      Sweeps(codec, SlotStep(codec, f, n - 1, polls(n - 1)).farm, polls, n - 1);
    }
  }

  lemma SweepStep(ps: Parameters, codec: Codec, f: Farm) returns (g: Farm)
    requires |f.peers| == |f.c.live|
    ensures RoundStep(ps, codec, f, Sweep()) == Going(g) && g.peers == [] && g.c.live == []
  {
    hide SlotStep, Connect, ScanStep, StartWorker;
    var e := Sweep();
    ConnectsAll(ps, codec, f.c, e.connects, 0);
    ConnectAppends(ps, codec, f.c, e.connects, 0);
    var joined := Joined(Connect(ps, codec, f.c, e.connects, 0).controller, f.peers);
    var polls := Offers(joined.peers, e.polls);
    forall k: nat | k < |joined.c.live| ensures !polls(k).readable && !polls(k).writable && polls(k).hungUp {
      assert polls(k) == Offer(joined.peers, k, e.polls(k));
    }
    Sweeps(codec, joined, polls, |joined.c.live|);
    g := ScanStep(codec, joined, polls, |joined.c.live|).farm;
    assert HandOut(ps, codec, g.c, e.disks) == Scheduler.Running(g.c);
  }

  // The last round: connections to proxies that are still pending break.

  predicate Leaving(e: Poll, w: WorkerState) {
    !e.readable && !e.writable && (e.hungUp <==> w.phase.Awaiting?)
  }

  function Last(live: seq<WorkerState>): NetEvents {
    var hangs := Calm().(hungUp := true);
    NetEvents(_ => true, k => if 0 <= k < |live| && live[k].phase.Awaiting? then hangs else Calm(), false,
              _ => GOOD_DISK)
  }

  lemma {:induction false} LastScan(codec: Codec, f: Farm, polls: nat -> Poll, n: nat)
    requires n <= |f.c.live| == |f.peers| && f.c.queue == []
    requires forall k: nat :: k < n ==> Leaving(polls(k), f.c.live[k])
    requires forall k :: 0 <= k < |f.c.live| ==>
      && Encodable(f.c.live[k])
      && if k >= n then f.c.live[k].phase.Idle? else f.c.live[k].phase.Awaiting? ==> f.c.live[k].frame == -1
    ensures ScanStep(codec, f, polls, n).Going?
    ensures Done(ScanStep(codec, f, polls, n).farm.c) && AllEncodable(ScanStep(codec, f, polls, n).farm.c.live)
    decreases n
  {
    if n > 0 {
      assert Leaving(polls(n - 1), f.c.live[n - 1]);
      LastScan(codec, SlotStep(codec, f, n - 1, polls(n - 1)).farm, polls, n - 1);
    }
  }

  lemma LastStep(ps: Parameters, codec: Codec, f: Farm) returns (g: Farm)
    requires Fine(ps, codec, f) && f.c.queue == []
    requires forall k :: 0 <= k < |f.c.live| && f.c.live[k].phase.Awaiting? ==> f.c.live[k].frame == -1
    ensures RoundStep(ps, codec, f, Last(f.c.live)) == Going(g) && Done(g.c)
  {
    hide Direct.LinkInv, AllGood, Good, AllCarried, ScanStep, Connect;
    var e := Last(f.c.live);
    NobodyToConnect(ps, codec, f.c, e.connects, 0);
    assert Joined(f.c, f.peers) == f;
    var polls := Offers(f.peers, e.polls);
    forall k: nat | k < |f.c.live| ensures Leaving(polls(k), f.c.live[k]) && Encodable(f.c.live[k]) {
      assert polls(k) == Offer(f.peers, k, e.polls(k));
      LinkEncodable(ps, codec, f.c.live[k], f.peers[k]);
    }
    LastScan(codec, f, polls, |f.c.live|);
    g := ScanStep(codec, f, polls, |f.c.live|).farm;
    assert HandOut(ps, codec, g.c, e.disks) == Scheduler.Running(g.c);
  }

  /** Where nothing has been closed only connections to proxies are held back. */
  lemma PendingAreFresh(ps: Parameters, codec: Codec, f: Farm)
    requires FarmInv(ps, codec, f) && OnlyHeld(f) && forall k :: 0 <= k < |f.peers| ==> !f.peers[k].closed
    ensures forall k :: 0 <= k < |f.c.live| && f.c.live[k].phase.Awaiting? ==> f.c.live[k].frame == -1
  {
    hide WorkerInv, Direct.OneOutstanding;
    forall k | 0 <= k < |f.c.live| && f.c.live[k].phase.Awaiting? ensures f.c.live[k].frame == -1 {
      assert Direct.LinkInv(ps, codec, LinkOf(f.c.live[k], f.peers[k]));
      PendingIsFresh(ps, f.c.live[k]);
    }
  }

  // To the end.

  /** The requests for these frames, on a machine where all is well, are within the limits of the codec. */
  lemma ManageableFrom(ps: Parameters, codec: Codec, frames: seq<int>, queue: seq<int>)
    requires Manageable(ps, codec, frames) && forall k :: 0 <= k < |queue| ==> queue[k] in frames
    ensures Manageable(ps, codec, queue)
  {
    hide AllFit, FrameScript, SetupScript;
  }

  lemma QueueFrom(frames: seq<int>, c: Controller)
    requires OnlyFrom(frames, c)
    ensures forall k :: 0 <= k < |c.queue| ==> c.queue[k] in frames
  {
  }

  /** A controller without connections gets one, which does all the work. */
  lemma FinishesAfresh(ps: Parameters, codec: Codec, f: Farm) returns (events: seq<Event>)
    requires FarmInv(ps, codec, f) && Faithful(codec) && Manageable(ps, codec, f.c.queue)
    requires f.peers == [] && f.c.live == []
    ensures RunFarm(ps, codec, f, events).Completed?
  {
    hide RunFarm, FarmInv, RoundStep, Manageable, Done, StartWorker, Fine, OnlyHeld;
    if Done(f.c) {
      events := [];
      Exits(ps, codec, f);
    } else {
      var g := OpensWell(ps, codec, f);
      var opening := InRound(Opening());
      LeadsByOne(ps, codec, f, opening, g);
      assert |g.peers| == |g.c.live|;
      var more, h := DrivesAll(ps, codec, g, |g.peers| - 1);
      LeadsOn(ps, codec, f, [opening], g, more, h);
      events := [opening] + more;
      if Done(h.c) {
        Exits(ps, codec, h);
      } else {
        var last := InRound(Last(h.c.live));
        var end := EndsWell(ps, codec, h);
        LeadsByOne(ps, codec, h, last, end);
        LeadsOn(ps, codec, f, events, h, [last], end);
        Exits(ps, codec, end);
        events := events + [last];
      }
    }
  }

  lemma EndsWell(ps: Parameters, codec: Codec, f: Farm) returns (g: Farm)
    requires Fine(ps, codec, f) && OnlyHeld(f) && forall k :: 0 <= k < |f.peers| ==> !f.peers[k].closed
    ensures RoundStep(ps, codec, f, Last(f.c.live)) == Going(g) && Done(g.c)
  {
    hide FarmInv, AllGood, AllCarried, Manageable, RoundStep;
    PendingAreFresh(ps, codec, f);
    g := LastStep(ps, codec, f);
  }

  /**
   * Whatever has happened to the controller, its workers and its proxies, as
   * long as the loop goes on there are events after which it exits normally:
   * no frame and no connection can bring it where it cannot finish.
   */
  lemma CanAlwaysFinish(ps: Parameters, codec: Codec, frames: seq<int>, events: seq<Event>) returns (more: seq<Event>)
    requires Faithful(codec) && Manageable(ps, codec, frames)
    requires RunFarm(ps, codec, Begin(frames), events).Underway?
    requires RunFarm(ps, codec, Begin(frames), events).status.Going?
    ensures RunFarm(ps, codec, Begin(frames), events + more).Completed?
  {
    hide RunFarm, FarmInv, RoundStep, Manageable, Reached, OnlyFrom, Done;
    var f := RunFarm(ps, codec, Begin(frames), events).status.farm;
    BeginInv(ps, codec, frames);
    RunKeepsFarm(ps, codec, Begin(frames), events);
    PeersPerWorker(ps, codec, f);
    UnderwayIsNotDone(ps, codec, Begin(frames), events);
    FarmReached(ps, codec, frames, events);
    var next := SweepStep(ps, codec, f);
    StepKeepsFarm(ps, codec, f, InRound(Sweep()));
    var round := RoundIsRound(ps, codec, f, Sweep());
    RoundReached(ps, codec, frames, f.c, round);
    ReachedWithin(ps, codec, frames, next.c);
    QueueFrom(frames, next.c);
    ManageableFrom(ps, codec, frames, next.c.queue);
    var rest := FinishesAfresh(ps, codec, next);
    more := [InRound(Sweep())] + rest;
    Steps(ps, codec, f, InRound(Sweep()), next, rest);
    RunOn(ps, codec, Begin(frames), events, more);
  }
}
