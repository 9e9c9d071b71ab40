/** What an end of file does to a worker and its frame: exactly when the frame comes back. */
module Silence {
  import opened Wrappers
  import opened Framing
  import opened Protocol
  import opened Scheduler
  import opened Rounds
  import opened Staleness
  import Totals
  import Network
  import OneWorker
  import Sentinel
  import Direct = Connection

  /** The worker has closed the connection: there is nothing to be received, and never will be. */
  predicate Closed(e: Poll) {
    e.readable && e.recv == Offered([])
  }

  /**
   * A worker that has closed its connection is removed, and its frame put back
   * in front of the queue, exactly if it was within a message whose header had
   * been received, or if a hang-up is reported too. Otherwise nothing happens
   * to it but that more of its request is sent.
   */
  lemma ReturnsExactly(codec: Codec, c: Controller, k: nat, e: Poll)
    requires k < |c.live| && !Complete(c.live[k].progress) && Closed(e) && Slot(codec, c, k, e).Running?
    ensures var after := Slot(codec, c, k, e).controller; var w := c.live[k];
      && (|after.dead| > |c.dead| <==> |w.progress| >= HEADER_SIZE || e.hungUp)
      && (if |after.dead| > |c.dead| then
            && after.dead[|c.dead|].(unsent := w.unsent) == w
            && (w.frame != -1 ==> w.frame in after.queue)
            && (!(|w.progress| >= HEADER_SIZE && e.hungUp) ==>
                  after.queue == (if w.frame == -1 then [] else [w.frame]) + c.queue)
          else
            && after.queue == c.queue && after.dead == c.dead
            && exists unsent :: after.live == c.live[k := w.(unsent := unsent)])
  {
    hide Dispatch;
    var w := c.live[k];
    ResetsExactly(codec, w, e);
    if |w.progress| < HEADER_SIZE {
      assert w.progress + [] == w.progress && w.(progress := w.progress) == w;
      assert c.live[k := w] == c.live;
      assert w.(unsent := w.unsent) == w;
      var next := if e.writable then SendOn(w, e.send).value else w;
      assert next == w.(unsent := next.unsent);
      assert c.live[k := next] == c.live[k := w.(unsent := next.unsent)];
    }
  }

  // Whole runs.

  /** What tells a worker that nothing can come from; bytes sent to it make no difference. */
  ghost predicate Lasting(mark: WorkerState -> bool) {
    forall w, unsent ::
      mark(w) ==> w.phase.Awaiting? && |w.progress| < HEADER_SIZE && mark(w.(unsent := unsent))
  }

  /** Nothing arrives and there is no hang-up; the other side may have closed. */
  predicate NothingComes(e: Poll) {
    !e.hungUp && (e.readable ==> Closed(e))
  }

  ghost predicate Marked(live: seq<WorkerState>, mark: WorkerState -> bool) {
    exists k :: 0 <= k < |live| && mark(live[k])
  }

  /** From a worker so marked nothing comes, and nobody drags another worker along. */
  ghost predicate SilentTo(live: seq<WorkerState>, polls: nat -> Poll, mark: WorkerState -> bool) {
    && (forall k :: 0 <= k < |live| ==> !(Resets(live[k], polls(k)) && polls(k).hungUp))
    && (exists k :: 0 <= k < |live| && mark(live[k]) && NothingComes(polls(k)))
  }

  lemma ReadHolds(codec: Codec, c: Controller, k: nat, e: Poll, s: nat, mark: WorkerState -> bool) returns (t: nat)
    requires k <= s < |c.live| && Lasting(mark) && mark(c.live[s]) && !Complete(c.live[k].progress)
    requires s == k && e.readable ==> Closed(e)
    requires ReadSlot(codec, c, k, e).Running?
    ensures var live := ReadSlot(codec, c, k, e).controller.live;
      k <= t < |live| && mark(live[t]) && (!Resets(c.live[k], e) ==> t == s)
  {
    hide Dispatch, Resets;
    t := s;
    if e.readable {
      ResetsExactly(codec, c.live[k], e);
      if s == k {
        var w := c.live[k];
        assert mark(w.(unsent := w.unsent)) && |w.progress| < HEADER_SIZE;
        assert w.progress + [] == w.progress && w.(progress := w.progress) == w;
      } else if Resets(c.live[k], e) {
        t := s - 1;
      }
    }
  }

  lemma WriteHolds(c: Controller, k: nat, e: Poll, s: nat, mark: WorkerState -> bool)
    requires s < |c.live| && Lasting(mark) && mark(c.live[s]) && WriteSlot(c, k, e).Running?
    ensures var live := WriteSlot(c, k, e).controller.live; |live| == |c.live| && mark(live[s])
  {
    if e.writable && s == k {
      var w := c.live[k];
      assert mark(w.(unsent := SendOn(w, e.send).value.unsent));
    }
  }

  lemma SlotHolds(codec: Codec, c: Controller, k: nat, e: Poll, s: nat, mark: WorkerState -> bool) returns (t: nat)
    requires k <= s < |c.live| && Lasting(mark) && mark(c.live[s]) && !Complete(c.live[k].progress)
    requires !(Resets(c.live[k], e) && e.hungUp) && (s == k ==> NothingComes(e))
    requires Slot(codec, c, k, e).Running?
    ensures var live := Slot(codec, c, k, e).controller.live; k <= t < |live| && mark(live[t])
  {
    hide Resets, ReadSlot, WriteSlot, Lasting;
    t := ReadHolds(codec, c, k, e, s, mark);
    var c1 := ReadSlot(codec, c, k, e).controller;
    WriteHolds(c1, k, e, t, mark);
    if e.hungUp {
      t := t - 1;
    }
  }

  lemma {:induction false} ScanHolds(codec: Codec, c: Controller, polls: nat -> Poll, n: nat, s: nat,
      mark: WorkerState -> bool)
    requires n <= |c.live| && s < |c.live| && Lasting(mark) && mark(c.live[s]) && (s < n ==> NothingComes(polls(s)))
    requires forall k :: 0 <= k < n ==>
      !Complete(c.live[k].progress) && !(Resets(c.live[k], polls(k)) && polls(k).hungUp)
    requires Scan(codec, c, polls, n).Running?
    ensures Marked(Scan(codec, c, polls, n).controller.live, mark)
    decreases n
  {
    hide Slot, Resets, Lasting;
    if n > 0 {
      var k := n - 1;
      SlotLeavesBefore(codec, c, k, polls(k));
      var next := Slot(codec, c, k, polls(k)).controller;
      assert forall j :: 0 <= j < k ==> next.live[j] == next.live[..k][j] == c.live[..k][j] == c.live[j];
      var t := s;
      if s >= k {
        t := SlotHolds(codec, c, k, polls(k), s, mark);
      }
      ScanHolds(codec, next, polls, k, t, mark);
    }
  }

  lemma HandOutHolds(ps: Parameters, codec: Codec, c: Controller, disks: nat -> Disk, mark: WorkerState -> bool)
    requires Lasting(mark) && Marked(c.live, mark) && HandOut(ps, codec, c, disks).Running?
    ensures Marked(HandOut(ps, codec, c, disks).controller.live, mark)
  {
    hide HandOut;
    HandOutServes(ps, codec, c, disks);
    var s :| 0 <= s < |c.live| && mark(c.live[s]);
    assert mark(c.live[s].(unsent := c.live[s].unsent));
    var idle := IdleSlots(c.live);
    assert forall j :: 0 <= j < |idle| ==> idle[j] != s;
    assert mark(HandOut(ps, codec, c, disks).controller.live[s]);
  }

  lemma MoreHold(a: seq<WorkerState>, b: seq<WorkerState>, mark: WorkerState -> bool)
    requires Marked(a, mark) && a <= b
    ensures Marked(b, mark)
  {
    var s :| 0 <= s < |a| && mark(a[s]);
    assert b[s] == a[s];
  }

  /** The round as it is seen by the workers there are once the proxies are connected to. */
  ghost predicate SilentRound(ps: Parameters, codec: Codec, c: Controller, e: Events, mark: WorkerState -> bool) {
    match Connect(ps, codec, c, e.connects, 0)
    case Running(c1) => SilentTo(c1.live, e.polls, mark)
    case _ => true
  }

  lemma RoundHolds(ps: Parameters, codec: Codec, frames: seq<int>, c: Controller, e: Events,
      mark: WorkerState -> bool)
    requires Inv(ps, frames, Totals.One(), c) && Lasting(mark) && SilentRound(ps, codec, c, e, mark)
    requires Round(ps, codec, c, e).Running?
    ensures Marked(Round(ps, codec, c, e).controller.live, mark)
  {
    hide Resets, Lasting, Connect, Scan, HandOut, NoneLost, Balanced, OnScript, StartWorker;
    ConnectKeeps(ps, codec, frames, Totals.One(), c, e.connects, 0);
    var c1 := Connect(ps, codec, c, e.connects, 0).controller;
    var s: nat :| s < |c1.live| && mark(c1.live[s]) && NothingComes(e.polls(s));
    ScanHolds(codec, c1, e.polls, |c1.live|, s, mark);
    var c2 := Scan(codec, c1, e.polls, |c1.live|).controller;
    var c3 := if e.accepts then AddWorker(ps, codec, c2, -1) else c2;
    MoreHold(c2.live, c3.live, mark);
    HandOutHolds(ps, codec, c3, e.disks, mark);
  }

  /** All rounds that are entered are silent so. */
  ghost predicate SilentRun(ps: Parameters, codec: Codec, c: Controller, rounds: seq<Events>,
      mark: WorkerState -> bool)
    decreases |rounds|
  {
    rounds == [] ||
    (&& SilentRound(ps, codec, c, rounds[0], mark)
     && (Round(ps, codec, c, rounds[0]).Running? ==>
           SilentRun(ps, codec, Round(ps, codec, c, rounds[0]).controller, rounds[1..], mark)))
  }

  lemma MarkedIsBusy(live: seq<WorkerState>, mark: WorkerState -> bool)
    requires Lasting(mark) && Marked(live, mark)
    ensures AnyWorking(live)
  {
    var s :| 0 <= s < |live| && mark(live[s]);
    assert mark(live[s].(unsent := live[s].unsent));
  }

  lemma {:induction false} HeldOn(ps: Parameters, codec: Codec, frames: seq<int>, c: Controller, rounds: seq<Events>,
      mark: WorkerState -> bool)
    requires Inv(ps, frames, Totals.One(), c) && Lasting(mark) && Marked(c.live, mark)
    requires SilentRun(ps, codec, c, rounds, mark)
    ensures !Run(ps, codec, c, rounds).Finished?
    ensures var status := Run(ps, codec, c, rounds).status;
      status.Running? ==> Marked(status.controller.live, mark)
    decreases |rounds|
  {
    hide Inv, Round, SilentRound, Lasting, Marked;
    MarkedIsBusy(c.live, mark);
    if rounds != [] && Round(ps, codec, c, rounds[0]).Running? {
      RoundKeeps(ps, codec, frames, Totals.One(), c, rounds[0]);
      RoundHolds(ps, codec, frames, c, rounds[0], mark);
      HeldOn(ps, codec, frames, Round(ps, codec, c, rounds[0]).controller, rounds[1..], mark);
    }
  }

  /** If in every round nothing comes from such a worker, there always is one, and the loop never exits normally. */
  lemma StaysBusy(ps: Parameters, codec: Codec, frames: seq<int>, before: seq<Events>, after: seq<Events>,
      c: Controller, mark: WorkerState -> bool)
    requires Run(ps, codec, Start(frames), before) == Unfinished(Running(c))
    requires Lasting(mark) && Marked(c.live, mark) && SilentRun(ps, codec, c, after, mark)
    ensures !Run(ps, codec, Start(frames), before + after).Finished?
    ensures var status := Run(ps, codec, Start(frames), before + after).status;
      status.Running? ==> Marked(status.controller.live, mark)
  {
    hide Run, Inv, Marked, SilentRun, Lasting;
    StartInv(ps, frames, Totals.One());
    RunKeeps(ps, codec, frames, Totals.One(), Start(frames), before);
    HeldOn(ps, codec, frames, c, after, mark);
    RunSplits(ps, codec, Start(frames), before + after, |before|);
    assert (before + after)[..|before|] == before && (before + after)[|before|..] == after;
  }

  /** The worker has been given this frame, and no header of a response has arrived. */
  function Holds(frame: int): WorkerState -> bool {
    (w: WorkerState) => w.phase.Awaiting? && w.given != [] && w.frame == frame && |w.progress| < HEADER_SIZE
  }

  /** Nothing at all has come from the worker. */
  function Unheard(): WorkerState -> bool {
    (w: WorkerState) => w.phase.Awaiting? && w.given == [] && w.done == [] && w.progress == []
  }

  /**
   * A worker that closes its connection between two messages, without a
   * hang-up, keeps its frame for good, and the main loop never exits normally.
   */
  lemma NeverFinishes(ps: Parameters, codec: Codec, frames: seq<int>, before: seq<Events>, after: seq<Events>,
      c: Controller, frame: int)
    requires Run(ps, codec, Start(frames), before) == Unfinished(Running(c))
    requires Marked(c.live, Holds(frame)) && SilentRun(ps, codec, c, after, Holds(frame))
    ensures !Run(ps, codec, Start(frames), before + after).Finished?
    ensures var status := Run(ps, codec, Start(frames), before + after).status;
      status.Running? ==> Marked(status.controller.live, Holds(frame))
  {
    hide Run, Marked, SilentRun;
    StaysBusy(ps, codec, frames, before, after, c, Holds(frame));
  }

  /**
   * A worker from which nothing ever comes, as after an accept that failed,
   * which the controller does not notice, keeps the main loop from exiting.
   */
  lemma NeverWelcomed(ps: Parameters, codec: Codec, frames: seq<int>, before: seq<Events>, after: seq<Events>,
      c: Controller)
    requires Run(ps, codec, Start(frames), before) == Unfinished(Running(c))
    requires Marked(c.live, Unheard()) && SilentRun(ps, codec, c, after, Unheard())
    ensures !Run(ps, codec, Start(frames), before + after).Finished?
    ensures var status := Run(ps, codec, Start(frames), before + after).status;
      status.Running? ==> Marked(status.controller.live, Unheard())
  {
    hide Run, Marked, SilentRun;
    StaysBusy(ps, codec, frames, before, after, c, Unheard());
  }

  // It happens.

  /** Rounds in which the end of the connection is all there is to receive. */
  function ClosedRounds(n: nat): seq<Network.Event> {
    seq(n, _ => Network.InRound(Sentinel.Closes()))
  }

  /** The only worker has closed its connection, after it took the request and without an answer. */
  predicate Left(f: Network.Farm) {
    && |f.c.live| == 1 && |f.peers| == 1 && f.c.live[0].phase.Awaiting?
    && f.c.live[0].unsent == [] && f.c.live[0].progress == []
    && f.peers[0].closed && f.peers[0].down == [] && f.peers[0].up == []
  }

  lemma ClosedStep(codec: Codec, f: Network.Farm)
    requires Left(f)
    ensures Network.RoundStep(Sentinel.PrintFrame(), codec, f, Sentinel.Closes()) == Network.Going(f)
  {
    var e := OneWorker.Calm().(readable := true);
    var w := f.c.live[0];
    OneWorker.OneSlot(Sentinel.PrintFrame(), codec, f, e);
    assert f.peers[0].up[..0] == [] == f.peers[0].up[0..];
    assert w.progress + [] == w.progress && w.(progress := w.progress) == w;
    assert ReceiveOn(codec, w, Offered([]), OneWorker.GOOD_DISK) == Ok(w);
    assert f.c.live[0 := w] == f.c.live && f.peers[0 := f.peers[0]] == f.peers;
    assert Network.SlotStep(codec, f, 0, Network.Offer(f.peers, 0, e)) == Network.Going(f);
    assert FirstIdle(f.c.live).None?;
  }

  lemma {:induction false} ClosedRun(codec: Codec, f: Network.Farm, n: nat)
    requires Left(f)
    ensures Network.RunFarm(Sentinel.PrintFrame(), codec, f, ClosedRounds(n)) == Network.Underway(Network.Going(f))
  {
    hide Network.RoundStep, Network.Done;
    OneWorker.BusyIsNotDone(f.c);
    if n > 0 {
      ClosedRun(codec, f, n - 1);
      ClosedStep(codec, f);
      assert ClosedRounds(n) == [Network.InRound(Sentinel.Closes())] + ClosedRounds(n - 1);
      Network.Steps(Sentinel.PrintFrame(), codec, f, Network.InRound(Sentinel.Closes()), f, ClosedRounds(n - 1));
    }
  }

  /** The request is sent and taken, and then the worker closes. */
  function LeaveEvents(codec: Codec, a: Action): seq<Network.Event> {
    [Network.InRound(OneWorker.Flushes(HEADER_SIZE + |codec.encodeRequest(OneWorker.Asked(a))|)), Network.Takes(0),
     Network.Closes(0)]
  }

  function Leaving(f: Network.Farm): Network.Farm
    requires |f.c.live| == 1 && |f.peers| == 1 && f.c.live[0].phase.Awaiting?
  {
    var asked := Some(OneWorker.Asked(f.c.live[0].phase.pending));
    Network.Farm(f.c.(live := [f.c.live[0].(unsent := [])]), [f.peers[0].(serving := asked, closed := true)])
  }

  lemma Leaves(codec: Codec, f: Network.Farm, more: seq<Network.Event>)
    requires Faithful(codec) && OneWorker.Issued(codec, f) && OneWorker.Fit(codec, f.c.live[0].phase.pending)
    ensures Network.RunFarm(Sentinel.PrintFrame(), codec, f, LeaveEvents(codec, f.c.live[0].phase.pending) + more)
         == Network.RunFarm(Sentinel.PrintFrame(), codec, Leaving(f), more)
  {
    hide OneWorker.Asked, Network.RunFarm, Network.RoundStep, Frame, Direct.TakeStep, Direct.ReplyStep, Network.Done;
    var w, p, ps := f.c.live[0], f.peers[0], Sentinel.PrintFrame();
    var es := LeaveEvents(codec, w.phase.pending);
    var f1 := Network.Farm(f.c.(live := [w.(unsent := [])]), [p.(down := w.unsent)]);
    var f2 := f1.(peers := [p.(serving := Some(OneWorker.Asked(w.phase.pending)))]);
    OneWorker.Lengths(codec.encodeRequest(OneWorker.Asked(w.phase.pending)));
    OneWorker.FlushStep(ps, codec, f, |w.unsent|);
    OneWorker.TakeAndReply(ps, codec, f1, w.phase.pending);
    OneWorker.BusyIsNotDone(f.c);
    OneWorker.BusyIsNotDone(f1.c);
    assert f2.peers[0 := f2.peers[0].(closed := true)] == Leaving(f).peers;
    Network.Steps(ps, codec, f2, es[2], Leaving(f), more);
    Network.Steps(ps, codec, f1, es[1], f2, [es[2]] + more);
    Network.Steps(ps, codec, f, es[0], f1, [es[1]] + ([es[2]] + more));
    assert es + more == [es[0]] + ([es[1]] + ([es[2]] + more));
  }

  /**
   * With one frame to do and one worker, which takes the request for the frame
   * and then closes its connection: however many rounds follow, the controller
   * waits for it.
   */
  lemma FrameIsHeld(codec: Codec, frame: int) returns (events: seq<Network.Event>, f: Network.Farm)
    requires Faithful(codec) && Sentinel.Usable(codec, [frame])
    ensures Marked(f.c.live, Holds(frame)) && Left(f)
    ensures forall n: nat :: Network.RunFarm(Sentinel.PrintFrame(), codec, Network.Begin([frame]),
      events + ClosedRounds(n)) == Network.Underway(Network.Going(f))
  {
    hide Network.RunFarm, Network.RoundStep, OneWorker.ExchangeEvents, LeaveEvents, RunAction, OneWorker.Fit;
    var ps, begin := Sentinel.PrintFrame(), Network.Begin([frame]);
    var accepts := Network.InRound(OneWorker.Rounding(OneWorker.Calm(), true));
    var ready := Sentinel.Replaced(codec, begin);
    Sentinel.AcceptStep(codec, begin);
    Sentinel.NextFrame(codec, ready);
    var on := OneWorker.AfterExchange(ps, codec, ready);
    f := Leaving(on);
    assert Holds(frame)(f.c.live[0]);
    var leave := LeaveEvents(codec, RunAction(ps, frame));
    var hello := OneWorker.ExchangeEvents(codec, Hello);
    events := [accepts] + hello + leave;
    forall n: nat
      ensures Network.RunFarm(ps, codec, begin, events + ClosedRounds(n)) == Network.Underway(Network.Going(f))
    {
      ClosedRun(codec, f, n);
      Leaves(codec, on, ClosedRounds(n));
      Sentinel.Exchanges(codec, ready, leave + ClosedRounds(n));
      Network.Steps(ps, codec, begin, accepts, ready, hello + (leave + ClosedRounds(n)));
      assert [accepts] + (hello + (leave + ClosedRounds(n))) == events + ClosedRounds(n);
    }
  }
}
