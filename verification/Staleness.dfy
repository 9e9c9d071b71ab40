/** The slot index that outlives its worker: exactly when it is used, in a slot, a scan and a run. */
module Staleness {
  import opened Framing
  import opened Outgoing
  import opened Protocol
  import opened Scheduler
  import opened Rounds
  import Totals

  /** The receive of this slot finds the connection reset, or closed within a payload. */
  predicate Resets(w: WorkerState, e: Poll) {
    && e.readable
    && (e.recv == RecvError(true) || (e.recv == Offered([]) && |w.progress| >= HEADER_SIZE))
  }

  predicate AllPartial(live: seq<WorkerState>) {
    forall k :: 0 <= k < |live| ==> !Complete(live[k].progress)
  }

  lemma NoSocketFailure(codec: Codec, w: WorkerState, disk: Disk)
    requires Complete(w.progress)
    ensures !Dispatch(codec, w, disk).SocketFailure?
  {
  }

  lemma ResetsExactly(codec: Codec, w: WorkerState, e: Poll)
    requires !Complete(w.progress) && e.readable
    ensures Resets(w, e) <==> ReceiveOn(codec, w, e.recv, e.disk) == SocketFailure(true)
  {
    hide Dispatch;
    if Receive(w.progress, e.recv).Progressed? && Complete(Receive(w.progress, e.recv).progress) {
      NoSocketFailure(codec, w.(progress := Receive(w.progress, e.recv).progress), e.disk);
    }
  }

  /** The loop returns an error exactly if a receive fails otherwise, or a send fails that had something to send. */
  lemma ErrorsReturnExactly(codec: Codec, c: Controller, k: nat, e: Poll)
    requires k < |c.live| && !Complete(c.live[k].progress)
    ensures ReadSlot(codec, c, k, e) == Returned <==> e.readable && e.recv == RecvError(false)
    ensures WriteSlot(c, k, e) == Returned <==> e.writable && e.send.SendError? && c.live[k].unsent != []
  {
    hide Dispatch;
    if Receive(c.live[k].progress, e.recv).Progressed? && Complete(Receive(c.live[k].progress, e.recv).progress) {
      NoSocketFailure(codec, c.live[k].(progress := Receive(c.live[k].progress, e.recv).progress), e.disk);
    }
  }

  function One(b: bool): nat {
    if b then 1 else 0
  }

  /** One slot: when its index is past the end, and how many workers it removes. */
  lemma SlotExactly(codec: Codec, c: Controller, k: nat, e: Poll)
    requires k < |c.live| && !Complete(c.live[k].progress)
    ensures Slot(codec, c, k, e) == Undefined <==>
      Resets(c.live[k], e) && (e.writable || e.hungUp) && k + 1 == |c.live|
    ensures Slot(codec, c, k, e).Running? ==>
      var after := Slot(codec, c, k, e).controller;
      var removed := One(Resets(c.live[k], e)) + One(e.hungUp);
      |after.live| == |c.live| - removed && |after.dead| == |c.dead| + removed
  {
    hide ReceiveOn, SendOn;
    if e.readable {
      ResetsExactly(codec, c.live[k], e);
    }
  }

  /** The polled worker is reset and the next one goes with it, though nothing was polled for it. */
  predicate TakesNext(c: Controller, after: Controller, k: nat) {
    && k + 2 <= |c.live| && |after.dead| == |c.dead| + 2
    && after.dead[..|c.dead| + 1] == c.dead + [c.live[k]]
    && after.dead[|c.dead| + 1].(unsent := c.live[k + 1].unsent) == c.live[k + 1]
    && after.live == c.live[..k] + c.live[k + 2..]
  }

  lemma BystanderExactly(codec: Codec, c: Controller, k: nat, e: Poll)
    requires k < |c.live| && !Complete(c.live[k].progress) && Slot(codec, c, k, e).Running?
    ensures TakesNext(c, Slot(codec, c, k, e).controller, k) <==> Resets(c.live[k], e) && e.hungUp
  {
    hide ReceiveOn;
    SlotExactly(codec, c, k, e);
    if Resets(c.live[k], e) && e.hungUp {
      ResetsExactly(codec, c.live[k], e);
      var after := Slot(codec, c, k, e).controller;
      assert after.live == c.live[..k] + c.live[k + 2..];
      assert Kill(c, k).live[k] == c.live[k + 1];
      assert SendOn(c.live[k + 1], e.send).Ok? ==>
        SendOn(c.live[k + 1], e.send).value.(unsent := c.live[k + 1].unsent) == c.live[k + 1];
    }
  }

  // A whole scan.

  lemma {:induction false} BeforeNext(codec: Codec, c: Controller, polls: nat -> Poll, n: nat, k: nat)
    requires k + 1 < n
    ensures Before(codec, c, polls, n, k) == match Before(codec, c, polls, n, k + 1)
      case Running(b) => Slot(codec, b, k + 1, polls(k + 1))
      case other => other
    decreases n
  {
    hide Slot;
    if n > k + 2 {
      if Slot(codec, c, n - 1, polls(n - 1)).Running? {
        BeforeNext(codec, Slot(codec, c, n - 1, polls(n - 1)).controller, polls, n - 1, k);
      }
    }
  }

  lemma {:induction false} ScanFrom(codec: Codec, c: Controller, polls: nat -> Poll, n: nat, k: nat)
    requires k < n
    ensures Scan(codec, c, polls, n) == match Before(codec, c, polls, n, k)
      case Running(b) => Scan(codec, b, polls, k + 1)
      case other => other
    decreases n
  {
    hide Slot;
    if n > k + 1 {
      if Slot(codec, c, n - 1, polls(n - 1)).Running? {
        ScanFrom(codec, Slot(codec, c, n - 1, polls(n - 1)).controller, polls, n - 1, k);
      }
    }
  }

  /** What the slots from k up add to and take from the list, the polled workers being these. */
  function Survivors(live: seq<WorkerState>, polls: nat -> Poll, k: nat): int
    requires k <= |live|
    decreases |live| - k
  {
    if k == |live| then 0
    else Survivors(live, polls, k + 1) + 1 - One(Resets(live[k], polls(k))) - One(polls(k).hungUp)
  }

  /** A slot whose reset leaves nobody at its index, with a flag still to be looked at. */
  predicate Stale(live: seq<WorkerState>, polls: nat -> Poll, k: nat) {
    && k < |live| && Resets(live[k], polls(k)) && (polls(k).writable || polls(k).hungUp)
    && Survivors(live, polls, k + 1) == 0
  }

  /** When slot k is reached its worker is the polled one, and what is above it are the survivors. */
  lemma {:induction false} BeforeLength(codec: Codec, c: Controller, polls: nat -> Poll, k: nat)
    requires k < |c.live| && AllPartial(c.live) && Before(codec, c, polls, |c.live|, k).Running?
    ensures var b := Before(codec, c, polls, |c.live|, k).controller;
      && |b.live| == k + 1 + Survivors(c.live, polls, k + 1)
      && |b.live| > k && b.live[k] == c.live[k]
    decreases |c.live| - k
  {
    hide Slot, Resets;
    var n := |c.live|;
    ScanMeetsPolled(codec, c, polls, n, k);
    var b := Before(codec, c, polls, n, k).controller;
    assert b.live[..k + 1][k] == c.live[..k + 1][k];
    if k + 1 < n {
      BeforeNext(codec, c, polls, n, k);
      BeforeLength(codec, c, polls, k + 1);
      SlotExactly(codec, Before(codec, c, polls, n, k + 1).controller, k + 1, polls(k + 1));
    }
  }

  lemma {:induction false} UndefinedSlot(codec: Codec, c: Controller, polls: nat -> Poll, n: nat) returns (k: nat)
    requires Scan(codec, c, polls, n) == Undefined
    ensures k < n && Before(codec, c, polls, n, k).Running?
    ensures Slot(codec, Before(codec, c, polls, n, k).controller, k, polls(k)) == Undefined
    decreases n
  {
    hide Slot;
    if Slot(codec, c, n - 1, polls(n - 1)).Running? {
      k := UndefinedSlot(codec, Slot(codec, c, n - 1, polls(n - 1)).controller, polls, n - 1);
    } else {
      k := n - 1;
    }
  }

  /** The scan gets to slot k and finds it stale. */
  predicate StaleAt(codec: Codec, c: Controller, polls: nat -> Poll, k: nat) {
    k < |c.live| && Before(codec, c, polls, |c.live|, k).Running? && Stale(c.live, polls, k)
  }

  /**
   * A scan uses an index past the end exactly if it gets to a slot that is
   * reset, has a further flag, and above which all polled workers were removed.
   */
  lemma StaleScanExactly(codec: Codec, c: Controller, polls: nat -> Poll)
    requires AllPartial(c.live)
    ensures Scan(codec, c, polls, |c.live|) == Undefined <==> exists k :: StaleAt(codec, c, polls, k)
  {
    hide Slot, Resets, Survivors, Before;
    var n := |c.live|;
    if Scan(codec, c, polls, n) == Undefined {
      var k := UndefinedSlot(codec, c, polls, n);
      BeforeLength(codec, c, polls, k);
      SlotExactly(codec, Before(codec, c, polls, n, k).controller, k, polls(k));
      assert StaleAt(codec, c, polls, k);
    }
    if k :| StaleAt(codec, c, polls, k) {
      BeforeLength(codec, c, polls, k);
      SlotExactly(codec, Before(codec, c, polls, n, k).controller, k, polls(k));
      ScanFrom(codec, c, polls, n, k);
    }
  }

  /** Slots that were reset or hung up by themselves, and those that were both. */
  function Ended(live: seq<WorkerState>, polls: nat -> Poll, k: nat): nat
    requires k <= |live|
    decreases |live| - k
  {
    if k == |live| then 0
    else Ended(live, polls, k + 1) + One(Resets(live[k], polls(k)) || polls(k).hungUp)
  }

  function Doubled(live: seq<WorkerState>, polls: nat -> Poll, k: nat): nat
    requires k <= |live|
    decreases |live| - k
  {
    if k == |live| then 0
    else Doubled(live, polls, k + 1) + One(Resets(live[k], polls(k)) && polls(k).hungUp)
  }

  lemma {:induction false} SurvivorsCount(live: seq<WorkerState>, polls: nat -> Poll, k: nat)
    requires k <= |live|
    ensures Survivors(live, polls, k) == |live| - k - Ended(live, polls, k) - Doubled(live, polls, k)
    ensures Doubled(live, polls, k) == 0 <==>
      forall j :: k <= j < |live| ==> !(Resets(live[j], polls(j)) && polls(j).hungUp)
    decreases |live| - k
  {
    hide Resets;
    if k < |live| {
      SurvivorsCount(live, polls, k + 1);
    }
  }

  /**
   * A scan removes one worker for every slot that ended, and one bystander
   * more for every slot that was both reset and hung up; so nobody is removed
   * without cause exactly if no slot is both.
   */
  lemma BystandersExactly(codec: Codec, c: Controller, polls: nat -> Poll)
    requires AllPartial(c.live) && Scan(codec, c, polls, |c.live|).Running?
    ensures var after := Scan(codec, c, polls, |c.live|).controller;
      && |c.live| - |after.live| == Ended(c.live, polls, 0) + Doubled(c.live, polls, 0)
      && (|c.live| - |after.live| == Ended(c.live, polls, 0) <==>
          forall k :: 0 <= k < |c.live| ==> !(Resets(c.live[k], polls(k)) && polls(k).hungUp))
  {
    hide Slot, Resets, Before;
    SurvivorsCount(c.live, polls, 0);
    if c.live != [] {
      ScanFrom(codec, c, polls, |c.live|, 0);
      BeforeLength(codec, c, polls, 0);
      SlotExactly(codec, Before(codec, c, polls, |c.live|, 0).controller, 0, polls(0));
    }
  }

  // Whole runs.

  /** The main loop goes into round i, in this state. */
  predicate Enters(ps: Parameters, codec: Codec, frames: seq<int>, rounds: seq<Events>, i: nat, c: Controller) {
    && i < |rounds| && Run(ps, codec, Start(frames), rounds[..i]) == Unfinished(Running(c))
    && (c.queue != [] || AnyWorking(c.live))
  }

  ghost predicate StaleRound(ps: Parameters, codec: Codec, c: Controller, e: Events) {
    match Connect(ps, codec, c, e.connects, 0)
    case Running(c1) => exists k :: StaleAt(codec, c1, e.polls, k)
    case _ => false
  }

  lemma {:induction false} RunSplits(ps: Parameters, codec: Codec, c: Controller, rounds: seq<Events>, i: nat)
    requires i <= |rounds|
    ensures Run(ps, codec, c, rounds) == match Run(ps, codec, c, rounds[..i])
      case Unfinished(Running(m)) => Run(ps, codec, m, rounds[i..])
      case other => other
    decreases |rounds|
  {
    hide Round;
    if i == 0 {
      assert rounds[0..] == rounds && rounds[..0] == [];
    } else if !(c.queue == [] && !AnyWorking(c.live)) {
      assert rounds[..i][0] == rounds[0] && rounds[..i][1..] == rounds[1..][..i - 1]
        && rounds[1..][i - 1..] == rounds[i..];
      if Round(ps, codec, c, rounds[0]).Running? {
        RunSplits(ps, codec, Round(ps, codec, c, rounds[0]).controller, rounds[1..], i - 1);
      }
    }
  }

  lemma RoundUndefinedExactly(ps: Parameters, codec: Codec, frames: seq<int>, c: Controller, e: Events)
    requires Inv(ps, frames, Totals.One(), c)
    ensures Round(ps, codec, c, e) == Undefined <==> StaleRound(ps, codec, c, e)
  {
    hide Connect, Scan, HandOut, StaleAt, NoneLost, Balanced, OnScript, AddWorker;
    NeverInConnect(ps, codec, c, e.connects, 0);
    ConnectKeeps(ps, codec, frames, Totals.One(), c, e.connects, 0);
    if Connect(ps, codec, c, e.connects, 0).Running? {
      var c1 := Connect(ps, codec, c, e.connects, 0).controller;
      StaleScanExactly(codec, c1, e.polls);
      if Scan(codec, c1, e.polls, |c1.live|).Running? {
        var c2 := Scan(codec, c1, e.polls, |c1.live|).controller;
        HandOutServes(ps, codec, if e.accepts then AddWorker(ps, codec, c2, -1) else c2, e.disks);
      }
    }
  }

  lemma {:induction false} NeverInConnect(ps: Parameters, codec: Codec, c: Controller, connects: nat -> bool, i: nat)
    ensures Connect(ps, codec, c, connects, i) != Undefined
    decreases ps.proxyCount - i
  {
    hide AddWorker;
    if i < ps.proxyCount {
      NeverInConnect(ps, codec, if Carries(c.live, i) then c else AddWorker(ps, codec, c, i), connects, i + 1);
    }
  }

  lemma {:induction false} UndefinedRound(ps: Parameters, codec: Codec, c: Controller, rounds: seq<Events>)
    returns (i: nat, m: Controller)
    requires Run(ps, codec, c, rounds) == Unfinished(Undefined)
    ensures i < |rounds| && Run(ps, codec, c, rounds[..i]) == Unfinished(Running(m))
    ensures (m.queue != [] || AnyWorking(m.live)) && Round(ps, codec, m, rounds[i]) == Undefined
    decreases |rounds|
  {
    hide Round;
    if Round(ps, codec, c, rounds[0]).Running? {
      i, m := UndefinedRound(ps, codec, Round(ps, codec, c, rounds[0]).controller, rounds[1..]);
      assert rounds[..i + 1][0] == rounds[0] && rounds[..i + 1][1..] == rounds[1..][..i];
      i := i + 1;
    } else {
      i, m := 0, c;
    }
  }

  /**
   * A run of the controller uses an index past the end of its list exactly if
   * it enters a round with a stale slot.
   */
  lemma StaleRunExactly(ps: Parameters, codec: Codec, frames: seq<int>, rounds: seq<Events>)
    ensures Run(ps, codec, Start(frames), rounds) == Unfinished(Undefined) <==>
      exists i: nat, c :: Enters(ps, codec, frames, rounds, i, c) && StaleRound(ps, codec, c, rounds[i])
  {
    hide Round, Run, StaleRound, Inv;
    StartInv(ps, frames, Totals.One());
    if Run(ps, codec, Start(frames), rounds) == Unfinished(Undefined) {
      var i, c := UndefinedRound(ps, codec, Start(frames), rounds);
      RunKeeps(ps, codec, frames, Totals.One(), Start(frames), rounds[..i]);
      RoundUndefinedExactly(ps, codec, frames, c, rounds[i]);
      assert Enters(ps, codec, frames, rounds, i, c);
    }
    if i: nat, c :| Enters(ps, codec, frames, rounds, i, c) && StaleRound(ps, codec, c, rounds[i]) {
      RunKeeps(ps, codec, frames, Totals.One(), Start(frames), rounds[..i]);
      RoundUndefinedExactly(ps, codec, frames, c, rounds[i]);
      RunSplits(ps, codec, Start(frames), rounds, i);
      OneRound(ps, codec, c, rounds[i..]);
    }
  }

  lemma OneRound(ps: Parameters, codec: Codec, c: Controller, rounds: seq<Events>)
    requires rounds != [] && (c.queue != [] || AnyWorking(c.live))
    ensures Run(ps, codec, c, rounds) ==
      if Round(ps, codec, c, rounds[0]).Running?
          then Run(ps, codec, Round(ps, codec, c, rounds[0]).controller, rounds[1..])
      else Unfinished(Round(ps, codec, c, rounds[0]))
  {
    hide Round;
  }

  // Both happen.

  function Quiet(): Poll {
    Poll(false, false, false, Offered([]), Accepted(0), NO_DISK)
  }

  /** A connection is reset, which poll reports as readable and as a hang-up. */
  function Broken(): Poll {
    Quiet().(readable := true, hungUp := true, recv := RecvError(true))
  }

  function AcceptRound(): Events {
    Events(_ => true, _ => Quiet(), true, _ => NO_DISK)
  }

  function BrokenRound(): Events {
    Events(_ => true, k => if k == 0 then Broken() else Quiet(), false, _ => NO_DISK)
  }

  lemma Accepts(ps: Parameters, codec: Codec, c: Controller)
    requires ps.proxyCount == 0 && (forall k :: 0 <= k < |c.live| ==> c.live[k].phase.Awaiting?)
    ensures Round(ps, codec, c, AcceptRound()) == Running(AddWorker(ps, codec, c, -1))
  {
    QuietScan(codec, c, AcceptRound().polls, |c.live|);
    var after := AddWorker(ps, codec, c, -1);
    assert forall k :: 0 <= k < |after.live| ==> after.live[k].phase.Awaiting?;
  }

  lemma {:induction false} QuietScan(codec: Codec, c: Controller, polls: nat -> Poll, n: nat)
    requires forall k: nat :: k < n ==> polls(k) == Quiet()
    ensures Scan(codec, c, polls, n) == Running(c)
    decreases n
  {
    if n > 0 {
      QuietScan(codec, c, polls, n - 1);
    }
  }

  /** One worker connects and its connection breaks: the index is used past the end. */
  lemma StaleIndexHappens(ps: Parameters, codec: Codec, frames: seq<int>)
    requires ps.proxyCount == 0 && frames != []
    ensures Run(ps, codec, Start(frames), [AcceptRound(), BrokenRound()]) == Unfinished(Undefined)
  {
    hide Round;
    var c := AddWorker(ps, codec, Start(frames), -1);
    Accepts(ps, codec, Start(frames));
    var rounds := [AcceptRound(), BrokenRound()];
    assert rounds[1..] == [BrokenRound()];
    assert Round(ps, codec, c, BrokenRound()) == Undefined by { Breaks(ps, codec, c); }
  }

  lemma Breaks(ps: Parameters, codec: Codec, c: Controller)
    requires ps.proxyCount == 0 && |c.live| == 1
    ensures Round(ps, codec, c, BrokenRound()) == Undefined
  {
    var e := BrokenRound();
    assert e.polls(0) == Broken();
    assert ReceiveOn(codec, c.live[0], RecvError(true), NO_DISK) == SocketFailure(true);
    assert Slot(codec, c, 0, e.polls(0)) == Undefined;
    assert Scan(codec, c, e.polls, 1) == Undefined;
  }

  /** Two workers connect and one connection breaks: both are removed, and nothing was polled for the other. */
  lemma BystanderHappens(ps: Parameters, codec: Codec, frames: seq<int>)
    requires ps.proxyCount == 0 && frames != []
    ensures var w := StartWorker(ps, codec, -1);
      && Run(ps, codec, Start(frames), [AcceptRound(), AcceptRound()])
         == Unfinished(Running(Controller(frames, [w, w], [])))
      && Run(ps, codec, Start(frames), [AcceptRound(), AcceptRound(), BrokenRound()])
         == Unfinished(Running(Controller(frames, [], [w, w])))
      && BrokenRound().polls(1) == Quiet()
  {
    hide Round, StartWorker;
    var w := StartWorker(ps, codec, -1);
    var c1, c2, c3 := Controller(frames, [w], []), Controller(frames, [w, w], []), Controller(frames, [], [w, w]);
    Starts(ps, codec);
    Accepts(ps, codec, Start(frames));
    Accepts(ps, codec, c1);
    assert AddWorker(ps, codec, Start(frames), -1) == c1 && AddWorker(ps, codec, c1, -1) == c2;
    BreaksBoth(ps, codec, frames, w);
    var two, three := [AcceptRound(), AcceptRound()], [AcceptRound(), AcceptRound(), BrokenRound()];
    assert two[1..] == [AcceptRound()] && three[1..] == [AcceptRound(), BrokenRound()];
    assert three[1..][1..] == [BrokenRound()] && [BrokenRound()][1..] == [] && two[1..][1..] == [];
    OneRound(ps, codec, c2, [BrokenRound()]);
    OneRound(ps, codec, c1, three[1..]);
    OneRound(ps, codec, Start(frames), three);
    OneRound(ps, codec, c1, two[1..]);
    OneRound(ps, codec, Start(frames), two);
  }

  lemma Starts(ps: Parameters, codec: Codec)
    ensures var w := StartWorker(ps, codec, -1); w.phase.Awaiting? && w.frame == -1 && !Complete(w.progress)
  {
  }

  lemma BreaksBoth(ps: Parameters, codec: Codec, frames: seq<int>, w: WorkerState)
    requires ps.proxyCount == 0 && w.frame == -1
    ensures Round(ps, codec, Controller(frames, [w, w], []), BrokenRound()) == Running(Controller(frames, [], [w, w]))
  {
    var c, e := Controller(frames, [w, w], []), BrokenRound();
    assert e.polls(0) == Broken() && e.polls(1) == Quiet();
    assert Slot(codec, c, 1, e.polls(1)) == Running(c);
    assert ReceiveOn(codec, w, RecvError(true), NO_DISK) == SocketFailure(true);
    assert Kill(c, 0) == Controller(frames, [w], [w]);
    assert Kill(Kill(c, 0), 0) == Controller(frames, [], [w, w]);
    assert Slot(codec, c, 0, e.polls(0)) == Running(Controller(frames, [], [w, w]));
    assert Scan(codec, c, e.polls, 1) == Running(Controller(frames, [], [w, w]));
    assert Scan(codec, c, e.polls, 2) == Running(Controller(frames, [], [w, w]));
  }
}
