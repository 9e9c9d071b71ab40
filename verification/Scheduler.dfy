/** The controller's event loop, src/controller.cpp, as a function of its events. */
module Scheduler {
  import opened Wrappers
  import opened Framing
  import opened Outgoing
  import opened Protocol
  import opened Totals

  /** `dead` holds the connections that were killed, as they were. */
  datatype Controller = Controller(queue: seq<int>, live: seq<WorkerState>, dead: seq<WorkerState>)

  /**
   * Returned is an error return and Quit an exit of the process. Undefined is
   * an index outside of the list of workers.
   */
  datatype Status = Running(controller: Controller) | Returned | Quit(reason: Exit) | Undefined

  /** Finished is the normal exit of the main loop. */
  datatype Result = Finished(controller: Controller) | Unfinished(status: Status)

  /** What poll reports for a worker, and what the socket does about it. */
  datatype Poll = Poll(readable: bool, writable: bool, hungUp: bool, recv: RecvIO, send: SendIO, disk: Disk)

  /** The events of one round; polls are by slot and disks by frames left to hand out. */
  datatype Events = Events(connects: nat -> bool, polls: nat -> Poll, accepts: bool, disks: nat -> Disk)

  function Erase<T>(s: seq<T>, k: nat): seq<T>
    requires k < |s|
  {
    s[..k] + s[k + 1..]
  }

  /** kill_worker: the frame goes back to the front of the queue. */
  function Kill(c: Controller, k: nat): Controller
    requires k < |c.live|
  {
    var w := c.live[k];
    Controller(if w.frame == -1 then c.queue else [w.frame] + c.queue, Erase(c.live, k), c.dead + [w])
  }

  function ReadSlot(codec: Codec, c: Controller, k: nat, e: Poll): Status {
    if !e.readable then Running(c)
    else if k >= |c.live| then Undefined
    else match ReceiveOn(codec, c.live[k], e.recv, e.disk)
      case Ok(w) => Running(c.(live := c.live[k := w]))
      case SocketFailure(connReset) => if connReset then Running(Kill(c, k)) else Returned
      case Exited(reason) => Quit(reason)
  }

  function WriteSlot(c: Controller, k: nat, e: Poll): Status {
    if !e.writable then Running(c)
    else if k >= |c.live| then Undefined
    else match SendOn(c.live[k], e.send)
      case Ok(w) => Running(c.(live := c.live[k := w]))
      case _ => Returned
  }

  function HangSlot(c: Controller, k: nat, e: Poll): Status {
    if !e.hungUp then Running(c)
    else if k >= |c.live| then Undefined
    else Running(Kill(c, k))
  }

  /** All flags of one slot; the later ones use the index even if the first killed the worker. */
  function Slot(codec: Codec, c: Controller, k: nat, e: Poll): Status {
    match ReadSlot(codec, c, k, e)
    case Running(c1) =>
      (match WriteSlot(c1, k, e)
       case Running(c2) => HangSlot(c2, k, e)
       case other => other)
    case other => other
  }

  /** The backward scan over slots n-1 down to 0. */
  function Scan(codec: Codec, c: Controller, polls: nat -> Poll, n: nat): Status
    decreases n
  {
    if n == 0 then Running(c)
    else match Slot(codec, c, n - 1, polls(n - 1))
      case Running(next) => Scan(codec, next, polls, n - 1)
      case other => other
  }

  predicate Carries(live: seq<WorkerState>, index: int) {
    exists k :: 0 <= k < |live| && live[k].proxyIndex == index
  }

  function AddWorker(ps: Parameters, codec: Codec, c: Controller, proxyIndex: int): Controller {
    c.(live := c.live + [StartWorker(ps, codec, proxyIndex)])
  }

  /** A connection for every proxy from i on that has none pending. */
  function Connect(ps: Parameters, codec: Codec, c: Controller, connects: nat -> bool, i: nat): Status
    decreases ps.proxyCount - i
  {
    if i >= ps.proxyCount then Running(c)
    else if Carries(c.live, i) then Connect(ps, codec, c, connects, i + 1)
    else if !connects(i) then Returned
    else Connect(ps, codec, AddWorker(ps, codec, c, i), connects, i + 1)
  }

  /** get_idle_worker. */
  function FirstIdle(live: seq<WorkerState>): (r: Option<nat>)
    ensures r.Some? ==> r.value < |live| && live[r.value].phase.Idle?
    ensures r.Some? ==> forall k :: 0 <= k < r.value ==> live[k].phase.Awaiting?
    ensures r.None? ==> forall k :: 0 <= k < |live| ==> live[k].phase.Awaiting?
  {
    if live == [] then None
    else if live[0].phase.Idle? then Some(0)
    else match FirstIdle(live[1..]) case None => None case Some(k) => Some(k + 1)
  }

  predicate AnyWorking(live: seq<WorkerState>) {
    exists k :: 0 <= k < |live| && live[k].phase.Awaiting?
  }

  /** The next frames go to idle workers, one each, as long as there are both. */
  function HandOut(ps: Parameters, codec: Codec, c: Controller, disks: nat -> Disk): Status
    decreases |c.queue|
  {
    if c.queue == [] || FirstIdle(c.live).None? then Running(c)
    else
      var k := FirstIdle(c.live).value;
      match RunFrame(ps, codec, c.live[k], c.queue[0], disks(|c.queue|))
      case Ok(w) => HandOut(ps, codec, c.(queue := c.queue[1..], live := c.live[k := w]), disks)
      case SocketFailure(_) => Returned
      case Exited(reason) => Quit(reason)
  }

  function AfterScan(ps: Parameters, codec: Codec, c: Controller, e: Events): Status {
    HandOut(ps, codec, if e.accepts then AddWorker(ps, codec, c, -1) else c, e.disks)
  }

  /** One round of the main loop; the listening socket is slot 0, so it comes last. */
  function Round(ps: Parameters, codec: Codec, c: Controller, e: Events): Status {
    match Connect(ps, codec, c, e.connects, 0)
    case Running(c1) =>
      (match Scan(codec, c1, e.polls, |c1.live|)
       case Running(c2) => AfterScan(ps, codec, c2, e)
       case other => other)
    case other => other
  }

  function Start(frames: seq<int>): Controller {
    Controller(frames, [], [])
  }

  /** The main loop over the given rounds. */
  function Run(ps: Parameters, codec: Codec, c: Controller, rounds: seq<Events>): Result
    decreases |rounds|
  {
    if c.queue == [] && !AnyWorking(c.live) then Finished(c)
    else if rounds == [] then Unfinished(Running(c))
    else match Round(ps, codec, c, rounds[0])
      case Running(next) => Run(ps, codec, next, rounds[1..])
      case other => Unfinished(other)
  }

  // Invariants.

  /** The worker is on the frame, or has processed it. */
  ghost predicate WorkerCovers(ps: Parameters, w: WorkerState, frame: int) {
    || (w.phase.Awaiting? && w.given != [] && w.frame == frame)
    || Processed(ps, w.done, frame)
  }

  /** No frame is lost: it is queued, being worked on, or processed. */
  ghost predicate Covered(ps: Parameters, c: Controller, frame: int) {
    || frame in c.queue
    || (exists k :: 0 <= k < |c.live| && WorkerCovers(ps, c.live[k], frame))
    || (exists k :: 0 <= k < |c.dead| && Processed(ps, c.dead[k].done, frame))
  }

  predicate ProxiesInv(ps: Parameters, live: seq<WorkerState>) {
    && (forall k :: 0 <= k < |live| ==> -1 <= live[k].proxyIndex < ps.proxyCount)
    && (forall i, j :: 0 <= i < j < |live| && live[i].proxyIndex == live[j].proxyIndex ==> live[i].proxyIndex == -1)
  }

  predicate WorkersInv(ps: Parameters, c: Controller) {
    && (forall k :: 0 <= k < |c.live| ==> WorkerInv(ps, c.live[k]))
    && (forall k :: 0 <= k < |c.dead| ==> WorkerInv(ps, c.dead[k]))
    && ProxiesInv(ps, c.live)
  }

  /** -1 stands for no frame, so a frame of that number is not kept track of. */
  ghost predicate NoneLost(ps: Parameters, frames: seq<int>, c: Controller) {
    forall f :: f in frames && f != -1 ==> Covered(ps, c, f)
  }

  function GivenWeight(weight: int -> nat): WorkerState -> nat {
    (w: WorkerState) => Total(w.given, weight)
  }

  function RequeuedWeight(weight: int -> nat): WorkerState -> nat {
    (w: WorkerState) => if w.frame == -1 then 0 else weight(w.frame)
  }

  /**
   * Frames are conserved, however they are weighed: what is queued and what
   * was handed out make up the given frames and the ones requeued by deaths.
   */
  predicate Balanced(frames: seq<int>, c: Controller, weight: int -> nat) {
    Total(c.queue, weight) + Total(c.live, GivenWeight(weight)) + Total(c.dead, GivenWeight(weight))
    == Total(frames, weight) + Total(c.dead, RequeuedWeight(weight))
  }

  ghost predicate Inv(ps: Parameters, frames: seq<int>, weight: int -> nat, c: Controller) {
    WorkersInv(ps, c) && NoneLost(ps, frames, c) && Balanced(frames, c, weight)
  }

  /** What bytes on its connection do to a worker. */
  predicate Evolves(ps: Parameters, w: WorkerState, next: WorkerState) {
    && WorkerInv(ps, next) && next.given == w.given && next.frame == w.frame
    && w.done <= next.done
    && (next.proxyIndex == w.proxyIndex || next.proxyIndex == -1)
  }

  lemma EvolvesCovers(ps: Parameters, w: WorkerState, next: WorkerState, frame: int)
    requires WorkerInv(ps, w) && Evolves(ps, w, next) && WorkerCovers(ps, w, frame)
    ensures WorkerCovers(ps, next, frame)
  {
    if Processed(ps, w.done, frame) {
      ProcessedStays(ps, w.done, next.done, frame);
    } else {
      assert frame == next.given[|next.given| - 1];
      AssignedIsProcessed(ps, next, frame);
    }
  }

  lemma CoveredByUpdate(ps: Parameters, c: Controller, k: nat, next: WorkerState, queue: seq<int>, frame: int)
    requires k < |c.live| && Covered(ps, c, frame)
    requires WorkerCovers(ps, c.live[k], frame) ==> WorkerCovers(ps, next, frame)
    requires frame in c.queue ==> frame in queue || WorkerCovers(ps, next, frame)
    ensures Covered(ps, c.(queue := queue, live := c.live[k := next]), frame)
  {
    var live := c.live[k := next];
    if exists j :: 0 <= j < |c.live| && WorkerCovers(ps, c.live[j], frame) {
      var j :| 0 <= j < |c.live| && WorkerCovers(ps, c.live[j], frame);
      assert WorkerCovers(ps, live[j], frame);
    }
    if WorkerCovers(ps, next, frame) {
      assert WorkerCovers(ps, live[k], frame);
    }
  }

  lemma UpdateKeeps(ps: Parameters, frames: seq<int>, weight: int -> nat, c: Controller, k: nat, next: WorkerState)
    requires Inv(ps, frames, weight, c) && k < |c.live| && Evolves(ps, c.live[k], next)
    ensures Inv(ps, frames, weight, c.(live := c.live[k := next]))
  {
    hide WorkerInv;
    TotalUpdate(c.live, k, next, GivenWeight(weight));
    NoneLostByUpdate(ps, frames, c, k, next);
  }

  lemma NoneLostByUpdate(ps: Parameters, frames: seq<int>, c: Controller, k: nat, next: WorkerState)
    requires NoneLost(ps, frames, c) && k < |c.live| && WorkerInv(ps, c.live[k]) && Evolves(ps, c.live[k], next)
    ensures NoneLost(ps, frames, c.(live := c.live[k := next]))
  {
    hide WorkerInv, WorkerCovers, Evolves;
    forall f | f in frames && f != -1 ensures Covered(ps, c.(live := c.live[k := next]), f) {
      if WorkerCovers(ps, c.live[k], f) {
        EvolvesCovers(ps, c.live[k], next, f);
      }
      CoveredByUpdate(ps, c, k, next, c.queue, f);
      assert c.(live := c.live[k := next]) == c.(queue := c.queue, live := c.live[k := next]);
    }
  }

  lemma CoveredByKill(ps: Parameters, c: Controller, k: nat, frame: int)
    requires k < |c.live| && Covered(ps, c, frame) && frame != -1
    ensures Covered(ps, Kill(c, k), frame)
  {
    var after := Kill(c, k);
    if frame in c.queue {
    } else if exists j :: 0 <= j < |c.live| && WorkerCovers(ps, c.live[j], frame) {
      var j :| 0 <= j < |c.live| && WorkerCovers(ps, c.live[j], frame);
      if j == k {
        assert after.dead[|c.dead|] == c.live[k];
      } else {
        assert c.live[j] == after.live[if j < k then j else j - 1];
      }
    } else {
      var j :| 0 <= j < |c.dead| && Processed(ps, c.dead[j].done, frame);
      assert after.dead[j] == c.dead[j];
    }
  }

  lemma KillBalances(frames: seq<int>, c: Controller, k: nat, weight: int -> nat)
    requires k < |c.live| && Balanced(frames, c, weight)
    ensures Balanced(frames, Kill(c, k), weight)
  {
    var w := c.live[k];
    TotalAt(c.live, k, GivenWeight(weight));
    TotalPush(c.dead, w, GivenWeight(weight));
    TotalPush(c.dead, w, RequeuedWeight(weight));
    TotalPush(c.queue, w.frame, weight);
  }

  lemma KillKeeps(ps: Parameters, frames: seq<int>, weight: int -> nat, c: Controller, k: nat)
    requires Inv(ps, frames, weight, c) && k < |c.live|
    ensures Inv(ps, frames, weight, Kill(c, k))
  {
    hide WorkerInv, Covered, Balanced;
    var after := Kill(c, k);
    KillBalances(frames, c, k, weight);
    assert forall j :: 0 <= j < |after.live| ==> after.live[j] == c.live[if j < k then j else j + 1];
    forall f | f in frames && f != -1 ensures Covered(ps, after, f) {
      CoveredByKill(ps, c, k, f);
    }
  }

  lemma CoveredByAdd(ps: Parameters, codec: Codec, c: Controller, proxyIndex: int, frame: int)
    requires Covered(ps, c, frame)
    ensures Covered(ps, AddWorker(ps, codec, c, proxyIndex), frame)
  {
    hide WorkerCovers, StartWorker;
    var after := AddWorker(ps, codec, c, proxyIndex);
    if exists k :: 0 <= k < |c.live| && WorkerCovers(ps, c.live[k], frame) {
      var k :| 0 <= k < |c.live| && WorkerCovers(ps, c.live[k], frame);
      assert WorkerCovers(ps, after.live[k], frame);
    }
  }

  lemma AddKeeps(ps: Parameters, codec: Codec, frames: seq<int>, weight: int -> nat, c: Controller, proxyIndex: int)
    requires Inv(ps, frames, weight, c) && -1 <= proxyIndex < ps.proxyCount
    requires proxyIndex != -1 ==> !Carries(c.live, proxyIndex)
    ensures Inv(ps, frames, weight, AddWorker(ps, codec, c, proxyIndex))
  {
    hide WorkerInv, Covered;
    var w := StartWorker(ps, codec, proxyIndex);
    StartKeeps(ps, codec, proxyIndex);
    TotalPush(c.live, w, GivenWeight(weight));
    forall f | f in frames && f != -1 ensures Covered(ps, AddWorker(ps, codec, c, proxyIndex), f) {
      CoveredByAdd(ps, codec, c, proxyIndex, f);
    }
  }

  /** The front frame is given to worker k. */
  predicate Assigns(c: Controller, k: nat, next: WorkerState)
    requires k < |c.live|
  {
    && c.queue != [] && c.live[k].phase.Idle? && next.phase.Awaiting?
    && next.given == c.live[k].given + [c.queue[0]] && next.frame == c.queue[0]
    && next.done == c.live[k].done && next.proxyIndex == c.live[k].proxyIndex
  }

  lemma AssignBalances(frames: seq<int>, c: Controller, k: nat, next: WorkerState, weight: int -> nat)
    requires k < |c.live| && Assigns(c, k, next) && Balanced(frames, c, weight)
    ensures Balanced(frames, c.(queue := c.queue[1..], live := c.live[k := next]), weight)
  {
    TotalUpdate(c.live, k, next, GivenWeight(weight));
    TotalPush(c.live[k].given, c.queue[0], weight);
  }

  lemma NoneLostByAssign(ps: Parameters, frames: seq<int>, c: Controller, k: nat, next: WorkerState)
    requires k < |c.live| && Assigns(c, k, next) && NoneLost(ps, frames, c)
    ensures NoneLost(ps, frames, c.(queue := c.queue[1..], live := c.live[k := next]))
  {
    hide Processed;
    forall f | f in frames && f != -1
      ensures Covered(ps, c.(queue := c.queue[1..], live := c.live[k := next]), f)
    {
      CoveredByUpdate(ps, c, k, next, c.queue[1..], f);
    }
  }

  lemma AssignKeeps(ps: Parameters, codec: Codec, frames: seq<int>, weight: int -> nat, c: Controller, k: nat,
      disk: Disk)
    requires Inv(ps, frames, weight, c) && c.queue != [] && k < |c.live| && c.live[k].phase.Idle?
    requires RunFrame(ps, codec, c.live[k], c.queue[0], disk).Ok?
    ensures var w := RunFrame(ps, codec, c.live[k], c.queue[0], disk).value;
      Inv(ps, frames, weight, c.(queue := c.queue[1..], live := c.live[k := w])) && Assigns(c, k, w)
  {
    hide WorkerInv, NoneLost, Balanced;
    var w := RunFrame(ps, codec, c.live[k], c.queue[0], disk).value;
    RunFrameKeeps(ps, codec, c.live[k], c.queue[0], disk);
    AssignBalances(frames, c, k, w, weight);
    NoneLostByAssign(ps, frames, c, k, w);
  }

  // Slots and the scan.

  lemma ReadKeeps(ps: Parameters, codec: Codec, frames: seq<int>, weight: int -> nat, c: Controller, k: nat, e: Poll)
    requires Inv(ps, frames, weight, c)
    ensures ReadSlot(codec, c, k, e).Running? ==> Inv(ps, frames, weight, ReadSlot(codec, c, k, e).controller)
  {
    if e.readable && k < |c.live| {
      ReceiveKeeps(ps, codec, c.live[k], e.recv, e.disk);
      match ReceiveOn(codec, c.live[k], e.recv, e.disk)
      case Ok(w) =>
        UpdateKeeps(ps, frames, weight, c, k, w);
      case SocketFailure(_) =>
        KillKeeps(ps, frames, weight, c, k);
      case Exited(_) =>
    }
  }

  lemma WriteKeeps(ps: Parameters, frames: seq<int>, weight: int -> nat, c: Controller, k: nat, e: Poll)
    requires Inv(ps, frames, weight, c)
    ensures WriteSlot(c, k, e).Running? ==> Inv(ps, frames, weight, WriteSlot(c, k, e).controller)
  {
    if e.writable && k < |c.live| && SendOn(c.live[k], e.send).Ok? {
      SendKeeps(ps, c.live[k], e.send);
      UpdateKeeps(ps, frames, weight, c, k, SendOn(c.live[k], e.send).value);
    }
  }

  lemma SlotKeeps(ps: Parameters, codec: Codec, frames: seq<int>, weight: int -> nat, c: Controller, k: nat, e: Poll)
    requires Inv(ps, frames, weight, c)
    ensures Slot(codec, c, k, e).Running? ==> Inv(ps, frames, weight, Slot(codec, c, k, e).controller)
  {
    hide ReadSlot, WriteSlot, Inv, Kill;
    ReadKeeps(ps, codec, frames, weight, c, k, e);
    if ReadSlot(codec, c, k, e).Running? {
      var c1 := ReadSlot(codec, c, k, e).controller;
      WriteKeeps(ps, frames, weight, c1, k, e);
      if WriteSlot(c1, k, e).Running? {
        var c2 := WriteSlot(c1, k, e).controller;
        if e.hungUp && k < |c2.live| {
          KillKeeps(ps, frames, weight, c2, k);
        }
      }
    }
  }

  lemma {:induction false} ScanKeeps(ps: Parameters, codec: Codec, frames: seq<int>, weight: int -> nat, c: Controller,
                                     polls: nat -> Poll, n: nat)
    requires Inv(ps, frames, weight, c)
    ensures Scan(codec, c, polls, n).Running? ==> Inv(ps, frames, weight, Scan(codec, c, polls, n).controller)
    decreases n
  {
    hide Slot, Inv;
    if n > 0 {
      SlotKeeps(ps, codec, frames, weight, c, n - 1, polls(n - 1));
      if Slot(codec, c, n - 1, polls(n - 1)).Running? {
        ScanKeeps(ps, codec, frames, weight, Slot(codec, c, n - 1, polls(n - 1)).controller, polls, n - 1);
      }
    }
  }

  lemma {:induction false} ConnectKeeps(ps: Parameters, codec: Codec, frames: seq<int>, weight: int -> nat,
      c: Controller, connects: nat -> bool, i: nat)
    requires Inv(ps, frames, weight, c)
    ensures Connect(ps, codec, c, connects, i).Running? ==>
      Inv(ps, frames, weight, Connect(ps, codec, c, connects, i).controller)
    decreases ps.proxyCount - i
  {
    hide Inv, AddWorker;
    if i < ps.proxyCount {
      if Carries(c.live, i) {
        ConnectKeeps(ps, codec, frames, weight, c, connects, i + 1);
      } else if connects(i) {
        AddKeeps(ps, codec, frames, weight, c, i);
        ConnectKeeps(ps, codec, frames, weight, AddWorker(ps, codec, c, i), connects, i + 1);
      }
    }
  }

  lemma {:induction false} HandOutKeeps(ps: Parameters, codec: Codec, frames: seq<int>, weight: int -> nat,
      c: Controller, disks: nat -> Disk)
    requires Inv(ps, frames, weight, c)
    ensures HandOut(ps, codec, c, disks).Running? ==> Inv(ps, frames, weight, HandOut(ps, codec, c, disks).controller)
    decreases |c.queue|
  {
    hide Inv, RunFrame;
    if c.queue != [] && FirstIdle(c.live).Some? {
      var k := FirstIdle(c.live).value;
      var r := RunFrame(ps, codec, c.live[k], c.queue[0], disks(|c.queue|));
      if r.Ok? {
        AssignKeeps(ps, codec, frames, weight, c, k, disks(|c.queue|));
        HandOutKeeps(ps, codec, frames, weight, c.(queue := c.queue[1..], live := c.live[k := r.value]), disks);
      }
    }
  }

  lemma RoundKeeps(ps: Parameters, codec: Codec, frames: seq<int>, weight: int -> nat, c: Controller, e: Events)
    requires Inv(ps, frames, weight, c)
    ensures Round(ps, codec, c, e).Running? ==> Inv(ps, frames, weight, Round(ps, codec, c, e).controller)
  {
    hide Inv, Connect, Scan, HandOut, AddWorker;
    ConnectKeeps(ps, codec, frames, weight, c, e.connects, 0);
    if Connect(ps, codec, c, e.connects, 0).Running? {
      var c1 := Connect(ps, codec, c, e.connects, 0).controller;
      ScanKeeps(ps, codec, frames, weight, c1, e.polls, |c1.live|);
      if Scan(codec, c1, e.polls, |c1.live|).Running? {
        var c2 := Scan(codec, c1, e.polls, |c1.live|).controller;
        if e.accepts {
          AddKeeps(ps, codec, frames, weight, c2, -1);
          HandOutKeeps(ps, codec, frames, weight, AddWorker(ps, codec, c2, -1), e.disks);
        } else {
          HandOutKeeps(ps, codec, frames, weight, c2, e.disks);
        }
      }
    }
  }

  lemma {:induction false} RunKeeps(ps: Parameters, codec: Codec, frames: seq<int>, weight: int -> nat, c: Controller,
                                    rounds: seq<Events>)
    requires Inv(ps, frames, weight, c)
    ensures match Run(ps, codec, c, rounds)
      case Unfinished(Running(after)) => Inv(ps, frames, weight, after)
      case Finished(after) => Inv(ps, frames, weight, after) && after.queue == [] && !AnyWorking(after.live)
      case _ => true
    decreases |rounds|
  {
    hide Inv, Round;
    if rounds != [] && !(c.queue == [] && !AnyWorking(c.live)) {
      RoundKeeps(ps, codec, frames, weight, c, rounds[0]);
      if Round(ps, codec, c, rounds[0]).Running? {
        RunKeeps(ps, codec, frames, weight, Round(ps, codec, c, rounds[0]).controller, rounds[1..]);
      }
    }
  }

  lemma StartInv(ps: Parameters, frames: seq<int>, weight: int -> nat)
    ensures Inv(ps, frames, weight, Start(frames))
  {
  }
}
