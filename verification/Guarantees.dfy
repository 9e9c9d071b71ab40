/** What the controller guarantees over whole runs, for any events. */
module Guarantees {
  import opened Framing
  import opened Template
  import opened Protocol
  import opened Totals
  import opened Scheduler
  import opened Walks

  // Nothing is lost.

  ghost predicate DoneBySomeone(ps: Parameters, c: Controller, frame: int) {
    exists w :: w in c.live + c.dead && Processed(ps, w.done, frame)
  }

  /**
   * Whatever connects, arrives, stalls or dies: when the main loop exits
   * normally every frame has been processed, from its in-copies to its
   * out-copies, over one connection.
   */
  lemma Completeness(ps: Parameters, codec: Codec, frames: seq<int>, rounds: seq<Events>, frame: int)
    requires Run(ps, codec, Start(frames), rounds).Finished? && frame in frames && frame != -1
    ensures DoneBySomeone(ps, Run(ps, codec, Start(frames), rounds).controller, frame)
  {
    hide WorkerInv, Processed;
    StartInv(ps, frames, One());
    RunKeeps(ps, codec, frames, One(), Start(frames), rounds);
    var c := Run(ps, codec, Start(frames), rounds).controller;
    assert Covered(ps, c, frame);
    if exists k :: 0 <= k < |c.live| && WorkerCovers(ps, c.live[k], frame) {
      var k :| 0 <= k < |c.live| && WorkerCovers(ps, c.live[k], frame);
      assert c.live[k] in c.live + c.dead;
    } else {
      var k :| 0 <= k < |c.dead| && Processed(ps, c.dead[k].done, frame);
      assert c.dead[k] in c.live + c.dead;
    }
  }

  lemma {:induction false} FetchedIsWritten(done: seq<Exchange>, k: nat)
    requires k < |done| && done[k].action.FetchFile?
    ensures File(done[k].action.destination, done[k].response.content) in FilesOf(done)
  {
    if k < |done| - 1 {
      FetchedIsWritten(done[..|done| - 1], k);
    }
  }

  lemma {:induction false} OutActionOf(copies: seq<FileCopy>, copy: FileCopy, frame: int)
    requires copy in copies && Selected(copy, frame)
    ensures FetchAction(copy, frame) in OutActions(copies, frame)
  {
    hide Substitute;
    if copies[0] != copy {
      OutActionOf(copies[1..], copy, frame);
    }
  }

  /** A processed frame has every one of its outputs on the controller's disk. */
  lemma OutputsWritten(ps: Parameters, w: WorkerState, frame: int, copy: FileCopy) returns (content: Bytes)
    requires WorkerInv(ps, w) && Processed(ps, w.done, frame)
    requires copy in ps.outCopies && Selected(copy, frame)
    ensures File(Substitute(copy.destination, frame), content) in w.files
  {
    hide Substitute, StringHasParameter, OnScript, RunAction, InActions, OutActions, FilesOf;
    OutActionOf(ps.outCopies, copy, frame);
    var action := FetchAction(copy, frame);
    assert action in FrameScript(ps, frame);
    var j :| 0 <= j < |FrameScript(ps, frame)| && FrameScript(ps, frame)[j] == action;
    var i: nat :| ProcessedAt(ps, w.done, frame, i);
    assert Actions(w.done)[i..i + |FrameScript(ps, frame)|][j] == w.done[i + j].action;
    content := w.done[i + j].response.content;
    FetchedIsWritten(w.done, i + j);
  }

  // Nothing is out of order.

  /** The requests put into the outgoing buffer of a connection so far. */
  function Emitted(w: WorkerState): seq<Action> {
    Actions(w.done) + match w.phase case Idle => [] case Awaiting(pending, _) => [pending]
  }

  lemma ReachedOnScript(ps: Parameters, codec: Codec, frames: seq<int>, c: Controller, w: WorkerState)
    requires Reached(ps, codec, frames, c) && w in c.live + c.dead
    ensures WorkerInv(ps, w)
  {
    hide WorkerInv, Reached, NoneLost, Balanced;
    ReachedInv(ps, codec, frames, One(), c);
  }

  /**
   * In every state the requests of every connection, dead or alive, are a
   * prefix of: the greeting, the in-copies without a parameter, and for each
   * frame given to it its in-copies, one run, and its out-copies. Idle means
   * the end of that.
   */
  lemma EmittedIsPrefix(ps: Parameters, codec: Codec, frames: seq<int>, c: Controller, w: WorkerState)
    requires Reached(ps, codec, frames, c) && w in c.live + c.dead
    ensures Emitted(w) <= Script(ps, w.given)
    ensures w.phase.Idle? ==> Emitted(w) == Script(ps, w.given)
  {
    hide Script, Reached;
    ReachedOnScript(ps, codec, frames, c, w);
    assert Actions(w.done) + Outstanding(w.phase) == Script(ps, w.given);
  }

  // Nothing is doubled.

  /** How many of the queue and the live workers have the frame. */
  function Holds(frame: int): WorkerState -> nat {
    (w: WorkerState) => if w.given != [] && w.frame == frame then 1 else 0
  }

  function Owners(c: Controller, frame: int): nat {
    Total(c.queue, Is(frame)) + Total(c.live, Holds(frame))
  }

  lemma HeldWasGiven(w: WorkerState, frame: int)
    requires w.frame == (if w.given == [] then -1 else w.given[|w.given| - 1])
    ensures Holds(frame)(w) <= Total(w.given, Is(frame))
    ensures RequeuedWeight(Is(frame))(w) <= Total(w.given, Is(frame))
  {
    if w.given != [] {
      assert w.given == DropLast(w.given) + [w.frame];
      TotalPush(DropLast(w.given), w.frame, Is(frame));
    }
  }

  lemma OwnersBounded(ps: Parameters, frames: seq<int>, c: Controller, frame: int)
    requires WorkersInv(ps, c) && Balanced(frames, c, Is(frame))
    ensures Owners(c, frame) <= Total(frames, Is(frame))
  {
    forall k | 0 <= k < |c.live| ensures Holds(frame)(c.live[k]) <= GivenWeight(Is(frame))(c.live[k]) {
      HeldWasGiven(c.live[k], frame);
    }
    TotalMonotone(c.live, Holds(frame), GivenWeight(Is(frame)));
    forall k | 0 <= k < |c.dead| ensures RequeuedWeight(Is(frame))(c.dead[k]) <= GivenWeight(Is(frame))(c.dead[k]) {
      HeldWasGiven(c.dead[k], frame);
    }
    TotalMonotone(c.dead, RequeuedWeight(Is(frame)), GivenWeight(Is(frame)));
  }

  /** In every state, also within a round, a frame has at most one owner. */
  lemma SingleOwner(ps: Parameters, codec: Codec, frames: seq<int>, c: Controller, frame: int)
    requires forall i, j :: 0 <= i < j < |frames| ==> frames[i] != frames[j]
    requires Reached(ps, codec, frames, c)
    ensures Owners(c, frame) <= 1
  {
    hide WorkerInv, Reached, NoneLost;
    ReachedInv(ps, codec, frames, Is(frame), c);
    OwnersBounded(ps, frames, c, frame);
    DistinctCount(frames, frame);
  }

  /** All frames queued, and all ever given to a worker, are from the list. */
  predicate OnlyFrom(frames: seq<int>, c: Controller) {
    && (forall k :: 0 <= k < |c.queue| ==> c.queue[k] in frames)
    && (forall w, k :: w in c.live + c.dead && 0 <= k < |w.given| ==> w.given[k] in frames)
  }

  lemma MoveStaysWithin(ps: Parameters, codec: Codec, frames: seq<int>, c: Controller, m: Move)
    requires Inv(ps, frames, One(), c) && OnlyFrom(frames, c) && Apply(ps, codec, c, m).Running?
    ensures OnlyFrom(frames, Apply(ps, codec, c, m).controller)
  {
    hide NoneLost, Balanced, Reached, ReceiveOn, SendOn, RunFrame, StartWorker, OnScript, FirstIdle;
    var next := Apply(ps, codec, c, m).controller;
    match m
    case Connects(i) => FreshWithin(ps, codec, frames, c, i);
    case Accepts => FreshWithin(ps, codec, frames, c, -1);
    case Reads(k, e) =>
      if e.readable {
        ReceiveKeeps(ps, codec, c.live[k], e.recv, e.disk);
        if ReceiveOn(codec, c.live[k], e.recv, e.disk).Ok? {
          UpdateWithin(frames, c, k, ReceiveOn(codec, c.live[k], e.recv, e.disk).value, c.queue);
        } else {
          KillWithin(ps, frames, c, k);
        }
      }
    case Writes(k, e) =>
      if e.writable {
        SendGives(c.live[k], e);
        UpdateWithin(frames, c, k, SendOn(c.live[k], e.send).value, c.queue);
      }
    case Hangs(k, e) =>
      if e.hungUp {
        KillWithin(ps, frames, c, k);
      }
    case Assigns(disk) =>
      if c.queue != [] && FirstIdle(c.live).Some? {
        var k := FirstIdle(c.live).value;
        RunFrameKeeps(ps, codec, c.live[k], c.queue[0], disk);
        UpdateWithin(frames, c, k, RunFrame(ps, codec, c.live[k], c.queue[0], disk).value, c.queue[1..]);
      }
  }

  lemma SendGives(w: WorkerState, e: Poll)
    ensures SendOn(w, e.send).Ok? ==> SendOn(w, e.send).value.given == w.given
  {
  }

  lemma FreshWithin(ps: Parameters, codec: Codec, frames: seq<int>, c: Controller, proxyIndex: int)
    requires OnlyFrom(frames, c)
    ensures OnlyFrom(frames, AddWorker(ps, codec, c, proxyIndex))
  {
    assert StartWorker(ps, codec, proxyIndex).given == [];
  }

  lemma UpdateWithin(frames: seq<int>, c: Controller, k: nat, next: WorkerState, queue: seq<int>)
    requires OnlyFrom(frames, c) && k < |c.live|
    requires next.given == c.live[k].given || (c.queue != [] && next.given == c.live[k].given + [c.queue[0]])
    requires queue == c.queue || (c.queue != [] && queue == c.queue[1..])
    ensures OnlyFrom(frames, c.(queue := queue, live := c.live[k := next]))
  {
    assert c.live[k] in c.live + c.dead;
  }

  lemma KillWithin(ps: Parameters, frames: seq<int>, c: Controller, k: nat)
    requires OnlyFrom(frames, c) && k < |c.live| && WorkersInv(ps, c)
    ensures OnlyFrom(frames, Kill(c, k))
  {
    hide WorkersInv;
    var next := Kill(c, k);
    FrameWithin(ps, frames, c, k);
    forall w | w in next.live + next.dead ensures w in c.live + c.dead {
      StillThere(c, k, w);
    }
  }

  lemma FrameWithin(ps: Parameters, frames: seq<int>, c: Controller, k: nat)
    requires OnlyFrom(frames, c) && k < |c.live| && WorkersInv(ps, c)
    ensures c.live[k].frame == -1 || c.live[k].frame in frames
  {
    var w := c.live[k];
    assert w in c.live + c.dead && WorkerInv(ps, w);
    if w.given != [] {
      assert w.given[|w.given| - 1] in frames;
    }
  }

  lemma StillThere(c: Controller, k: nat, w: WorkerState)
    requires k < |c.live| && w in Kill(c, k).live + Kill(c, k).dead
    ensures w in c.live + c.dead
  {
    if w in Kill(c, k).live {
      var j :| 0 <= j < |Kill(c, k).live| && Kill(c, k).live[j] == w;
      assert c.live[if j < k then j else j + 1] == w;
    }
  }

  lemma {:induction false} WalkStaysWithin(ps: Parameters, codec: Codec, frames: seq<int>, c: Controller,
      moves: seq<Move>)
    requires Inv(ps, frames, One(), c) && OnlyFrom(frames, c) && Walk(ps, codec, c, moves).Running?
    ensures OnlyFrom(frames, Walk(ps, codec, c, moves).controller)
    decreases |moves|
  {
    hide Inv, OnlyFrom, Apply;
    if moves != [] {
      MoveKeeps(ps, codec, frames, One(), c, moves[0]);
      MoveStaysWithin(ps, codec, frames, c, moves[0]);
      WalkStaysWithin(ps, codec, frames, Apply(ps, codec, c, moves[0]).controller, moves[1..]);
    }
  }

  lemma ReachedWithin(ps: Parameters, codec: Codec, frames: seq<int>, c: Controller)
    requires Reached(ps, codec, frames, c)
    ensures OnlyFrom(frames, c)
  {
    hide Walk, WorkersInv, Inv;
    var moves :| Walk(ps, codec, Start(frames), moves) == Running(c);
    StartInv(ps, frames, One());
    WalkStaysWithin(ps, codec, frames, Start(frames), moves);
  }

  /** What is not in the list has no owner and was never handed out, to workers dead or alive. */
  lemma NoOwner(ps: Parameters, codec: Codec, frames: seq<int>, c: Controller, frame: int)
    requires Reached(ps, codec, frames, c) && frame !in frames
    ensures Owners(c, frame) == 0 && TimesGiven(c, frame) == 0
  {
    hide Reached;
    ReachedWithin(ps, codec, frames, c);
    NeverOwned(ps, codec, frames, c, frame);
    NoneGiven(c.live, frame);
    NoneGiven(c.dead, frame);
  }

  lemma NeverOwned(ps: Parameters, codec: Codec, frames: seq<int>, c: Controller, frame: int)
    requires Reached(ps, codec, frames, c) && frame !in frames
    ensures Owners(c, frame) == 0
  {
    hide WorkerInv, Reached, NoneLost;
    ReachedInv(ps, codec, frames, Is(frame), c);
    OwnersBounded(ps, frames, c, frame);
    CountAbsent(frames, frame);
  }

  lemma {:induction false} NoneGiven(ws: seq<WorkerState>, frame: int)
    requires forall w :: w in ws ==> frame !in w.given
    ensures Total(ws, GivenWeight(Is(frame))) == 0
  {
    if ws != [] {
      assert ws[0] in ws;
      CountAbsent(ws[0].given, frame);
      NoneGiven(ws[1..], frame);
    }
  }

  lemma {:induction false} CountAbsent(frames: seq<int>, frame: int)
    requires frame !in frames
    ensures Total(frames, Is(frame)) == 0
  {
    if frames != [] {
      CountAbsent(frames[1..], frame);
    }
  }

  /** One owner means: no frame on two live workers, none queued and on a worker. */
  lemma OneOwnerMeans(c: Controller, frame: int, i: nat, j: nat)
    requires Owners(c, frame) <= 1 && i < |c.live| && c.live[i].given != [] && c.live[i].frame == frame
    ensures frame !in c.queue
    ensures j < |c.live| && j != i && c.live[j].given != [] ==> c.live[j].frame != frame
  {
    TotalAt(c.live, i, Holds(frame));
    if j < |c.live| && j != i {
      TotalAt(Erase(c.live, i), if j < i then j else j - 1, Holds(frame));
    }
    if frame in c.queue {
      var k :| 0 <= k < |c.queue| && c.queue[k] == frame;
      TotalAt(c.queue, k, Is(frame));
    }
  }

  function TimesGiven(c: Controller, frame: int): nat {
    Total(c.live, GivenWeight(Is(frame))) + Total(c.dead, GivenWeight(Is(frame)))
  }

  /** The deaths that put the frame back. */
  function TimesRequeued(c: Controller, frame: int): nat {
    Total(c.dead, RequeuedWeight(Is(frame)))
  }

  /**
   * In every state a frame has been handed out or is queued exactly once for
   * each of its places in the list, and once more for every death of a
   * connection that had it last. At the normal exit the queue is empty.
   */
  lemma HandedOutExactly(ps: Parameters, codec: Codec, frames: seq<int>, c: Controller, frame: int)
    requires Reached(ps, codec, frames, c)
    ensures TimesGiven(c, frame) + Total(c.queue, Is(frame)) == Total(frames, Is(frame)) + TimesRequeued(c, frame)
  {
    hide WorkersInv, Reached, NoneLost;
    ReachedInv(ps, codec, frames, Is(frame), c);
  }

  // How much work a run is.

  function FrameCost(ps: Parameters): int -> nat {
    (f: int) => |FrameScript(ps, f)|
  }

  function DoneCount(): WorkerState -> nat {
    (w: WorkerState) => |w.done|
  }

  function LeftCount(): WorkerState -> nat {
    (w: WorkerState) => |Outstanding(w.phase)|
  }

  lemma {:induction false} ScriptLength(ps: Parameters, given: seq<int>)
    ensures |Script(ps, given)| == |SetupScript(ps)| + Total(given, FrameCost(ps))
  {
    hide InActions, OutActions;
    if given != [] {
      ScriptLength(ps, DropLast(given));
      assert given == DropLast(given) + [given[|given| - 1]];
      TotalPush(DropLast(given), given[|given| - 1], FrameCost(ps));
    }
  }

  lemma OneMore(n: nat, m: nat, cost: nat)
    ensures (1 + n) * cost == n * cost + cost
    ensures (m + n) * cost == m * cost + n * cost
  {
  }

  lemma ExchangesOfOne(ps: Parameters, w: WorkerState)
    requires WorkerInv(ps, w)
    ensures |w.done| + |Outstanding(w.phase)| == |SetupScript(ps)| + Total(w.given, FrameCost(ps))
  {
    hide SetupScript, FrameScript, Script;
    ScriptLength(ps, w.given);
    assert |Actions(w.done) + Outstanding(w.phase)| == |Script(ps, w.given)|;
  }

  lemma {:induction false} ExchangesOf(ps: Parameters, ws: seq<WorkerState>, setup: nat)
    requires forall k :: 0 <= k < |ws| ==> WorkerInv(ps, ws[k])
    requires setup == |SetupScript(ps)|
    ensures Total(ws, DoneCount()) + Total(ws, LeftCount()) == |ws| * setup + Total(ws, GivenWeight(FrameCost(ps)))
  {
    hide SetupScript, WorkerInv;
    if ws != [] {
      ExchangesOf(ps, ws[1..], setup);
      ExchangesOfOne(ps, ws[0]);
      OneMore(|ws[1..]|, 0, setup);
    }
  }

  /** Answered requests of all connections. */
  function Exchanges(c: Controller): nat {
    Total(c.live, DoneCount()) + Total(c.dead, DoneCount())
  }

  /** Requests the queue and the live workers still have before them. */
  function Potential(ps: Parameters, c: Controller): nat {
    Total(c.queue, FrameCost(ps)) + Total(c.live, LeftCount())
  }

  /**
   * The work law, in every state: exchanges made, to be made and lost with
   * dead connections are the setups of all connections, the frames, and the
   * frames requeued.
   */
  lemma WorkLaw(ps: Parameters, codec: Codec, frames: seq<int>, c: Controller)
    requires Reached(ps, codec, frames, c)
    ensures Exchanges(c) + Potential(ps, c) + Total(c.dead, LeftCount())
         == (|c.live| + |c.dead|) * |SetupScript(ps)|
            + Total(frames, FrameCost(ps)) + Total(c.dead, RequeuedWeight(FrameCost(ps)))
  {
    hide Reached, SetupScript, WorkersInv, NoneLost, Balanced;
    ReachedInv(ps, codec, frames, FrameCost(ps), c);
    WorkBalance(ps, frames, c);
  }

  lemma WorkBalance(ps: Parameters, frames: seq<int>, c: Controller)
    requires WorkersInv(ps, c) && Balanced(frames, c, FrameCost(ps))
    ensures Exchanges(c) + Potential(ps, c) + Total(c.dead, LeftCount())
         == (|c.live| + |c.dead|) * |SetupScript(ps)|
            + Total(frames, FrameCost(ps)) + Total(c.dead, RequeuedWeight(FrameCost(ps)))
  {
    hide WorkerInv, SetupScript, FrameScript;
    ExchangesOf(ps, c.live, |SetupScript(ps)|);
    ExchangesOf(ps, c.dead, |SetupScript(ps)|);
    OneMore(|c.dead|, |c.live|, |SetupScript(ps)|);
  }

  function SelectedCount(copies: seq<FileCopy>, frame: int): nat {
    if copies == [] then 0 else (if Selected(copies[0], frame) then 1 else 0) + SelectedCount(copies[1..], frame)
  }

  lemma {:induction false} CopiesCount(copies: seq<FileCopy>, frame: int)
    ensures |InActions(copies, frame)| == |OutActions(copies, frame)| == SelectedCount(copies, frame)
  {
    hide Selected, Substitute;
    if copies != [] {
      CopiesCount(copies[1..], frame);
    }
  }

  lemma {:induction false} CostBySign(copies: seq<FileCopy>, f: int, g: int)
    requires f >= 0 <==> g >= 0
    ensures SelectedCount(copies, f) == SelectedCount(copies, g)
  {
    if copies != [] {
      CostBySign(copies[1..], f, g);
    }
  }

  /** In- and out-copies with a parameter, and the run itself. */
  function CostPerFrame(ps: Parameters): nat {
    SelectedCount(ps.inCopies, 0) + 1 + SelectedCount(ps.outCopies, 0)
  }

  lemma {:induction false} CostOfFrames(ps: Parameters, frames: seq<int>, cost: nat)
    requires forall k :: 0 <= k < |frames| ==> frames[k] >= 0
    requires cost == CostPerFrame(ps)
    ensures Total(frames, FrameCost(ps)) == |frames| * cost
  {
    hide CostPerFrame, FrameScript;
    if frames != [] {
      CostOfFrames(ps, frames[1..], cost);
      CostOfFrame(ps, frames[0]);
      OneMore(|frames[1..]|, 0, cost);
    }
  }

  lemma CostOfFrame(ps: Parameters, frame: int)
    requires frame >= 0
    ensures |FrameScript(ps, frame)| == CostPerFrame(ps)
  {
    CopiesCount(ps.inCopies, frame);
    CopiesCount(ps.outCopies, frame);
    CostBySign(ps.inCopies, frame, 0);
    CostBySign(ps.outCopies, frame, 0);
  }

  /**
   * Without deaths a run that exits normally made exactly one setup per worker
   * and one pass per frame.
   */
  lemma ExactWork(ps: Parameters, codec: Codec, frames: seq<int>, rounds: seq<Events>)
    requires Run(ps, codec, Start(frames), rounds).Finished?
    requires Run(ps, codec, Start(frames), rounds).controller.dead == []
    requires forall k :: 0 <= k < |frames| ==> frames[k] >= 0
    ensures var c := Run(ps, codec, Start(frames), rounds).controller;
      Exchanges(c) == |c.live| * (1 + SelectedCount(ps.inCopies, -1)) + |frames| * CostPerFrame(ps)
  {
    hide Inv, Run, CostPerFrame;
    StartInv(ps, frames, FrameCost(ps));
    RunKeeps(ps, codec, frames, FrameCost(ps), Start(frames), rounds);
    WorkAtExit(ps, frames, Run(ps, codec, Start(frames), rounds).controller);
  }

  lemma WorkAtExit(ps: Parameters, frames: seq<int>, c: Controller)
    requires Inv(ps, frames, FrameCost(ps), c)
    requires c.queue == [] && !AnyWorking(c.live) && c.dead == []
    requires forall k :: 0 <= k < |frames| ==> frames[k] >= 0
    ensures Exchanges(c) == |c.live| * (1 + SelectedCount(ps.inCopies, -1)) + |frames| * CostPerFrame(ps)
  {
    hide WorkersInv, Balanced, CostPerFrame, SelectedCount, FrameCost;
    WorkBalance(ps, frames, c);
    IdleLeavesNothing(c.live);
    CostOfFrames(ps, frames, CostPerFrame(ps));
    SetupCost(ps);
  }

  lemma SetupCost(ps: Parameters)
    ensures |SetupScript(ps)| == 1 + SelectedCount(ps.inCopies, -1)
  {
    CopiesCount(ps.inCopies, -1);
  }

  lemma {:induction false} IdleLeavesNothing(ws: seq<WorkerState>)
    requires !AnyWorking(ws)
    ensures Total(ws, LeftCount()) == 0
  {
    if ws != [] {
      assert forall k :: 0 <= k < |ws[1..]| ==> ws[1..][k] == ws[k + 1];
      IdleLeavesNothing(ws[1..]);
    }
  }
}
