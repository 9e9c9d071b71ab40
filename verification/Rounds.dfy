/** What one round of the main loop does: connecting, scanning, handing out. */
module Rounds {
  import opened Wrappers
  import opened Protocol
  import opened Totals
  import opened Scheduler
  import opened Guarantees

  // Pending proxy connections.

  /** A worker that stands for a proxy still awaits its welcome and has no frame. */
  lemma PendingIsFresh(ps: Parameters, w: WorkerState)
    requires WorkerInv(ps, w) && w.proxyIndex != -1
    ensures w.given == [] && w.frame == -1 && w.phase.Awaiting? && w.phase.pending == Hello
  {
    if w.given != [] {
      FirstIsHello(ps, DropLast(w.given));
      assert false;
    }
    FirstIsHello(ps, []);
    assert Actions(w.done) + Outstanding(w.phase) == Outstanding(w.phase) == Script(ps, []);
  }

  lemma {:induction false} ConnectCarries(ps: Parameters, codec: Codec, c: Controller, connects: nat -> bool, i: nat)
    requires forall j: nat :: j < i && j < ps.proxyCount ==> Carries(c.live, j)
    ensures match Connect(ps, codec, c, connects, i)
      case Running(after) =>
        c.live <= after.live && (forall j: nat :: j < ps.proxyCount ==> Carries(after.live, j))
      case _ => true
    decreases ps.proxyCount - i
  {
    hide StartWorker;
    if i < ps.proxyCount {
      if Carries(c.live, i) {
        ConnectCarries(ps, codec, c, connects, i + 1);
      } else if connects(i) {
        var next := AddWorker(ps, codec, c, i);
        assert next.live[|c.live|].proxyIndex == i by { StartedFor(ps, codec, i); }
        forall j: nat | j < i + 1 && j < ps.proxyCount ensures Carries(next.live, j) {
          if j < i {
            assert Carries(c.live, j);
            var k :| 0 <= k < |c.live| && c.live[k].proxyIndex == j;
            assert next.live[k] == c.live[k];
          }
        }
        ConnectCarries(ps, codec, next, connects, i + 1);
      }
    }
  }

  lemma StartedFor(ps: Parameters, codec: Codec, i: nat)
    ensures StartWorker(ps, codec, i).proxyIndex == i
  {
  }

  ghost predicate OnePending(c: Controller, index: nat) {
    exists k :: 0 <= k < |c.live| && PendingAt(c, index, k)
  }

  predicate PendingAt(c: Controller, index: nat, k: nat)
    requires k < |c.live|
  {
    && c.live[k].proxyIndex == index && c.live[k].frame == -1
    && c.live[k].phase.Awaiting? && c.live[k].phase.pending == Hello
    && forall j :: 0 <= j < |c.live| && j != k ==> c.live[j].proxyIndex != index
  }

  /**
   * In every run, after the connect phase of every round, each proxy has
   * exactly one pending connection; it awaits its welcome and has no frame.
   */
  lemma ProxiesPending(ps: Parameters, codec: Codec, frames: seq<int>, rounds: seq<Events>, connects: nat -> bool,
                       index: nat)
    requires index < ps.proxyCount && Run(ps, codec, Start(frames), rounds).Unfinished?
    requires Run(ps, codec, Start(frames), rounds).status.Running?
    requires var c := Run(ps, codec, Start(frames), rounds).status.controller;
      Connect(ps, codec, c, connects, 0).Running?
    ensures var c := Run(ps, codec, Start(frames), rounds).status.controller;
      OnePending(Connect(ps, codec, c, connects, 0).controller, index)
  {
    hide WorkerInv, Run, Connect, NoneLost, Balanced;
    var c := Run(ps, codec, Start(frames), rounds).status.controller;
    StartInv(ps, frames, One());
    RunKeeps(ps, codec, frames, One(), Start(frames), rounds);
    ConnectKeeps(ps, codec, frames, One(), c, connects, 0);
    ConnectCarries(ps, codec, c, connects, 0);
    var after := Connect(ps, codec, c, connects, 0).controller;
    assert Carries(after.live, index);
    var k :| 0 <= k < |after.live| && after.live[k].proxyIndex == index;
    PendingIsFresh(ps, after.live[k]);
    assert PendingAt(after, index, k);
  }

  // The backward scan.

  /** The state in which slot k is looked at, when the scan starts at slot n-1. */
  function Before(codec: Codec, c: Controller, polls: nat -> Poll, n: nat, k: nat): Status
    requires k < n
    decreases n
  {
    if n == k + 1 then Running(c)
    else match Slot(codec, c, n - 1, polls(n - 1))
      case Running(next) => Before(codec, next, polls, n - 1, k)
      case other => other
  }

  lemma KillLeavesBefore(c: Controller, k: nat)
    requires k < |c.live|
    ensures |Kill(c, k).live| == |c.live| - 1 && Kill(c, k).live[..k] == c.live[..k]
  {
  }

  lemma SlotLeavesBefore(codec: Codec, c: Controller, k: nat, e: Poll)
    requires k < |c.live| && Slot(codec, c, k, e).Running?
    ensures |Slot(codec, c, k, e).controller.live| >= k
    ensures Slot(codec, c, k, e).controller.live[..k] == c.live[..k]
  {
    hide ReceiveOn, SendOn, Kill;
    KillLeavesBefore(c, k);
    var c1 := ReadSlot(codec, c, k, e).controller;
    assert |c1.live| >= k && c1.live[..k] == c.live[..k];
    var c2 := WriteSlot(c1, k, e).controller;
    assert |c2.live| >= k && c2.live[..k] == c1.live[..k];
    if k < |c2.live| {
      KillLeavesBefore(c2, k);
    }
  }

  /**
   * Going backward keeps every slot on the worker that was polled: when slot k
   * is reached the workers up to k are the ones the scan began with, whatever
   * was killed above.
   */
  lemma {:induction false} ScanMeetsPolled(codec: Codec, c: Controller, polls: nat -> Poll, n: nat, k: nat)
    requires k < n <= |c.live| && Before(codec, c, polls, n, k).Running?
    ensures |Before(codec, c, polls, n, k).controller.live| > k
    ensures Before(codec, c, polls, n, k).controller.live[..k + 1] == c.live[..k + 1]
    decreases n
  {
    hide Slot;
    if n > k + 1 {
      SlotLeavesBefore(codec, c, n - 1, polls(n - 1));
      var next := Slot(codec, c, n - 1, polls(n - 1)).controller;
      ScanMeetsPolled(codec, next, polls, n - 1, k);
      assert next.live[..k + 1] == next.live[..n - 1][..k + 1] == c.live[..n - 1][..k + 1] == c.live[..k + 1];
    }
  }

  // Handing out.

  /** The idle workers, in list order. */
  function IdleSlots(live: seq<WorkerState>): (slots: seq<nat>)
    ensures forall j :: 0 <= j < |slots| ==> slots[j] < |live| && live[slots[j]].phase.Idle?
    ensures forall i, j :: 0 <= i < j < |slots| ==> slots[i] < slots[j]
    ensures forall k :: 0 <= k < |live| && live[k].phase.Idle? ==> k in slots
  {
    if live == [] then []
    else
      var n := |live| - 1;
      IdleSlots(live[..n]) + if live[n].phase.Idle? then [n] else []
  }

  lemma {:induction false} SameIdle(a: seq<WorkerState>, b: seq<WorkerState>)
    requires |a| == |b| && forall k :: 0 <= k < |a| ==> a[k].phase.Idle? == b[k].phase.Idle?
    ensures IdleSlots(a) == IdleSlots(b)
  {
    if a != [] {
      SameIdle(a[..|a| - 1], b[..|b| - 1]);
    }
  }

  lemma {:induction false} NoIdleSlots(live: seq<WorkerState>)
    requires forall k :: 0 <= k < |live| ==> live[k].phase.Awaiting?
    ensures IdleSlots(live) == []
  {
    if live != [] {
      NoIdleSlots(live[..|live| - 1]);
    }
  }

  lemma {:induction false} FirstIdleLeaves(live: seq<WorkerState>, k: nat, busy: WorkerState)
    requires k < |live| && live[k].phase.Idle? && (forall j :: 0 <= j < k ==> live[j].phase.Awaiting?)
    requires busy.phase.Awaiting?
    ensures IdleSlots(live) == [k] + IdleSlots(live[k := busy])
  {
    var n := |live| - 1;
    var after := live[k := busy];
    if k == n {
      assert live[..n] == after[..n];
      NoIdleSlots(live[..n]);
    } else {
      FirstIdleLeaves(live[..n], k, busy);
      assert after[..n] == live[..n][k := busy];
    }
  }

  /** The first frames go to the idle workers in order, one each. */
  ghost predicate HandedOut(c: Controller, after: Controller, idle: seq<nat>)
    requires forall j :: 0 <= j < |idle| ==> idle[j] < |c.live|
  {
    var n := Min(|c.queue|, |idle|);
    && after.queue == c.queue[n..] && after.dead == c.dead && |after.live| == |c.live|
    && (forall j :: 0 <= j < n ==> Gave(c.live[idle[j]], after.live[idle[j]], c.queue[j]))
    && (forall k :: 0 <= k < |c.live| && (forall j :: 0 <= j < n ==> idle[j] != k) ==> after.live[k] == c.live[k])
  }

  predicate Gave(w: WorkerState, next: WorkerState, frame: int) {
    next.given == w.given + [frame] && next.frame == frame && next.phase.Awaiting?
  }

  lemma RunFrameGives(ps: Parameters, codec: Codec, w: WorkerState, frame: int, disk: Disk)
    requires w.phase.Idle?
    ensures match RunFrame(ps, codec, w, frame, disk)
      case Ok(next) => next.given == w.given + [frame] && next.frame == frame && next.phase.Awaiting?
      case SocketFailure(_) => false
      case Exited(reason) => reason == UnreadableFile
  {
    hide FrameScript;
  }

  /**
   * Handing out ends with no frame queued or no worker idle. The frames at the
   * front of the queue went to the idle workers, in order and one each, and
   * nothing else changed. A busy worker is never given a frame.
   */
  lemma {:induction false} HandOutServes(ps: Parameters, codec: Codec, c: Controller, disks: nat -> Disk)
    ensures match HandOut(ps, codec, c, disks)
      case Running(after) => HandedOut(c, after, IdleSlots(c.live))
          && (after.queue == [] || FirstIdle(after.live).None?)
      case Quit(reason) => reason == UnreadableFile
      case _ => false
    decreases |c.queue|
  {
    hide RunFrame;
    var first := FirstIdle(c.live);
    if first.None? {
      NoIdleSlots(c.live);
    } else if c.queue != [] {
      var k := first.value;
      var r := RunFrame(ps, codec, c.live[k], c.queue[0], disks(|c.queue|));
      RunFrameGives(ps, codec, c.live[k], c.queue[0], disks(|c.queue|));
      if r.Ok? {
        var next := c.(queue := c.queue[1..], live := c.live[k := r.value]);
        HandOutServes(ps, codec, next, disks);
        FirstIdleLeaves(c.live, k, r.value);
        if HandOut(ps, codec, next, disks).Running? {
          OneMoreServed(c, IdleSlots(c.live), r.value, HandOut(ps, codec, next, disks).controller);
        }
      }
    }
  }

  lemma OneMoreServed(c: Controller, idle: seq<nat>, w: WorkerState, after: Controller)
    requires c.queue != [] && idle != []
    requires forall j :: 0 <= j < |idle| ==> idle[j] < |c.live|
    requires forall i, j :: 0 <= i < j < |idle| ==> idle[i] < idle[j]
    requires Gave(c.live[idle[0]], w, c.queue[0])
    requires HandedOut(c.(queue := c.queue[1..], live := c.live[idle[0] := w]), after, idle[1..])
    ensures HandedOut(c, after, idle)
  {
    hide Gave;
    var n := Min(|c.queue|, |idle|);
    var rest := idle[1..];
    assert forall j :: 0 <= j < n - 1 ==> rest[j] == idle[j + 1] != idle[0];
    assert after.live[idle[0]] == w;
    forall j | 0 <= j < n ensures Gave(c.live[idle[j]], after.live[idle[j]], c.queue[j]) {
      if j > 0 {
        assert idle[j] == rest[j - 1] && c.queue[1..][j - 1] == c.queue[j];
      }
    }
    forall k | 0 <= k < |c.live| && (forall j :: 0 <= j < n ==> idle[j] != k) ensures after.live[k] == c.live[k] {
      assert idle[0] != k;
    }
  }

  // The sentinel -1.

  /**
   * Killing a worker keeps every frame with its owner, unless the worker has
   * been given a frame numbered -1.
   */
  lemma KillKeepsOwners(ps: Parameters, c: Controller, k: nat)
    requires k < |c.live| && WorkersInv(ps, c)
    ensures (forall f :: Owners(Kill(c, k), f) == Owners(c, f)) <==> !(c.live[k].given != [] && c.live[k].frame == -1)
  {
    hide Outstanding, Script;
    var w := c.live[k];
    forall f ensures Owners(Kill(c, k), f) + Holds(f)(w)
        == Owners(c, f) + (if w.frame == -1 then 0 else Is(f)(w.frame)) {
      TotalAt(c.live, k, Holds(f));
      TotalPush(c.queue, w.frame, Is(f));
    }
    assert w.frame == -1 && w.given != [] ==> Holds(-1)(w) == 1;
  }
}
