/** Connections to proxies that nobody has answered yet, and what the last round of a run makes of them. */
module Pendings {
  import opened Protocol
  import opened Scheduler
  import opened Walks
  import opened Guarantees
  import opened Rounds
  import opened Totals

  // There is one for every proxy.

  function Below(n: nat): WorkerState -> nat {
    (w: WorkerState) => if 0 <= w.proxyIndex < n then 1 else 0
  }

  /** No answer has come in. */
  function Fresh(): WorkerState -> nat {
    (w: WorkerState) => if w.done == [] then 1 else 0
  }

  /** At most one has. */
  function Young(): WorkerState -> nat {
    (w: WorkerState) => if |w.done| <= 1 then 1 else 0
  }

  lemma {:induction false} OnePerProxy(live: seq<WorkerState>, n: nat)
    requires forall i: nat :: i < n ==> Carries(live, i)
    ensures Total(live, Below(n)) >= n
  {
    if n > 0 {
      OnePerProxy(live, n - 1);
      assert Carries(live, n - 1);
      var k: nat :| k < |live| && live[k].proxyIndex == n - 1;
      TotalAt(live, k, Below(n));
      TotalAt(live, k, Below(n - 1));
      TotalMonotone(live[..k] + live[k + 1..], Below(n - 1), Below(n));
    }
  }

  lemma FreshPerProxy(ps: Parameters, live: seq<WorkerState>)
    requires forall i: nat :: i < ps.proxyCount ==> Carries(live, i)
    requires forall k :: 0 <= k < |live| ==> WorkerInv(ps, live[k])
    ensures Total(live, Fresh()) >= ps.proxyCount
  {
    hide OnScript;
    OnePerProxy(live, ps.proxyCount);
    TotalMonotone(live, Below(ps.proxyCount), Fresh());
  }

  // A slot answers at most one request, so who was fresh is young after a scan, or gone.

  function Kept(c: Controller, n: nat): nat
    requires n <= |c.live|
  {
    Total(c.live[..n], Fresh()) + Total(c.live[n..], Young()) + |c.dead|
  }

  lemma OneMoreSlot(live: seq<WorkerState>, k: nat, rest: seq<WorkerState>)
    requires k < |live| && rest == live[k + 1..]
    ensures Total(live[..k + 1], Fresh()) == Total(live[..k], Fresh()) + Fresh()(live[k])
    ensures Total(live[k..], Young()) == Young()(live[k]) + Total(rest, Young())
  {
    assert live[..k + 1] == live[..k] + [live[k]];
    TotalPush(live[..k], live[k], Fresh());
    assert live[k..][1..] == rest;
  }

  lemma UpdateYoung(live: seq<WorkerState>, k: nat, w: WorkerState)
    requires k < |live|
    ensures live[k := w][..k] == live[..k]
    ensures Total(live[k := w][k..], Young()) == Young()(w) + Total(live[k + 1..], Young())
  {
    assert live[k := w][k..][1..] == live[k + 1..];
  }

  lemma KillKept(c: Controller, k: nat)
    requires k < |c.live|
    ensures |Kill(c, k).live| >= k && Kept(Kill(c, k), k) >= Kept(c, k)
    ensures Kept(Kill(c, k), k) >= Total(c.live[..k], Fresh()) + Total(c.live[k + 1..], Young()) + |c.dead| + 1
  {
    OneMoreSlot(c.live, k, c.live[k + 1..]);
    assert Kill(c, k).live[..k] == c.live[..k] && Kill(c, k).live[k..] == c.live[k + 1..];
  }

  lemma ReadKept(ps: Parameters, codec: Codec, c: Controller, k: nat, e: Poll)
    requires k < |c.live| && WorkerInv(ps, c.live[k]) && ReadSlot(codec, c, k, e).Running?
    ensures var after := ReadSlot(codec, c, k, e).controller;
      |after.live| >= k && Kept(after, k) >= Kept(c, k + 1)
  {
    hide WorkerInv, ReceiveOn, Kill;
    OneMoreSlot(c.live, k, c.live[k + 1..]);
    if e.readable {
      ReceiveKeeps(ps, codec, c.live[k], e.recv, e.disk);
      KillKept(c, k);
      if ReceiveOn(codec, c.live[k], e.recv, e.disk).Ok? {
        UpdateYoung(c.live, k, ReceiveOn(codec, c.live[k], e.recv, e.disk).value);
      }
    }
  }

  lemma WriteKept(c: Controller, k: nat, e: Poll)
    requires k <= |c.live| && WriteSlot(c, k, e).Running?
    ensures var after := WriteSlot(c, k, e).controller; |after.live| == |c.live| && Kept(after, k) == Kept(c, k)
  {
    if e.writable {
      var w := SendOn(c.live[k], e.send).value;
      OneMoreSlot(c.live, k, c.live[k + 1..]);
      UpdateYoung(c.live, k, w);
    }
  }

  lemma SlotKept(ps: Parameters, codec: Codec, c: Controller, k: nat, e: Poll)
    requires k < |c.live| && WorkerInv(ps, c.live[k]) && Slot(codec, c, k, e).Running?
    ensures var after := Slot(codec, c, k, e).controller;
      |after.live| >= k && Kept(after, k) >= Kept(c, k + 1)
  {
    hide ReadSlot, WriteSlot, WorkerInv, Kill, Kept;
    ReadKept(ps, codec, c, k, e);
    var c1 := ReadSlot(codec, c, k, e).controller;
    WriteKept(c1, k, e);
    if e.hungUp {
      KillKept(WriteSlot(c1, k, e).controller, k);
    }
  }

  lemma {:induction false} ScanKept(ps: Parameters, codec: Codec, c: Controller, polls: nat -> Poll, n: nat)
    requires n <= |c.live| && Scan(codec, c, polls, n).Running?
    requires forall k :: 0 <= k < n ==> WorkerInv(ps, c.live[k])
    ensures var after := Scan(codec, c, polls, n).controller;
      Total(after.live, Young()) + |after.dead| >= Kept(c, n)
    decreases n
  {
    hide Slot, WorkerInv;
    if n == 0 {
      assert c.live[0..] == c.live && c.live[..0] == [];
    } else {
      SlotKept(ps, codec, c, n - 1, polls(n - 1));
      SlotLeavesBefore(codec, c, n - 1, polls(n - 1));
      var next := Slot(codec, c, n - 1, polls(n - 1)).controller;
      assert forall k :: 0 <= k < n - 1 ==> next.live[k] == next.live[..n - 1][k] == c.live[..n - 1][k] == c.live[k];
      ScanKept(ps, codec, next, polls, n - 1);
    }
  }

  // The last round.

  predicate Over(c: Controller) {
    c.queue == [] && !AnyWorking(c.live)
  }

  lemma SomebodyIsGiven(c: Controller, after: Controller)
    requires HandedOut(c, after, IdleSlots(c.live)) && c.queue != [] && IdleSlots(c.live) != []
    ensures AnyWorking(after.live)
  {
    var k := IdleSlots(c.live)[0];
    assert Gave(c.live[k], after.live[k], c.queue[0]);
  }

  /** Nothing is handed out when all is over afterwards. */
  lemma NothingHandedOut(ps: Parameters, codec: Codec, c: Controller, disks: nat -> Disk)
    requires HandOut(ps, codec, c, disks).Running? && Over(HandOut(ps, codec, c, disks).controller)
    ensures HandOut(ps, codec, c, disks).controller.live == c.live
    ensures HandOut(ps, codec, c, disks).controller.dead == c.dead
  {
    hide HandOut, RunFrame;
    HandOutServes(ps, codec, c, disks);
    var after := HandOut(ps, codec, c, disks).controller;
    if c.queue != [] && IdleSlots(c.live) != [] {
      SomebodyIsGiven(c, after);
    }
  }

  /** An idle worker that has given but one answer has been welcomed and has had nothing to set up. */
  lemma YoungIsWelcomed(ps: Parameters, w: WorkerState)
    requires WorkerInv(ps, w) && w.phase.Idle? && |w.done| <= 1
    ensures w.given == [] && SetupScript(ps) == [Hello] && Actions(w.done) == [Hello]
  {
    hide SetupScript, FrameScript;
    ScriptLength(ps, w.given);
    assert Actions(w.done) + [] == Actions(w.done) == Script(ps, w.given);
    if w.given != [] {
      assert Script(ps, w.given) == Script(ps, DropLast(w.given)) + FrameScript(ps, w.given[|w.given| - 1]);
      ScriptLength(ps, DropLast(w.given));
      assert false;
    }
    StartsWithHello(ps);
  }

  lemma StartsWithHello(ps: Parameters)
    ensures SetupScript(ps)[0] == Hello
  {
  }

  lemma {:induction false} SomeYoung(live: seq<WorkerState>) returns (k: nat)
    requires Total(live, Young()) > 0
    ensures k < |live| && |live[k].done| <= 1
  {
    if |live[0].done| <= 1 {
      k := 0;
    } else {
      k := SomeYoung(live[1..]);
      k := k + 1;
    }
  }

  lemma {:induction false} ConnectBuriesNobody(ps: Parameters, codec: Codec, c: Controller, connects: nat -> bool,
      i: nat)
    ensures Connect(ps, codec, c, connects, i).Running? ==> Connect(ps, codec, c, connects, i).controller.dead == c.dead
    decreases ps.proxyCount - i
  {
    hide StartWorker;
    if i < ps.proxyCount {
      ConnectBuriesNobody(ps, codec, if Carries(c.live, i) then c else AddWorker(ps, codec, c, i), connects, i + 1);
    }
  }

  /** For every proxy somebody was lost in this round, or is young after it. */
  lemma RoundKept(ps: Parameters, codec: Codec, frames: seq<int>, c: Controller, e: Events)
    requires Inv(ps, frames, One(), c) && Round(ps, codec, c, e).Running? && Over(Round(ps, codec, c, e).controller)
    ensures var next := Round(ps, codec, c, e).controller;
      |next.dead| + Total(next.live, Young()) >= |c.dead| + ps.proxyCount
  {
    hide Connect, Scan, HandOut, NoneLost, Balanced, WorkerInv, StartWorker, Over;
    ConnectKeeps(ps, codec, frames, One(), c, e.connects, 0);
    ConnectCarries(ps, codec, c, e.connects, 0);
    ConnectBuriesNobody(ps, codec, c, e.connects, 0);
    var c1 := Connect(ps, codec, c, e.connects, 0).controller;
    FreshPerProxy(ps, c1.live);
    ScanKept(ps, codec, c1, e.polls, |c1.live|);
    assert c1.live[..|c1.live|] == c1.live && c1.live[|c1.live|..] == [];
    var c2 := Scan(codec, c1, e.polls, |c1.live|).controller;
    TotalPush(c2.live, StartWorker(ps, codec, -1), Young());
    NothingHandedOut(ps, codec, if e.accepts then AddWorker(ps, codec, c2, -1) else c2, e.disks);
  }

  /**
   * Before the main loop exits every proxy has a pending connection, and in
   * the last round each of these is lost or has just been welcomed and had
   * nothing to set up. With files to set up at least one connection is lost
   * for every proxy.
   */
  lemma LastRound(ps: Parameters, codec: Codec, frames: seq<int>, c: Controller, e: Events)
    requires Reached(ps, codec, frames, c) && Round(ps, codec, c, e).Running?
    requires Over(Round(ps, codec, c, e).controller)
    ensures var next := Round(ps, codec, c, e).controller;
      && |next.dead| - |c.dead| + Total(next.live, Young()) >= ps.proxyCount
      && (forall k :: 0 <= k < |next.live| && |next.live[k].done| <= 1 ==>
            next.live[k].given == [] && Actions(next.live[k].done) == [Hello] && SetupScript(ps) == [Hello])
      && (SetupScript(ps) != [Hello] ==> |next.dead| - |c.dead| >= ps.proxyCount)
  {
    hide Round, Reached, WorkerInv, SetupScript, NoneLost, Balanced;
    ReachedInv(ps, codec, frames, One(), c);
    RoundKept(ps, codec, frames, c, e);
    RoundKeeps(ps, codec, frames, One(), c, e);
    var next := Round(ps, codec, c, e).controller;
    forall k | 0 <= k < |next.live| && |next.live[k].done| <= 1
      ensures next.live[k].given == [] && Actions(next.live[k].done) == [Hello] && SetupScript(ps) == [Hello]
    {
      YoungIsWelcomed(ps, next.live[k]);
    }
    if Total(next.live, Young()) > 0 {
      var k := SomeYoung(next.live);
    }
  }
}
