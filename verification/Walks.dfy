/** The event loop in its smallest steps, so that every state within a round is one to speak about. */
module Walks {
  import opened Wrappers
  import opened Protocol
  import opened Scheduler

  /** What may happen to the queue and the list of workers. */
  datatype Move = Connects(index: nat) | Reads(k: nat, e: Poll) | Writes(k: nat, e: Poll) | Hangs(k: nat, e: Poll)
    | Accepts | Assigns(disk: Disk)

  function Apply(ps: Parameters, codec: Codec, c: Controller, m: Move): Status {
    match m
    case Connects(i) =>
      Running(if i < ps.proxyCount && !Carries(c.live, i) then AddWorker(ps, codec, c, i) else c)
    case Reads(k, e) => ReadSlot(codec, c, k, e)
    case Writes(k, e) => WriteSlot(c, k, e)
    case Hangs(k, e) => HangSlot(c, k, e)
    case Accepts => Running(AddWorker(ps, codec, c, -1))
    case Assigns(disk) =>
      if c.queue == [] || FirstIdle(c.live).None? then Running(c)
      else
        var k := FirstIdle(c.live).value;
        match RunFrame(ps, codec, c.live[k], c.queue[0], disk)
        case Ok(w) => Running(c.(queue := c.queue[1..], live := c.live[k := w]))
        case SocketFailure(_) => Returned
        case Exited(reason) => Quit(reason)
  }

  function Walk(ps: Parameters, codec: Codec, c: Controller, moves: seq<Move>): Status
    decreases |moves|
  {
    if moves == [] then Running(c)
    else match Apply(ps, codec, c, moves[0])
      case Running(next) => Walk(ps, codec, next, moves[1..])
      case other => other
  }

  /** The states a controller with these frames can be in, at any point of any round. */
  ghost predicate Reached(ps: Parameters, codec: Codec, frames: seq<int>, c: Controller) {
    exists moves :: Walk(ps, codec, Start(frames), moves) == Running(c)
  }

  lemma MoveKeeps(ps: Parameters, codec: Codec, frames: seq<int>, weight: int -> nat, c: Controller, m: Move)
    requires Inv(ps, frames, weight, c)
    ensures Apply(ps, codec, c, m).Running? ==> Inv(ps, frames, weight, Apply(ps, codec, c, m).controller)
  {
    hide Inv, AddWorker, ReadSlot, WriteSlot, Kill, RunFrame;
    match m
    case Connects(i) =>
      if i < ps.proxyCount && !Carries(c.live, i) {
        AddKeeps(ps, codec, frames, weight, c, i);
      }
    case Reads(k, e) => ReadKeeps(ps, codec, frames, weight, c, k, e);
    case Writes(k, e) => WriteKeeps(ps, frames, weight, c, k, e);
    case Hangs(k, e) =>
      if k < |c.live| {
        KillKeeps(ps, frames, weight, c, k);
      }
    case Accepts => AddKeeps(ps, codec, frames, weight, c, -1);
    case Assigns(disk) =>
      if c.queue != [] && FirstIdle(c.live).Some? {
        var k := FirstIdle(c.live).value;
        if RunFrame(ps, codec, c.live[k], c.queue[0], disk).Ok? {
          AssignKeeps(ps, codec, frames, weight, c, k, disk);
        }
      }
  }

  lemma {:induction false} WalkKeeps(ps: Parameters, codec: Codec, frames: seq<int>, weight: int -> nat, c: Controller,
                                     moves: seq<Move>)
    requires Inv(ps, frames, weight, c)
    ensures Walk(ps, codec, c, moves).Running? ==> Inv(ps, frames, weight, Walk(ps, codec, c, moves).controller)
    decreases |moves|
  {
    hide Inv, Apply;
    if moves != [] {
      MoveKeeps(ps, codec, frames, weight, c, moves[0]);
      if Apply(ps, codec, c, moves[0]).Running? {
        WalkKeeps(ps, codec, frames, weight, Apply(ps, codec, c, moves[0]).controller, moves[1..]);
      }
    }
  }

  /** No frame is lost or counted twice in any state that can be reached. */
  lemma ReachedInv(ps: Parameters, codec: Codec, frames: seq<int>, weight: int -> nat, c: Controller)
    requires Reached(ps, codec, frames, c)
    ensures Inv(ps, frames, weight, c)
  {
    hide Inv, Walk;
    StartInv(ps, frames, weight);
    var moves :| Walk(ps, codec, Start(frames), moves) == Running(c);
    WalkKeeps(ps, codec, frames, weight, Start(frames), moves);
  }

  // The rounds of the main loop are such walks.

  lemma {:induction false} WalkOn(ps: Parameters, codec: Codec, c: Controller, a: seq<Move>, b: seq<Move>)
    requires Walk(ps, codec, c, a).Running?
    ensures Walk(ps, codec, c, a + b) == Walk(ps, codec, Walk(ps, codec, c, a).controller, b)
    decreases |a|
  {
    hide Apply;
    if a == [] {
      assert a + b == b;
    } else {
      assert (a + b)[1..] == a[1..] + b;
      WalkOn(ps, codec, Apply(ps, codec, c, a[0]).controller, a[1..], b);
    }
  }

  lemma ReachedOn(ps: Parameters, codec: Codec, frames: seq<int>, c: Controller, m: Move)
    requires Reached(ps, codec, frames, c) && Apply(ps, codec, c, m).Running?
    ensures Reached(ps, codec, frames, Apply(ps, codec, c, m).controller)
  {
    hide Apply;
    var moves :| Walk(ps, codec, Start(frames), moves) == Running(c);
    WalkOn(ps, codec, Start(frames), moves, [m]);
    assert [m][1..] == [];
    assert Walk(ps, codec, Start(frames), moves + [m]) == Apply(ps, codec, c, m);
  }

  lemma StartReached(ps: Parameters, codec: Codec, frames: seq<int>)
    ensures Reached(ps, codec, frames, Start(frames))
  {
    assert Walk(ps, codec, Start(frames), []) == Running(Start(frames));
  }

  lemma {:induction false} ConnectReached(ps: Parameters, codec: Codec, frames: seq<int>, c: Controller,
                                          connects: nat -> bool, i: nat)
    requires Reached(ps, codec, frames, c) && Connect(ps, codec, c, connects, i).Running?
    ensures Reached(ps, codec, frames, Connect(ps, codec, c, connects, i).controller)
    decreases ps.proxyCount - i
  {
    hide Reached, AddWorker;
    if i < ps.proxyCount {
      ReachedOn(ps, codec, frames, c, Connects(i));
      ConnectReached(ps, codec, frames, if Carries(c.live, i) then c else AddWorker(ps, codec, c, i), connects, i + 1);
    }
  }

  lemma SlotReached(ps: Parameters, codec: Codec, frames: seq<int>, c: Controller, k: nat, e: Poll)
    requires Reached(ps, codec, frames, c) && Slot(codec, c, k, e).Running?
    ensures Reached(ps, codec, frames, Slot(codec, c, k, e).controller)
  {
    hide Reached, ReadSlot, WriteSlot, HangSlot;
    ReachedOn(ps, codec, frames, c, Reads(k, e));
    var c1 := ReadSlot(codec, c, k, e).controller;
    ReachedOn(ps, codec, frames, c1, Writes(k, e));
    ReachedOn(ps, codec, frames, WriteSlot(c1, k, e).controller, Hangs(k, e));
  }

  lemma {:induction false} ScanReached(ps: Parameters, codec: Codec, frames: seq<int>, c: Controller,
      polls: nat -> Poll, n: nat)
    requires Reached(ps, codec, frames, c) && Scan(codec, c, polls, n).Running?
    ensures Reached(ps, codec, frames, Scan(codec, c, polls, n).controller)
    decreases n
  {
    hide Reached, Slot;
    if n > 0 {
      SlotReached(ps, codec, frames, c, n - 1, polls(n - 1));
      ScanReached(ps, codec, frames, Slot(codec, c, n - 1, polls(n - 1)).controller, polls, n - 1);
    }
  }

  lemma {:induction false} HandOutReached(ps: Parameters, codec: Codec, frames: seq<int>, c: Controller,
                                          disks: nat -> Disk)
    requires Reached(ps, codec, frames, c) && HandOut(ps, codec, c, disks).Running?
    ensures Reached(ps, codec, frames, HandOut(ps, codec, c, disks).controller)
    decreases |c.queue|
  {
    hide Reached, RunFrame;
    if c.queue != [] && FirstIdle(c.live).Some? {
      ReachedOn(ps, codec, frames, c, Assigns(disks(|c.queue|)));
      HandOutReached(ps, codec, frames, Apply(ps, codec, c, Assigns(disks(|c.queue|))).controller, disks);
    }
  }

  lemma RoundReached(ps: Parameters, codec: Codec, frames: seq<int>, c: Controller, e: Events)
    requires Reached(ps, codec, frames, c) && Round(ps, codec, c, e).Running?
    ensures Reached(ps, codec, frames, Round(ps, codec, c, e).controller)
  {
    hide Reached, Connect, Scan, HandOut, AddWorker;
    ConnectReached(ps, codec, frames, c, e.connects, 0);
    var c1 := Connect(ps, codec, c, e.connects, 0).controller;
    ScanReached(ps, codec, frames, c1, e.polls, |c1.live|);
    var c2 := Scan(codec, c1, e.polls, |c1.live|).controller;
    ReachedOn(ps, codec, frames, c2, Accepts);
    HandOutReached(ps, codec, frames, if e.accepts then AddWorker(ps, codec, c2, -1) else c2, e.disks);
  }

  /** Where a run gets to. */
  function EndOf(r: Result): Option<Controller> {
    match r
    case Finished(c) => Some(c)
    case Unfinished(Running(c)) => Some(c)
    case Unfinished(_) => None
  }

  lemma {:induction false} RunReached(ps: Parameters, codec: Codec, frames: seq<int>, c: Controller,
      rounds: seq<Events>)
    requires Reached(ps, codec, frames, c) && EndOf(Run(ps, codec, c, rounds)).Some?
    ensures Reached(ps, codec, frames, EndOf(Run(ps, codec, c, rounds)).value)
    decreases |rounds|
  {
    hide Reached, Round;
    if rounds != [] && !(c.queue == [] && !AnyWorking(c.live)) {
      RoundReached(ps, codec, frames, c, rounds[0]);
      RunReached(ps, codec, frames, Round(ps, codec, c, rounds[0]).controller, rounds[1..]);
    }
  }
}
