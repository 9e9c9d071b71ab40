/** The main loop of src/controller.cpp over a list of workers, in place. */
module Control {
  import opened Wrappers
  import opened Framing
  import opened Outgoing
  import opened Protocol
  import opened Remote
  import opened Scheduler
  import Guarantees

  /** How a part of the loop ends. OutOfRange stands for an index past the end of the list. */
  datatype Code = Continue | ReturnError | ExitWith(reason: Exit) | OutOfRange

  /** Two workers share nothing. */
  ghost predicate Apart(a: RemoteWorker, b: RemoteWorker)
    reads a.outgoing, a.incoming, b.outgoing, b.incoming
  {
    && a != b && a.outgoing != b.outgoing && a.incoming != b.incoming
    && a.outgoing.buffer != b.outgoing.buffer && a.outgoing.buffer != b.incoming.buffer
    && a.incoming.buffer != b.outgoing.buffer && a.incoming.buffer != b.incoming.buffer
  }

  class Controller {
    const parameters: Parameters
    const codec: Codec
    var frames: seq<int>
    var workers: seq<RemoteWorker>
    /** The same on values, with the connections that are gone. */
    ghost var model: Scheduler.Controller
    ghost var Repr: set<object>

    /** Worker w is in the state the model has for it. */
    ghost predicate Tracks(w: RemoteWorker, view: WorkerState)
      reads w.Repr()
    {
      && w.Valid() && w.AtRest() && w.View() == view
      && w.parameters == parameters && w.codec == codec
    }

    ghost predicate Valid()
      reads this, Repr
    {
      && this in Repr
      && (forall w :: w in workers ==> w in Repr && w.outgoing in Repr && w.incoming in Repr)
      && (forall w :: w in workers ==> w.Repr() <= Repr)
      && (forall i, j :: 0 <= i < j < |workers| ==> Apart(workers[i], workers[j]))
      && |model.live| == |workers| && (forall k :: 0 <= k < |workers| ==> Tracks(workers[k], model.live[k]))
      && model.queue == frames
    }

    /** The code and the new state are the ones the value-level loop has. */
    ghost predicate Agrees(code: Code, status: Scheduler.Status)
      reads this, Repr
    {
      match code
      case Continue => Valid() && status == Running(model)
      case ReturnError => status == Returned
      case ExitWith(reason) => status == Quit(reason)
      case OutOfRange => status == Undefined
    }

    constructor (parameters: Parameters, codec: Codec, frames: seq<int>)
      ensures Valid() && fresh(Repr) && model == Scheduler.Start(frames)
      ensures this.parameters == parameters && this.codec == codec
    {
      this.parameters, this.codec, this.frames := parameters, codec, frames;
      workers := [];
      model := Scheduler.Start(frames);
      Repr := {this};
    }

    // One worker at a time.

    method IdleOne(w: RemoteWorker, ghost view: WorkerState) returns (idle: bool)
      requires Tracks(w, view)
      ensures idle <==> view.phase.Idle?
    {
      idle := w.IsIdle();
    }

    method FrameOne(w: RemoteWorker, ghost view: WorkerState) returns (frame: int)
      requires Tracks(w, view)
      ensures frame == view.frame
    {
      frame := w.frame;
    }

    method ProxyIndexOne(w: RemoteWorker, ghost view: WorkerState) returns (index: int)
      requires Tracks(w, view)
      ensures index == view.proxyIndex
    {
      index := w.proxyIndex;
    }

    method StartOne(proxyIndex: int) returns (w: RemoteWorker)
      ensures fresh(w.Repr()) && Tracks(w, StartWorker(parameters, codec, proxyIndex))
    {
      w := new RemoteWorker(parameters, codec);
      w.SetProxyIndex(proxyIndex);
      w.Start();
    }

    method ReceiveOne(w: RemoteWorker, ghost view: WorkerState, io: RecvIO, disk: Disk)
      returns (r: Outcome<()>, ghost next: WorkerState)
      requires Tracks(w, view)
      modifies w, w.outgoing, w.incoming, w.incoming.buffer
      ensures !r.Exited? ==> w.SameObjects() && Tracks(w, next)
      ensures match ReceiveOn(codec, view, io, disk)
        case Ok(v) => r == Ok(()) && next == v
        case SocketFailure(connReset) => r == SocketFailure(connReset) && next == view
        case Exited(reason) => r == Exited(reason)
    {
      hide ReceiveOn;
      r := w.Receive(io, disk);
      next := if r.Ok? then w.View() else view;
    }

    method SendOne(w: RemoteWorker, ghost view: WorkerState, io: SendIO)
        returns (success: bool, ghost next: WorkerState)
      requires Tracks(w, view)
      modifies w.outgoing
      ensures w.SameObjects()
      ensures match SendOn(view, io)
        case Ok(v) => success && next == v && Tracks(w, next)
        case _ => !success
    {
      var out;
      success, out := w.Send(io);
      next := w.View();
    }

    method RunOne(w: RemoteWorker, ghost view: WorkerState, frame: int, disk: Disk)
      returns (exit: Option<Exit>, ghost next: WorkerState)
      requires Tracks(w, view)
      modifies w, w.outgoing, w.incoming
      ensures exit == None ==> w.SameObjects()
      ensures match RunFrame(parameters, codec, view, frame, disk)
        case Ok(v) => exit == None && next == v && Tracks(w, next)
        case Exited(reason) => exit == Some(reason)
        case SocketFailure(_) => false
    {
      hide RunFrame;
      exit := w.RunFrame(frame, disk);
      next := if exit == None then w.View() else view;
    }

    method GetIdleWorker() returns (index: Option<nat>)
      requires Valid()
      ensures index == FirstIdle(model.live)
    {
      hide Tracks;
      for k := 0 to |workers|
        invariant forall j :: 0 <= j < k ==> model.live[j].phase.Awaiting?
      {
        assert Tracks(workers[k], model.live[k]);
        var idle := IdleOne(workers[k], model.live[k]);
        if idle {
          return Some(k);
        }
      }
      index := None;
    }

    method AnyWorkerWorking() returns (working: bool)
      requires Valid()
      ensures working == AnyWorking(model.live)
    {
      hide Tracks;
      for k := 0 to |workers|
        invariant forall j :: 0 <= j < k ==> model.live[j].phase.Idle?
      {
        assert Tracks(workers[k], model.live[k]);
        var idle := IdleOne(workers[k], model.live[k]);
        if !idle {
          return true;
        }
      }
      working := false;
    }

    method PushFront(frame: int)
      requires Valid()
      modifies this
      ensures Valid() && Repr == old(Repr) && workers == old(workers)
      ensures model == old(model).(queue := [frame] + old(model).queue)
    {
      hide Tracks;
      frames := [frame] + frames;
      model := model.(queue := [frame] + model.queue);
      assert forall k :: 0 <= k < |workers| ==> old(Tracks(workers[k], model.live[k]));
    }

    method RemoveWorker(index: nat)
      requires Valid() && index < |workers|
      modifies this
      ensures Valid() && Repr == old(Repr)
      ensures model == Scheduler.Controller(old(model).queue, Erase(old(model).live, index),
                                            old(model).dead + [old(model).live[index]])
    {
      hide Tracks, Apart;
      ghost var was, live := workers, model.live;
      model := Scheduler.Controller(model.queue, Erase(model.live, index), model.dead + [model.live[index]]);
      workers := workers[..index] + workers[index + 1..];
      forall j | 0 <= j < |workers| ensures Tracks(workers[j], model.live[j]) {
        var i := if j < index then j else j + 1;
        assert workers[j] == was[i] && model.live[j] == live[i] && old(Tracks(was[i], live[i]));
      }
      forall i, j | 0 <= i < j < |workers| ensures Apart(workers[i], workers[j]) {
        var a, b := if i < index then i else i + 1, if j < index then j else j + 1;
        assert workers[i] == was[a] && workers[j] == was[b] && old(Apart(was[a], was[b]));
      }
    }

    /** kill_worker: its frame goes back to the front of the queue. */
    method KillWorker(index: nat)
      requires Valid() && index < |workers|
      modifies this
      ensures Valid() && Repr == old(Repr) && model == Kill(old(model), index)
    {
      hide Tracks, Apart;
      assert Tracks(workers[index], model.live[index]);
      var frame := FrameOne(workers[index], model.live[index]);
      if frame != -1 {
        PushFront(frame);
      }
      RemoveWorker(index);
    }

    /** A new connection, for a proxy or, with -1, from a worker. */
    method AddConnection(proxyIndex: int)
      requires Valid()
      modifies this
      ensures Valid() && fresh(Repr - old(Repr)) && frames == old(frames)
      ensures model == AddWorker(parameters, codec, old(model), proxyIndex)
    {
      hide StartWorker, Tracks, Apart;
      var w := StartOne(proxyIndex);
      ghost var was, live := workers, model.live;
      forall j | 0 <= j < |was| ensures Tracks(was[j], live[j]) && Apart(was[j], w) {
        assert old(Tracks(was[j], live[j]));
        NewIsApart(was[j], w);
      }
      workers := workers + [w];
      model := AddWorker(parameters, codec, model, proxyIndex);
      Repr := Repr + w.Repr();
    }

    twostate lemma NewIsApart(a: RemoteWorker, new w: RemoteWorker)
      requires old(a.Repr()) == a.Repr() && fresh(w.Repr())
      ensures Apart(a, w)
    {
    }

    /** An event on worker k leaves the others as they are, and apart. */
    twostate lemma OneChanged(k: nat)
      requires old(Valid()) && unchanged(this) && k < |workers| && workers[k].SameObjects()
      requires forall o :: o in old(Repr) && o !in old(workers[k].Repr()) ==> unchanged(o)
      ensures forall j :: 0 <= j < |workers| && j != k ==> Tracks(workers[j], model.live[j])
      ensures forall i, j :: 0 <= i < j < |workers| ==> Apart(workers[i], workers[j])
      ensures forall w :: w in workers && w != workers[k] ==> w.Repr() <= Repr
    {
      hide Tracks;
      forall j | 0 <= j < |workers| && j != k ensures Tracks(workers[j], model.live[j]) {
        assert old(Tracks(workers[j], model.live[j]));
        assert old(Apart(workers[if j < k then j else k], workers[if j < k then k else j]));
      }
      forall i, j | 0 <= i < j < |workers| ensures Apart(workers[i], workers[j]) {
        assert old(Apart(workers[i], workers[j]));
        assert old(Apart(workers[if i < k then i else k], workers[if i < k then k else i])) || i == k;
        assert old(Apart(workers[if j < k then j else k], workers[if j < k then k else j])) || j == k;
      }
      forall w | w in workers && w != workers[k] ensures w.Repr() <= Repr {
        var j :| 0 <= j < |workers| && workers[j] == w;
        assert old(Apart(workers[if j < k then j else k], workers[if j < k then k else j]));
      }
    }

    /** A worker changed in place: the record follows. */
    ghost method Record(k: nat, next: WorkerState)
      requires this in Repr && k < |workers| && |model.live| == |workers| && model.queue == frames
      requires forall w :: w in workers ==> w in Repr && w.outgoing in Repr && w.incoming in Repr
      requires forall w :: w in workers && w != workers[k] ==> w.Repr() <= Repr
      requires forall i, j :: 0 <= i < j < |workers| ==> Apart(workers[i], workers[j])
      requires forall j :: 0 <= j < |workers| && j != k ==> Tracks(workers[j], model.live[j])
      requires Tracks(workers[k], next)
      modifies `model, `Repr
      ensures Valid() && Repr == old(Repr) + workers[k].Repr()
      ensures model == old(model).(live := old(model).live[k := next])
    {
      hide Tracks, Apart;
      label before:
      model := model.(live := model.live[k := next]);
      Repr := Repr + workers[k].Repr();
      forall j | 0 <= j < |workers| ensures Tracks(workers[j], model.live[j]) {
        assert j != k ==> old@before(Tracks(workers[j], model.live[j]));
        assert old@before(Tracks(workers[k], next));
      }
    }

    method ReadWorker(k: nat, e: Poll) returns (code: Code)
      requires Valid() && k < |workers| && e.readable
      modifies Repr
      ensures fresh(Repr - old(Repr)) && Agrees(code, ReadSlot(codec, old(model), k, e))
    {
      hide ReceiveOn, Kill, Tracks, Apart, Rest, Pending;
      var w := workers[k];
      assert Tracks(w, model.live[k]);
      var r, next := ReceiveOne(w, model.live[k], e.recv, e.disk);
      if r.Exited? {
        return ExitWith(r.reason);
      }
      OneChanged(k);
      assert model.live[k := model.live[k]] == model.live;
      Record(k, next);
      match r
      case Ok(_) =>
        code := Continue;
      case SocketFailure(connReset) =>
        if connReset {
          KillWorker(k);
          code := Continue;
        } else {
          code := ReturnError;
        }
    }

    method WriteWorker(k: nat, e: Poll) returns (code: Code)
      requires Valid() && k < |workers| && e.writable
      modifies Repr
      ensures fresh(Repr - old(Repr)) && Agrees(code, WriteSlot(old(model), k, e))
    {
      hide SendOn, Tracks, Apart, Rest, Pending;
      var w := workers[k];
      assert Tracks(w, model.live[k]);
      var success, next := SendOne(w, model.live[k], e.send);
      if success {
        OneChanged(k);
        Record(k, next);
        code := Continue;
      } else {
        code := ReturnError;
      }
    }

    // The loops.

    /** The flags of one slot; a stale index is looked up as the original does. */
    method ServeSlot(k: nat, e: Poll) returns (code: Code)
      requires Valid() && k < |workers|
      modifies Repr
      ensures fresh(Repr - old(Repr)) && Agrees(code, Slot(codec, old(model), k, e))
    {
      hide Tracks, Kill, ReceiveOn, SendOn, Apart;
      code := Continue;
      if e.readable {
        code := ReadWorker(k, e);
      }
      if code == Continue && e.writable {
        if k >= |workers| {
          return OutOfRange;
        }
        code := WriteWorker(k, e);
      }
      if code == Continue && e.hungUp {
        if k >= |workers| {
          return OutOfRange;
        }
        KillWorker(k);
      }
    }

    /** Backward over the slots there were when poll was called. */
    method ScanSlots(polls: nat -> Poll) returns (code: Code)
      requires Valid()
      modifies Repr
      ensures fresh(Repr - old(Repr))
      ensures Agrees(code, Scan(codec, old(model), polls, |old(model.live)|))
    {
      hide Tracks, Slot, Apart;
      var i: nat := |workers|;
      code := Continue;
      while i > 0
        invariant code == Continue && Valid() && fresh(Repr - old(Repr)) && i <= |workers|
        invariant Scan(codec, old(model), polls, |old(model.live)|) == Scan(codec, model, polls, i)
      {
        ghost var before := model;
        code := ServeSlot(i - 1, polls(i - 1));
        if code != Continue {
          return;
        }
        SlotShrinks(codec, before, i - 1, polls(i - 1));
        i := i - 1;
      }
    }

    /** All proxy indices but those a worker carries. */
    method MissingProxies() returns (indices: set<nat>)
      requires Valid()
      ensures forall i: nat :: i in indices <==> i < parameters.proxyCount && !Carries(model.live, i)
    {
      hide Tracks, Apart;
      indices := {};
      for i := 0 to parameters.proxyCount
        invariant forall j: nat :: j in indices <==> j < i
      {
        indices := indices + {i};
      }
      for k := 0 to |workers|
        invariant forall i: nat :: i in indices <==> i < parameters.proxyCount && !Carries(model.live[..k], i)
      {
        assert Tracks(workers[k], model.live[k]);
        var index := ProxyIndexOne(workers[k], model.live[k]);
        CarriesPush(model.live, k);
        if index >= 0 {
          indices := indices - {index};
        }
      }
      assert model.live[..|workers|] == model.live;
    }

    /** Connections for the proxies that have none pending. */
    method ConnectProxies(connects: nat -> bool) returns (code: Code)
      requires Valid()
      modifies this
      ensures fresh(Repr - old(Repr)) && Agrees(code, Connect(parameters, codec, old(model), connects, 0))
    {
      hide Tracks, Apart, AddWorker;
      var indices := MissingProxies();
      for i := 0 to parameters.proxyCount
        invariant Valid() && fresh(Repr - old(Repr))
        invariant forall j: nat :: i <= j < parameters.proxyCount ==> (j in indices <==> !Carries(model.live, j))
        invariant Connect(parameters, codec, old(model), connects, 0) == Connect(parameters, codec, model, connects, i)
      {
        if i in indices {
          if !connects(i) {
            return ReturnError;
          }
          ghost var before := model;
          AddConnection(i);
          AddCarries(parameters, codec, before, i);
        }
      }
      code := Continue;
    }

    method RunWorker(k: nat, frame: int, disk: Disk) returns (exit: Option<Exit>)
      requires Valid() && k < |workers|
      modifies Repr
      ensures fresh(Repr - old(Repr)) && (exit == None ==> Valid())
      ensures match RunFrame(parameters, codec, old(model).live[k], frame, disk)
        case Ok(w) => exit == None && model == old(model).(live := old(model).live[k := w])
        case Exited(reason) => exit == Some(reason)
        case SocketFailure(_) => false
    {
      hide RunFrame, Tracks, Apart, Rest, Pending;
      var w := workers[k];
      assert Tracks(w, model.live[k]);
      ghost var next;
      exit, next := RunOne(w, model.live[k], frame, disk);
      if exit == None {
        OneChanged(k);
        Record(k, next);
      }
    }

    /** Frames to idle workers, as long as there are both. */
    method HandOutFrames(disks: nat -> Disk) returns (code: Code)
      requires Valid()
      modifies Repr
      ensures fresh(Repr - old(Repr)) && Agrees(code, HandOut(parameters, codec, old(model), disks))
    {
      hide Tracks, Apart, RunFrame;
      ghost var goal := HandOut(parameters, codec, model, disks);
      var idle := GetIdleWorker();
      while frames != [] && idle.Some?
        invariant Valid() && fresh(Repr - old(Repr)) && idle == FirstIdle(model.live)
        invariant goal == HandOut(parameters, codec, model, disks)
        decreases |frames|
      {
        var frame := frames[0];
        var disk := disks(|frames|);
        ghost var before := model;
        PopFront();
        var exit := RunWorker(idle.value, frame, disk);
        if exit.Some? {
          assert HandOut(parameters, codec, before, disks) == Quit(exit.value);
          return ExitWith(exit.value);
        }
        idle := GetIdleWorker();
      }
      code := Continue;
    }

    method PopFront()
      requires Valid() && frames != []
      modifies this
      ensures Valid() && Repr == old(Repr) && workers == old(workers)
      ensures model == old(model).(queue := old(model).queue[1..])
    {
      hide Tracks;
      frames := frames[1..];
      model := model.(queue := model.queue[1..]);
      assert forall k :: 0 <= k < |workers| ==> old(Tracks(workers[k], model.live[k]));
    }

    method DoRound(e: Events) returns (code: Code)
      requires Valid()
      modifies Repr
      ensures fresh(Repr - old(Repr)) && Agrees(code, Round(parameters, codec, old(model), e))
    {
      hide Tracks, Apart, Connect, Scan, HandOut, AddWorker;
      code := ConnectProxies(e.connects);
      if code != Continue {
        return;
      }
      code := ScanSlots(e.polls);
      if code != Continue {
        return;
      }
      if e.accepts {
        AddConnection(-1);
      }
      code := HandOutFrames(e.disks);
    }

    /**
     * start_controller over the rounds given: as the value-level loop has it,
     * so at its normal exit every frame other than -1 has been processed.
     */
    method MainLoop(rounds: seq<Events>) returns (finished: bool, code: Code)
      requires Valid()
      modifies Repr
      ensures match Run(parameters, codec, old(model), rounds)
        case Finished(c) => finished && Valid() && model == c
        case Unfinished(status) => !finished && Agrees(code, status)
      ensures finished && old(model) == Scheduler.Start(old(frames)) ==>
        forall f :: f in old(frames) && f != -1 ==> Guarantees.DoneBySomeone(parameters, model, f)
    {
      hide Tracks, Apart, Round, Guarantees.DoneBySomeone;
      ghost var goal := Run(parameters, codec, model, rounds);
      var i := 0;
      assert rounds[0..] == rounds;
      code, finished := Continue, false;
      var working := AnyWorkerWorking();
      while (frames != [] || working) && i < |rounds|
        invariant code == Continue && Valid() && fresh(Repr - old(Repr))
        invariant working == AnyWorking(model.live) && i <= |rounds|
        invariant goal == Run(parameters, codec, model, rounds[i..])
      {
        assert rounds[i..][0] == rounds[i] && rounds[i..][1..] == rounds[i + 1..];
        code := DoRound(rounds[i]);
        if code != Continue {
          return;
        }
        i := i + 1;
        working := AnyWorkerWorking();
      }
      assert i == |rounds| ==> rounds[i..] == [];
      finished := frames == [] && !working;
      if finished && old(model) == Scheduler.Start(old(frames)) {
        forall f | f in old(frames) && f != -1 ensures Guarantees.DoneBySomeone(parameters, model, f) {
          Guarantees.Completeness(parameters, codec, old(frames), rounds, f);
        }
      }
    }
  }

  lemma SlotShrinks(codec: Codec, c: Scheduler.Controller, k: nat, e: Poll)
    requires k < |c.live| && Slot(codec, c, k, e).Running?
    ensures |Slot(codec, c, k, e).controller.live| >= k
  {
    hide ReceiveOn, SendOn;
  }

  lemma CarriesPush(live: seq<WorkerState>, k: nat)
    requires k < |live|
    ensures forall i: int :: Carries(live[..k + 1], i) <==> Carries(live[..k], i) || live[k].proxyIndex == i
  {
    forall i: int ensures Carries(live[..k + 1], i) <==> Carries(live[..k], i) || live[k].proxyIndex == i {
      if Carries(live[..k], i) {
        var j :| 0 <= j < k && live[..k][j].proxyIndex == i;
        assert live[..k + 1][j].proxyIndex == i;
      }
      if live[k].proxyIndex == i {
        assert live[..k + 1][k].proxyIndex == i;
      }
      if Carries(live[..k + 1], i) {
        var j :| 0 <= j < k + 1 && live[..k + 1][j].proxyIndex == i;
        assert j < k ==> live[..k][j].proxyIndex == i;
      }
    }
  }

  lemma AddCarries(ps: Parameters, codec: Codec, c: Scheduler.Controller, i: nat)
    ensures forall j: nat :: j > i ==> (Carries(AddWorker(ps, codec, c, i).live, j) <==> Carries(c.live, j))
  {
    var next := AddWorker(ps, codec, c, i);
    forall j: nat | j > i ensures Carries(next.live, j) <==> Carries(c.live, j) {
      if Carries(c.live, j) {
        var k :| 0 <= k < |c.live| && c.live[k].proxyIndex == j;
        assert next.live[k].proxyIndex == j;
      }
      if Carries(next.live, j) {
        var k :| 0 <= k < |next.live| && next.live[k].proxyIndex == j;
        assert c.live[k].proxyIndex == j;
      }
    }
  }
}
