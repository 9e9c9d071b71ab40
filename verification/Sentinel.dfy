/** Frame -1, which the controller takes for no frame: exactly when it may be lost. */
module Sentinel {
  import opened Wrappers
  import opened Framing
  import opened Template
  import opened Protocol
  import opened Signs
  import opened Scheduler
  import opened Guarantees
  import opened Network
  import opened OneWorker
  import opened Decimal
  import Codecs
  import FrameRange

  /**
   * Whatever the parameters, the machines, the sockets and the disks: a normal
   * exit means that every frame was processed.
   */
  ghost predicate AlwaysComplete(codec: Codec, frames: seq<int>) {
    forall ps: Parameters, events: seq<Event>, f: int ::
      f in frames && RunFarm(ps, codec, Begin(frames), events).Completed? ==>
        DoneBySomeone(ps, RunFarm(ps, codec, Begin(frames), events).farm.c, f)
  }

  // A run that loses it: one worker at a time, which finishes all frames but -1 and goes away over that one.

  function PrintFrame(): Parameters {
    Parameters(0, [], [], "render", ["%d"])
  }

  /** Running this program over these frames is within the limits of the codec. */
  predicate Usable(codec: Codec, frames: seq<int>) {
    Fit(codec, Hello) && forall k :: 0 <= k < |frames| ==> Fit(codec, RunAction(PrintFrame(), frames[k]))
  }

  lemma OneProgram(f: int)
    ensures FrameScript(PrintFrame(), f) == [RunAction(PrintFrame(), f)] && SetupScript(PrintFrame()) == [Hello]
    ensures [Hello][1..] == [] && [RunAction(PrintFrame(), f)][1..] == []
  {
  }

  lemma UsableIsManageable(codec: Codec, frames: seq<int>)
    requires Usable(codec, frames)
    ensures Manageable(PrintFrame(), codec, frames)
  {
    hide Fit, RunAction, FrameScript, SetupScript;
    OneProgram(0);
    forall k | 0 <= k < |frames| ensures AllFit(codec, FrameScript(PrintFrame(), frames[k])) {
      OneProgram(frames[k]);
    }
  }

  predicate Clean(w: WorkerState) {
    forall k :: 0 <= k < |w.done| ==> w.done[k].action != RunAction(PrintFrame(), -1)
  }

  predicate AllClean(c: Controller) {
    forall w :: w in c.live + c.dead ==> Clean(w)
  }

  /** The only worker has been asked for this frame. */
  predicate On(codec: Codec, f: Farm, frame: int) {
    && Issued(codec, f) && f.c.live[0].phase == Awaiting(RunAction(PrintFrame(), frame), [])
    && f.c.live[0].frame == frame
  }

  lemma NamesDiffer(f: int)
    requires f >= 0
    ensures RunAction(PrintFrame(), f) != RunAction(PrintFrame(), -1)
  {
    hide FindFrom;
    SubstituteIdentity("%d", f);
    LeftmostMatch("%d");
    assert IsParameter("%d", 0, 2);
    assert SubstituteAll(["%d"], f)[0] == Substitute("%d", f);
    assert SubstituteAll(["%d"], -1)[0] == "%d";
  }

  /** An exchange for anything but frame -1 leaves frame -1 unprocessed. */
  lemma StaysClean(codec: Codec, f: Farm)
    requires Issued(codec, f) && AllClean(f.c)
    requires f.c.live[0].phase.pending != RunAction(PrintFrame(), -1)
    ensures AllClean(AfterExchange(PrintFrame(), codec, f).c)
  {
    hide RunAction, Asked, Answer, FrameScript;
    assert Clean(f.c.live[0]);
  }

  /** The next frame of the queue is on the only worker. */
  lemma NextFrame(codec: Codec, f: Farm)
    requires Issued(codec, f) && f.c.live[0].phase.rest == [] && f.c.queue != []
    ensures On(codec, AfterExchange(PrintFrame(), codec, f), f.c.queue[0])
    ensures AfterExchange(PrintFrame(), codec, f).c.queue == f.c.queue[1..]
  {
    hide RunAction, FrameScript, Answer, Asked;
    OneProgram(f.c.queue[0]);
    AfterIsIssued(PrintFrame(), codec, f);
  }

  lemma Exchanges(codec: Codec, f: Farm, more: seq<Event>)
    requires Faithful(codec) && Issued(codec, f) && f.c.live[0].phase.rest == [] && Usable(codec, f.c.queue)
    requires Fit(codec, f.c.live[0].phase.pending)
    ensures RunFarm(PrintFrame(), codec, f, ExchangeEvents(codec, f.c.live[0].phase.pending) + more)
         == RunFarm(PrintFrame(), codec, AfterExchange(PrintFrame(), codec, f), more)
  {
    hide RunFarm, Fit, RunAction, FrameScript, AfterExchange, ExchangeEvents, Issued, Answer, Asked;
    UsableIsManageable(codec, f.c.queue);
    OneExchange(PrintFrame(), codec, f, more);
  }

  /** The worker closes its connection: nothing is there to be received. */
  function Closes(): NetEvents {
    Rounding(Calm().(readable := true), false)
  }

  /** The worker answers for frame -1, and closes its connection behind the header of the answer. */
  function BreakEvents(codec: Codec): seq<Event> {
    HeaderEvents(codec, RunAction(PrintFrame(), -1)) + [InRound(Closes())]
  }

  function Gone(codec: Codec, f: Farm): Farm
    requires On(codec, f, -1)
  {
    Farm(Controller(f.c.queue, [], f.c.dead + AfterHeader(codec, f).c.live), [])
  }

  lemma CloseStep(codec: Codec, f: Farm)
    requires On(codec, f, -1)
    ensures RoundStep(PrintFrame(), codec, AfterHeader(codec, f), Closes()) == Going(Gone(codec, f))
  {
    hide RunAction, Asked, Answer, SizeOf;
    var e := Calm().(readable := true);
    var half, gone := AfterHeader(codec, f), Gone(codec, f);
    OneSlot(PrintFrame(), codec, half, e);
    assert half.peers[0].up[..0] == [];
    assert ReceiveOn(codec, half.c.live[0], Offered([]), GOOD_DISK) == SocketFailure(true);
    assert Kill(half.c, 0) == gone.c && Erase(half.peers, 0) == [];
    assert SlotStep(codec, half, 0, Offer(half.peers, 0, e)) == Going(gone);
    assert HandOut(PrintFrame(), codec, gone.c, Rounding(e, false).disks) == Scheduler.Running(gone.c);
  }

  lemma BreakRun(codec: Codec, f: Farm, more: seq<Event>)
    requires Faithful(codec) && On(codec, f, -1) && Fit(codec, RunAction(PrintFrame(), -1))
    ensures RunFarm(PrintFrame(), codec, f, BreakEvents(codec) + more)
         == RunFarm(PrintFrame(), codec, Gone(codec, f), more)
  {
    hide RunFarm, RoundStep, RunAction, HeaderEvents, Frame, Fit, Done, Asked, Answer;
    UpToHeader(PrintFrame(), codec, f, [InRound(Closes())] + more);
    CloseStep(codec, f);
    BusyIsNotDone(AfterHeader(codec, f).c);
    Steps(PrintFrame(), codec, AfterHeader(codec, f), InRound(Closes()), Gone(codec, f), more);
    var header := HeaderEvents(codec, RunAction(PrintFrame(), -1));
    assert header + ([InRound(Closes())] + more) == BreakEvents(codec) + more;
  }

  function Replaced(codec: Codec, f: Farm): Farm {
    Farm(f.c.(live := [StartWorker(PrintFrame(), codec, -1)]), [NEW_PEER])
  }

  /** A worker connects to a controller that has none. */
  lemma AcceptStep(codec: Codec, f: Farm)
    requires f.c.live == [] && f.peers == [] && Faithful(codec)
    ensures RoundStep(PrintFrame(), codec, f, Rounding(Calm(), true)) == Going(Replaced(codec, f))
    ensures Issued(codec, Replaced(codec, f)) && Replaced(codec, f).c.live[0].phase == Awaiting(Hello, [])
  {
    var e := Rounding(Calm(), true);
    OneProgram(0);
    assert Joined(f.c, f.peers) == f;
    var w := StartWorker(PrintFrame(), codec, -1);
    var c := AddWorker(PrintFrame(), codec, f.c, -1);
    assert c == Replaced(codec, f).c;
    FreshJoins(PrintFrame(), codec, c);
    assert w.phase.Awaiting? && FirstIdle([w]) == None;
    assert HandOut(PrintFrame(), codec, c, e.disks) == Scheduler.Running(c);
    Lengths(codec.encodeRequest(WelcomeRequest));
  }

  predicate FromSentinel(queue: seq<int>) {
    forall k :: 0 <= k < |queue| ==> queue[k] >= -1
  }

  ghost predicate Loses(codec: Codec, f: Farm, events: seq<Event>) {
    && RunFarm(PrintFrame(), codec, f, events).Completed?
    && AllClean(RunFarm(PrintFrame(), codec, f, events).farm.c)
  }

  /** Every frame but -1 is finished; a worker on frame -1 is lost with it. */
  lemma {:induction false} LosesFrom(codec: Codec, f: Farm, frame: int) returns (events: seq<Event>)
    requires Faithful(codec) && On(codec, f, frame) && AllClean(f.c) && Usable(codec, f.c.queue)
    requires Fit(codec, RunAction(PrintFrame(), frame)) && frame >= -1 && FromSentinel(f.c.queue)
    ensures Loses(codec, f, events)
    decreases |f.c.queue|, 1
  {
    hide AllClean, RoundStep, RunAction, RunFarm, AfterExchange, ExchangeEvents, BreakEvents, Fit, Frame, Done,
      Asked, Answer;
    var more := [];
    if frame >= 0 {
      var next := AfterExchange(PrintFrame(), codec, f);
      NamesDiffer(frame);
      StaysClean(codec, f);
      if f.c.queue == [] {
        AfterIsIssued(PrintFrame(), codec, f);
        Exits(PrintFrame(), codec, next);
      } else {
        NextFrame(codec, f);
        more := LosesFrom(codec, next, f.c.queue[0]);
      }
      Exchanges(codec, f, more);
      events := ExchangeEvents(codec, RunAction(PrintFrame(), frame)) + more;
    } else {
      GoneIsClean(codec, f);
      if f.c.queue == [] {
        Exits(PrintFrame(), codec, Gone(codec, f));
      } else {
        more := LosesAfresh(codec, Gone(codec, f));
      }
      BreakRun(codec, f, more);
      events := BreakEvents(codec) + more;
    }
  }

  lemma GoneIsClean(codec: Codec, f: Farm)
    requires On(codec, f, -1) && AllClean(f.c)
    ensures AllClean(Gone(codec, f).c) && (f.c.queue == [] ==> Done(Gone(codec, f).c))
  {
    hide RunAction, Answer;
    assert Clean(f.c.live[0]);
  }

  lemma {:induction false} LosesAfresh(codec: Codec, f: Farm) returns (events: seq<Event>)
    requires Faithful(codec) && f.c.live == [] && f.peers == [] && f.c.queue != [] && AllClean(f.c)
    requires Usable(codec, f.c.queue) && FromSentinel(f.c.queue) && Fit(codec, Hello)
    ensures Loses(codec, f, events)
    decreases |f.c.queue|, 0
  {
    hide RoundStep, RunAction, RunFarm, AfterExchange, ExchangeEvents, Fit, Issued, Done, Asked, Answer, AllClean,
      Replaced;
    var ready := Replaced(codec, f);
    AcceptStep(codec, f);
    ReplacedIsClean(codec, f);
    var next := AfterExchange(PrintFrame(), codec, ready);
    HelloIsNoRun();
    StaysClean(codec, ready);
    NextFrame(codec, ready);
    var more := LosesFrom(codec, next, f.c.queue[0]);
    Exchanges(codec, ready, more);
    events := [InRound(Rounding(Calm(), true))] + (ExchangeEvents(codec, Hello) + more);
    QueueIsNotDone(f.c);
    Steps(PrintFrame(), codec, f, InRound(Rounding(Calm(), true)), ready, ExchangeEvents(codec, Hello) + more);
  }

  lemma ReplacedIsClean(codec: Codec, f: Farm)
    requires AllClean(f.c) && f.c.live == []
    ensures AllClean(Replaced(codec, f).c) && Replaced(codec, f).c.queue == f.c.queue
  {
    assert Clean(StartWorker(PrintFrame(), codec, -1));
  }

  lemma HelloIsNoRun()
    ensures Hello != RunAction(PrintFrame(), -1)
  {
  }

  lemma QueueIsNotDone(c: Controller)
    requires c.queue != []
    ensures !Done(c)
  {
  }

  lemma CleanIsNotProcessed(w: WorkerState)
    requires Clean(w)
    ensures !Processed(PrintFrame(), w.done, -1)
  {
    hide RunAction;
    OneProgram(-1);
    forall i: nat ensures !ProcessedAt(PrintFrame(), w.done, -1, i) {
      if i + 1 <= |w.done| {
        assert Actions(w.done)[i..i + 1][0] == w.done[i].action;
      }
    }
  }

  /**
   * Over these frames some run with honest workers exits normally although
   * frame -1 was never processed: all that goes wrong is that a worker closes
   * its connection within the answer for it.
   */
  lemma LosingRun(codec: Codec, frames: seq<int>) returns (events: seq<Event>)
    requires Faithful(codec) && Usable(codec, frames) && -1 in frames && forall x :: x in frames ==> x >= -1
    ensures RunFarm(PrintFrame(), codec, Begin(frames), events).Completed?
    ensures !DoneBySomeone(PrintFrame(), RunFarm(PrintFrame(), codec, Begin(frames), events).farm.c, -1)
  {
    hide RunFarm, Clean, Processed, Fit, RunAction;
    assert forall k :: 0 <= k < |frames| ==> frames[k] in frames;
    events := LosesAfresh(codec, Begin(frames));
    var c := RunFarm(PrintFrame(), codec, Begin(frames), events).farm.c;
    forall w | w in c.live + c.dead ensures !Processed(PrintFrame(), w.done, -1) {
      CleanIsNotProcessed(w);
    }
  }

  lemma CompleteFor(ps: Parameters, codec: Codec, frames: seq<int>, events: seq<Event>, f: int)
    requires Faithful(codec) && f in frames && RunFarm(ps, codec, Begin(frames), events).Completed?
    requires f == -1 ==> exists g :: g in frames && g < -1
    ensures DoneBySomeone(ps, RunFarm(ps, codec, Begin(frames), events).farm.c, f)
  {
    hide RunFarm, FarmInv, Processed, Scheduler.Run;
    BeginInv(ps, codec, frames);
    var rounds := RunIsRun(ps, codec, Begin(frames), events);
    var g :| g in frames && g != -1 && (g == f || (f == -1 && g < -1));
    Completeness(ps, codec, frames, rounds, g);
    var c := RunFarm(ps, codec, Begin(frames), events).farm.c;
    var w :| w in c.live + c.dead && Processed(ps, w.done, g);
    if f != g {
      NegativeFrames(ps, w.done, g, f);
    }
  }

  /**
   * The promise that a normal exit means all frames are processed holds
   * exactly for frame lists without -1, or with another negative frame, which
   * asks for the same work. All workers are honest, and the message library is
   * any that is faithful and can carry the few messages of the losing run.
   */
  lemma CompleteExactly(codec: Codec, frames: seq<int>)
    requires Faithful(codec) && Usable(codec, frames)
    ensures AlwaysComplete(codec, frames) <==> Keeps(frames)
  {
    hide RunFarm, DoneBySomeone, Usable;
    if !Keeps(frames) {
      var events := LosingRun(codec, frames);
    } else {
      forall ps: Parameters, events: seq<Event>, f: int
        | f in frames && RunFarm(ps, codec, Begin(frames), events).Completed?
        ensures DoneBySomeone(ps, RunFarm(ps, codec, Begin(frames), events).farm.c, f)
      {
        CompleteFor(ps, codec, frames, events, f);
      }
    }
  }

  /** A user gets there by asking for the frames from 1 down to -1. */
  lemma SpecifiedAndLost(codec: Codec)
    requires Faithful(codec) && Usable(codec, [1, 0, -1])
    ensures FrameRange.Parse("1,-1") == Some(FrameRange.Range(1, -1, -1))
    ensures FrameRange.All(FrameRange.Range(1, -1, -1)) == [1, 0, -1]
    ensures !AlwaysComplete(codec, [1, 0, -1])
  {
    hide AlwaysComplete, Usable, FrameRange.Parse;
    FrameRange.ParseTwo(1, -1);
    assert FrameRange.ShowInt(1) + "," + FrameRange.ShowInt(-1) == "1,-1";
    assert FrameRange.Between(1, -1) == FrameRange.Range(1, -1, -1);
    CompleteExactly(codec, [1, 0, -1]);
  }

  lemma DigitsFor(f: nat)
    requires f < 10
    ensures Substitute("%d", f) == Show(f)
  {
    LeftmostMatch("%d");
    assert IsParameter("%d", 0, 2);
    var m := FindParameter("%d").value;
    assert m.begin == 0 && m.end == 2;
    assert Value([]) == 0 && "%d"[1..1] == [];
    assert Substitute("", f) == "" by {
      LeftmostMatch("");
    }
    assert "%d"[2..] == "" && "%d"[..0] == "";
  }

  lemma ShortRuns(f: int)
    requires -1 <= f < 10
    ensures Fit(Codecs.Library(), RunAction(PrintFrame(), f))
  {
    hide Codecs.EncodeRequest, Codecs.EncodeResponse;
    var argument := Substitute("%d", f);
    assert SubstituteAll(["%d"], f) == [argument];
    if f >= 0 {
      DigitsFor(f);
    }
    Codecs.RunSize("render", argument);
    Codecs.PlainSize(Answer(RunAction(PrintFrame(), f)));
  }

  /** There is a library to which all this applies. */
  lemma UsableExists()
    ensures Faithful(Codecs.Library()) && Usable(Codecs.Library(), [1, 0, -1])
  {
    hide RunAction, Codecs.EncodeResponse;
    Codecs.LibraryIsFaithful();
    Codecs.GreetingSize();
    Codecs.PlainSize(Answer(Hello));
    ShortRuns(1);
    ShortRuns(0);
    ShortRuns(-1);
  }
}
