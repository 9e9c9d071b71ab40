/** Copies out without a frame number, which the documentation places behind all frames. */
module PlainOutputs {
  import opened Protocol
  import opened Signs
  import opened Scheduler
  import opened Campaign
  import opened Network
  import opened OneWorker
  import opened Finishing
  import opened Sentinel
  import FrameRange

  predicate SomethingWritten(c: Controller) {
    exists w :: w in c.live + c.dead && w.files != []
  }

  /** Whatever happens, a normal exit leaves a copied output. */
  ghost predicate AlwaysCopies(ps: Parameters, codec: Codec, frames: seq<int>) {
    forall events: seq<Event> ::
      RunFarm(ps, codec, Begin(frames), events).Completed? ==>
        SomethingWritten(RunFarm(ps, codec, Begin(frames), events).farm.c)
  }

  /** Out-copies without a frame number, and no others. */
  predicate OnlyPlain(ps: Parameters) {
    ps.outCopies != [] && forall copy :: copy in ps.outCopies ==> !copy.HasParameter()
  }

  lemma WrittenAtEnd(ps: Parameters, codec: Codec, frames: seq<int>, events: seq<Event>)
    requires Faithful(codec) && Keeps(frames) && OnlyPlain(ps)
    requires RunFarm(ps, codec, Begin(frames), events).Completed?
    ensures SomethingWritten(RunFarm(ps, codec, Begin(frames), events).farm.c) <==> exists f :: f in frames && f < 0
  {
    hide RunFarm, FarmInv, Keeps, Scheduler.Run;
    BeginInv(ps, codec, frames);
    var rounds := RunIsRun(ps, codec, Begin(frames), events);
    SomethingWrittenExactly(ps, codec, frames, rounds, false);
  }

  lemma SomeRunEnds(ps: Parameters, codec: Codec, frames: seq<int>) returns (events: seq<Event>)
    requires Faithful(codec) && Manageable(ps, codec, frames)
    ensures RunFarm(ps, codec, Begin(frames), events).Completed?
  {
    hide Manageable;
    if frames == [] {
      events := [];
    } else {
      events := CanAlwaysFinish(ps, codec, frames, []);
      assert [] + events == events;
    }
  }

  /** The copies are made exactly if some frame is negative, and not for the frames anybody would ask for. */
  lemma CopiedExactly(ps: Parameters, codec: Codec, frames: seq<int>)
    requires Faithful(codec) && Manageable(ps, codec, frames) && Keeps(frames) && OnlyPlain(ps)
    ensures AlwaysCopies(ps, codec, frames) <==> exists f :: f in frames && f < 0
  {
    hide RunFarm, Manageable, Keeps, OnlyPlain, SomethingWritten;
    var last := SomeRunEnds(ps, codec, frames);
    WrittenAtEnd(ps, codec, frames, last);
    forall events | RunFarm(ps, codec, Begin(frames), events).Completed?
      ensures SomethingWritten(RunFarm(ps, codec, Begin(frames), events).farm.c) <==> exists f :: f in frames && f < 0
    {
      WrittenAtEnd(ps, codec, frames, events);
    }
  }

  /** The program of module Sentinel, with a log to be copied back. */
  function WithLog(): Parameters {
    PrintFrame().(outCopies := [FileCopy("log", "log")])
  }

  /** The log is not copied for the specification 1, and it is for -5. */
  lemma LogIsMissed(codec: Codec)
    requires Faithful(codec) && Usable(codec, [1, 0, -1])
    ensures Specified("1", 1) && !AlwaysCopies(WithLog(), codec, [1])
    ensures Specified("-5", -5) && AlwaysCopies(WithLog(), codec, [-5])
  {
    hide AlwaysCopies, RunFarm, Fit, Specified;
    Specifications();
    NoParameterInLog();
    var ps := WithLog();
    OneProgram(1);
    assert [1, 0, -1][0] == 1 && Fit(codec, RunAction(PrintFrame(), 1));
    assert FrameScript(ps, 1) == [RunAction(PrintFrame(), 1)];
    CopiedExactly(ps, codec, [1]);
    CopiedForNegative(ps, codec);
  }

  lemma CopiedForNegative(ps: Parameters, codec: Codec)
    requires Faithful(codec) && OnlyPlain(ps)
    ensures AlwaysCopies(ps, codec, [-5])
  {
    hide RunFarm, SomethingWritten;
    assert -5 in [-5];
    forall events | RunFarm(ps, codec, Begin([-5]), events).Completed?
      ensures SomethingWritten(RunFarm(ps, codec, Begin([-5]), events).farm.c)
    {
      WrittenAtEnd(ps, codec, [-5], events);
    }
  }

  /** The specification stands for this one frame. */
  predicate Specified(spec: string, frame: int) {
    var r := FrameRange.Parse(spec);
    r.Some? && FrameRange.Ends(r.value) && FrameRange.All(r.value) == [frame]
  }

  lemma Specifications()
    ensures Specified("1", 1) && Specified("-5", -5)
  {
    hide FrameRange.Parse;
    FrameRange.ParseOne(1);
    FrameRange.ParseOne(-5);
    assert FrameRange.ShowInt(1) == "1" && FrameRange.ShowInt(-5) == "-5";
  }

  lemma NoParameterInLog()
    ensures OnlyPlain(WithLog())
  {
  }
}
