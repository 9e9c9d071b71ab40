/** What workers are asked in the end: the requests issued, for the frames given, within their directories. */
module Delivery {
  import opened Wrappers
  import opened Framing
  import opened Template
  import opened Protocol
  import opened Serving
  import opened Connection
  import opened Locality
  import opened Work

  // The request issued is the request served.

  /** The request is on its way to the worker, or the worker is on it. */
  predicate Outgoes(codec: Codec, l: Link, q: Request) {
    l.w.phase.Awaiting? && (Requesting(codec, l, q) || Working(l, q))
  }

  lemma OutgoesOn(ps: Parameters, codec: Codec, l: Link, e: Event, q: Request)
    requires Faithful(codec) && Outgoes(codec, l, q) && Step(ps, codec, l, e).Up?
    ensures var next := Step(ps, codec, l, e).link;
      (next.served == l.served && Outgoes(codec, next, q)) || next.served == l.served + [q]
  {
    hide Frame, Handle, ReceiveMessage, ReceiveOn, RunFrame;
    var next := Step(ps, codec, l, e).link;
    match e
    case Flush(count) =>
      var n := Min(count, |l.w.unsent|);
      assert l.w.unsent[..n] + l.w.unsent[n..] == l.w.unsent;
      assert next.down + next.w.unsent == l.down + l.w.unsent;
    case Take =>
      if l.serving == None {
        if l.w.unsent == [] {
          assert l.down + [] == l.down;
          WholeFrame(codec, q, l.down);
        } else {
          PartOfFrame(codec, q, l.down, l.w.unsent);
        }
      }
    case _ =>
  }

  lemma {:induction false} ServedGrows(ps: Parameters, codec: Codec, l: Link, events: seq<Event>)
    requires Run(ps, codec, l, events).Up?
    ensures l.served <= Run(ps, codec, l, events).link.served
    decreases |events|
  {
    hide Handle, ReceiveMessage, ReceiveOn, RunFrame;
    if events != [] {
      ServedGrows(ps, codec, Step(ps, codec, l, events[0]).link, events[1..]);
    }
  }

  /**
   * In every run the next request a worker answers is the one that was put
   * into the outgoing buffer, whole: contents of files and arguments included.
   */
  lemma {:induction false} ServesWhatWasIssued(ps: Parameters, codec: Codec, l: Link, q: Request, events: seq<Event>)
    requires Faithful(codec) && Outgoes(codec, l, q) && Run(ps, codec, l, events).Up?
    ensures var served := Run(ps, codec, l, events).link.served;
      l.served <= served && (|served| > |l.served| ==> served[|l.served|] == q)
    decreases |events|
  {
    hide Step, Outgoes;
    if events != [] {
      var next := Step(ps, codec, l, events[0]).link;
      OutgoesOn(ps, codec, l, events[0], q);
      if next.served == l.served {
        ServesWhatWasIssued(ps, codec, next, q, events[1..]);
      } else {
        ServedGrows(ps, codec, next, events[1..]);
      }
    }
  }

  /** A request just issued is on its way. */
  lemma IssuedOutgoes(ps: Parameters, codec: Codec, l: Link, q: Request)
    requires LinkInv(ps, codec, l) && Faithful(codec) && l.down == [] && |codec.encodeRequest(q)| <= MAX_MESSAGE_SIZE
    requires l.w.unsent == Frame(codec.encodeRequest(q))
    ensures Outgoes(codec, l, q)
  {
    hide WorkerInv, AllAsk, Asks, Frame;
    FrameSize(codec.encodeRequest(q));
    assert l.w.unsent != [] && [] + l.w.unsent == l.w.unsent;
  }

  // The programs run.

  /** A run in a script is that of one of the frames given. */
  lemma {:induction false} ScriptRun(ps: Parameters, given: seq<int>, k: nat) returns (frame: int)
    requires k < |Script(ps, given)| && Script(ps, given)[k].RunProgram?
    ensures frame in given && Runs(ps, frame, Script(ps, given)[k])
  {
    hide InActions, OutActions, Substitute, SubstituteAll;
    if given == [] {
      CopiesRunNothing(ps.inCopies, -1);
      frame := 0;
      assert false;
    } else {
      var before, f := Script(ps, DropLast(given)), given[|given| - 1];
      if k < |before| {
        frame := ScriptRun(ps, DropLast(given), k);
      } else {
        assert Script(ps, given)[k] == FrameScript(ps, f)[k - |before|];
        CopiesRunNothing(ps.inCopies, f);
        CopiesRunNothing(ps.outCopies, f);
        RunsSubstituted(ps, f);
        frame := f;
      }
    }
  }

  lemma RunsSubstituted(ps: Parameters, frame: int)
    ensures Runs(ps, frame, RunAction(ps, frame))
  {
    hide Substitute;
  }

  lemma {:induction false} CopiesRunNothing(copies: seq<FileCopy>, frame: int)
    ensures forall k :: 0 <= k < |InActions(copies, frame)| ==> !InActions(copies, frame)[k].RunProgram?
    ensures forall k :: 0 <= k < |OutActions(copies, frame)| ==> !OutActions(copies, frame)[k].RunProgram?
  {
    hide Substitute, Selected;
    if copies != [] {
      CopiesRunNothing(copies[1..], frame);
    }
  }

  /** The request to run the program for this frame. */
  predicate AsksToRun(ps: Parameters, frame: int, q: Request) {
    && q.ExecuteRequest? && q.executable == ps.executable && |q.arguments| == |ps.arguments|
    && forall k :: 0 <= k < |ps.arguments| ==> q.arguments[k] == Substitute(ps.arguments[k], frame)
  }

  /** Every program a worker was asked to run, in any run of a link, is that of a frame given to it. */
  lemma OnlyGivenAreRun(ps: Parameters, codec: Codec, index: int, events: seq<Event>, k: nat) returns (frame: int)
    requires Faithful(codec) && Run(ps, codec, Open(ps, codec, index), events).Up?
    requires var l := Run(ps, codec, Open(ps, codec, index), events).link;
      k < |l.served| && l.served[k].ExecuteRequest?
    ensures var l := Run(ps, codec, Open(ps, codec, index), events).link;
      frame in l.w.given && AsksToRun(ps, frame, l.served[k])
  {
    hide Run, Open, Script, Substitute;
    ServedOnScript(ps, codec, index, events);
    var l := Run(ps, codec, Open(ps, codec, index), events).link;
    var a := Script(ps, l.w.given)[k];
    assert Asks(l.served[k], Script(ps, l.w.given)[..|l.served|][k]);
    frame := ScriptRun(ps, l.w.given, k);
  }

  /** For every frame processed over a link its worker has been asked to run the program. */
  lemma ProcessedWasRun(ps: Parameters, codec: Codec, index: int, events: seq<Event>, frame: int) returns (k: nat)
    requires Faithful(codec) && Run(ps, codec, Open(ps, codec, index), events).Up?
    requires Processed(ps, Run(ps, codec, Open(ps, codec, index), events).link.w.done, frame)
    ensures var l := Run(ps, codec, Open(ps, codec, index), events).link;
      k < |l.served| && AsksToRun(ps, frame, l.served[k])
  {
    hide Run, Open, Script, Substitute, LinkInv, FrameScript;
    ServedOnScript(ps, codec, index, events);
    OpenInv(ps, codec, index);
    RunKeeps(ps, codec, Open(ps, codec, index), events);
    var l := Run(ps, codec, Open(ps, codec, index), events).link;
    DoneOnScript(ps, codec, l);
    var i: nat :| ProcessedAt(ps, l.w.done, frame, i);
    var j := RunPlace(ps, frame);
    k := i + j;
    assert Actions(l.w.done)[i..i + |FrameScript(ps, frame)|][j] == Actions(l.w.done)[k];
    assert Asks(l.served[k], Script(ps, l.w.given)[..|l.served|][k]);
  }

  lemma DoneOnScript(ps: Parameters, codec: Codec, l: Link)
    requires LinkInv(ps, codec, l)
    ensures |l.w.done| <= |Script(ps, l.w.given)|
    ensures forall k :: 0 <= k < |l.w.done| ==> Script(ps, l.w.given)[k] == Actions(l.w.done)[k]
  {
    hide Script, OneOutstanding;
    assert forall k :: 0 <= k < |l.w.done| ==> (Actions(l.w.done) + Outstanding(l.w.phase))[k] == Actions(l.w.done)[k];
  }

  lemma RunPlace(ps: Parameters, frame: int) returns (j: nat)
    ensures j < |FrameScript(ps, frame)| && Runs(ps, frame, FrameScript(ps, frame)[j])
  {
    hide InActions, OutActions, Substitute;
    RunsSubstituted(ps, frame);
    j := |InActions(ps.inCopies, frame)|;
  }

  // Their files.

  /** The pathname a request names on the worker, if any. */
  function PathOf(q: Request): string {
    match q
    case WelcomeRequest => ""
    case CopyInRequest(pathname, _) => pathname
    case ExecuteRequest(executable, _) => executable
    case CopyOutRequest(pathname) => pathname
  }

  /**
   * With parameters the parser accepts no request leads a worker out of the
   * directory it runs in, whatever the frames.
   */
  lemma WorkersStayBelow(ps: Parameters, codec: Codec, index: int, events: seq<Event>, k: nat)
    requires Faithful(codec) && LocalParameters(ps) && Run(ps, codec, Open(ps, codec, index), events).Up?
    requires k < |Run(ps, codec, Open(ps, codec, index), events).link.served|
    ensures StaysBelow(PathOf(Run(ps, codec, Open(ps, codec, index), events).link.served[k]))
  {
    hide Run, Open, StaysBelow, IsPathnameLocal;
    WorkerSeesLocalPaths(ps, codec, index, events, k);
    var q := Run(ps, codec, Open(ps, codec, index), events).link.served[k];
    assert IsPathnameLocal("") by { NothingIsLocal(); }
    LocalStaysBelow(PathOf(q));
  }

  lemma NothingIsLocal()
    ensures IsPathnameLocal("")
  {
  }
}
