/** What the sign of a frame decides: which copies belong to it, and whether anything is substituted. */
module Signs {
  import opened Template
  import opened Protocol

  /** The copies that belong to frames of one sign. */
  function OfSign(copies: seq<FileCopy>, negative: bool): seq<FileCopy> {
    if copies == [] then []
    else (if copies[0].HasParameter() != negative then [copies[0]] else []) + OfSign(copies[1..], negative)
  }

  function Puts(copies: seq<FileCopy>, frame: int): (r: seq<Action>)
    ensures |r| == |copies|
  {
    if copies == [] then [] else [PutAction(copies[0], frame)] + Puts(copies[1..], frame)
  }

  function Fetches(copies: seq<FileCopy>, frame: int): (r: seq<Action>)
    ensures |r| == |copies|
  {
    if copies == [] then [] else [FetchAction(copies[0], frame)] + Fetches(copies[1..], frame)
  }

  /** Names as they were given, nothing replaced. */
  function PutsAsGiven(copies: seq<FileCopy>): seq<Action> {
    if copies == [] then [] else [PutFile(copies[0].source, copies[0].destination)] + PutsAsGiven(copies[1..])
  }

  function FetchesAsGiven(copies: seq<FileCopy>): seq<Action> {
    if copies == [] then [] else [FetchFile(copies[0].source, copies[0].destination)] + FetchesAsGiven(copies[1..])
  }

  /**
   * The copies with a parameter belong to a frame exactly if it is not
   * negative, those without one exactly if it is; each once and in order.
   */
  lemma {:induction false} CopiesBySign(copies: seq<FileCopy>, frame: int)
    ensures InActions(copies, frame) == Puts(OfSign(copies, frame < 0), frame)
    ensures OutActions(copies, frame) == Fetches(OfSign(copies, frame < 0), frame)
  {
    hide Substitute, StringHasParameter;
    if copies != [] {
      CopiesBySign(copies[1..], frame);
      var rest := OfSign(copies[1..], frame < 0);
      if Selected(copies[0], frame) {
        assert ([copies[0]] + rest)[1..] == rest;
      } else {
        assert [] + rest == rest;
        assert [] + InActions(copies[1..], frame) == InActions(copies[1..], frame);
        assert [] + OutActions(copies[1..], frame) == OutActions(copies[1..], frame);
      }
    }
  }

  lemma {:induction false} AsGiven(copies: seq<FileCopy>, frame: int)
    requires frame < 0
    ensures Puts(copies, frame) == PutsAsGiven(copies) && Fetches(copies, frame) == FetchesAsGiven(copies)
  {
    if copies != [] {
      AsGiven(copies[1..], frame);
    }
  }

  lemma {:induction false} ArgumentsAsGiven(templates: seq<string>, frame: int)
    requires frame < 0
    ensures SubstituteAll(templates, frame) == templates
  {
    if templates != [] {
      ArgumentsAsGiven(templates[..|templates| - 1], frame);
    }
  }

  /**
   * A negative frame is the files of the setup again, the program with its
   * arguments as given, and the out-copies without a parameter. It is the same
   * for all negative frames.
   */
  lemma NegativeScript(ps: Parameters, frame: int)
    requires frame < 0
    ensures FrameScript(ps, frame) == PutsAsGiven(OfSign(ps.inCopies, true))
      + [RunProgram(ps.executable, ps.arguments)] + FetchesAsGiven(OfSign(ps.outCopies, true))
    ensures SetupScript(ps) == [Hello] + PutsAsGiven(OfSign(ps.inCopies, true))
  {
    hide InActions, OutActions, Puts, Fetches, PutsAsGiven, FetchesAsGiven, SubstituteAll, OfSign;
    CopiesBySign(ps.inCopies, frame);
    CopiesBySign(ps.inCopies, -1);
    CopiesBySign(ps.outCopies, frame);
    AsGiven(OfSign(ps.inCopies, true), frame);
    AsGiven(OfSign(ps.inCopies, true), -1);
    AsGiven(OfSign(ps.outCopies, true), frame);
    ArgumentsAsGiven(ps.arguments, frame);
  }

  // What the documentation promises for a frame.

  /** The copies with a parameter around the program. */
  function Documented(ps: Parameters, frame: int): seq<Action> {
    Puts(OfSign(ps.inCopies, false), frame) + [RunAction(ps, frame)] + Fetches(OfSign(ps.outCopies, false), frame)
  }

  lemma {:induction false} OfSignIs(copies: seq<FileCopy>, negative: bool)
    ensures forall k :: 0 <= k < |OfSign(copies, negative)| ==> OfSign(copies, negative)[k].HasParameter() != negative
    ensures copies != [] && OfSign(copies, negative) == [] ==> OfSign(copies, !negative) != []
  {
    hide StringHasParameter;
    if copies != [] {
      OfSignIs(copies[1..], negative);
    }
  }

  /** What has a parameter is not taken for what has none. */
  lemma SignsDiffer(a: seq<FileCopy>, b: seq<FileCopy>, frame: int)
    requires frame < 0 && a != [] && b != [] && a[0].HasParameter() != b[0].HasParameter()
    ensures Puts(a, frame)[0] != Puts(b, frame)[0] && Fetches(a, frame)[0] != Fetches(b, frame)[0]
  {
    hide StringHasParameter;
  }

  lemma {:induction false} PutsPut(copies: seq<FileCopy>, frame: int, k: nat)
    requires k < |copies|
    ensures Puts(copies, frame)[k].PutFile?
  {
    hide Substitute;
    if k > 0 {
      PutsPut(copies[1..], frame, k - 1);
    }
  }

  lemma NotShorter(a: seq<FileCopy>, b: seq<FileCopy>, run: Action, x: seq<Action>, y: seq<Action>, frame: int)
    requires run.RunProgram? && Puts(a, frame) + [run] + x == Puts(b, frame) + [run] + y
    ensures |a| >= |b|
  {
    hide Puts;
    if |a| < |b| {
      assert (Puts(a, frame) + [run] + x)[|a|] == run;
      PutsPut(b, frame, |a|);
      assert false;
    }
  }

  /** Where the program comes in the list tells the two parts apart. */
  lemma SamePuts(a: seq<FileCopy>, b: seq<FileCopy>, run: Action, x: seq<Action>, y: seq<Action>, frame: int)
    requires run.RunProgram? && Puts(a, frame) + [run] + x == Puts(b, frame) + [run] + y
    ensures Puts(a, frame) == Puts(b, frame) && x == y
  {
    hide Puts;
    NotShorter(a, b, run, x, y, frame);
    NotShorter(b, a, run, y, x, frame);
    var left, right := Puts(a, frame) + [run] + x, Puts(b, frame) + [run] + y;
    assert Puts(a, frame) == left[..|a|] == right[..|a|] == Puts(b, frame);
    assert x == left[|a| + 1..] == right[|a| + 1..] == y;
  }

  lemma NoCopies(copies: seq<FileCopy>, frame: int)
    requires frame < 0
    requires (Puts(OfSign(copies, true), frame) == Puts(OfSign(copies, false), frame))
      || (Fetches(OfSign(copies, true), frame) == Fetches(OfSign(copies, false), frame))
    ensures copies == []
  {
    hide StringHasParameter;
    OfSignIs(copies, true);
    OfSignIs(copies, false);
    var a, b := OfSign(copies, true), OfSign(copies, false);
    if a != [] && b != [] {
      SignsDiffer(a, b, frame);
    }
  }

  lemma NothingOfSign()
    ensures OfSign([], true) == OfSign([], false) == []
  {
  }

  /** A frame is treated as documented exactly if it is not negative, or there is nothing to be copied. */
  lemma DocumentedExactly(ps: Parameters, frame: int)
    ensures FrameScript(ps, frame) == Documented(ps, frame)
      <==> frame >= 0 || (ps.inCopies == [] && ps.outCopies == [])
  {
    hide Puts, Fetches, OfSign, InActions, OutActions;
    CopiesBySign(ps.inCopies, frame);
    CopiesBySign(ps.outCopies, frame);
    if frame < 0 && FrameScript(ps, frame) == Documented(ps, frame) {
      SamePuts(OfSign(ps.inCopies, true), OfSign(ps.inCopies, false), RunAction(ps, frame),
        Fetches(OfSign(ps.outCopies, true), frame), Fetches(OfSign(ps.outCopies, false), frame), frame);
      NoCopies(ps.inCopies, frame);
      NoCopies(ps.outCopies, frame);
    }
    if ps.inCopies == [] && ps.outCopies == [] {
      NothingOfSign();
    }
  }

  lemma NegativeFrames(ps: Parameters, done: seq<Exchange>, f: int, g: int)
    requires f < 0 && g < 0 && Processed(ps, done, f)
    ensures Processed(ps, done, g)
  {
    hide FrameScript, Successful;
    NegativeScript(ps, f);
    NegativeScript(ps, g);
    assert FrameScript(ps, f) == FrameScript(ps, g);
    var i: nat :| ProcessedAt(ps, done, f, i);
    assert ProcessedAt(ps, done, g, i);
  }

  /** No frame of the list can be lost over the number -1, as module Sentinel proves. */
  ghost predicate Keeps(frames: seq<int>) {
    -1 in frames ==> exists g :: g in frames && g < -1
  }
}
