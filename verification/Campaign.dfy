/** From a frame range to the files on the controller's disk. */
module Campaign {
  import opened Wrappers
  import opened Framing
  import opened Template
  import opened Protocol
  import opened Signs
  import opened Scheduler
  import opened Walks
  import opened Guarantees
  import FrameRange

  /** A frame is in the range if stepping from the first one meets it before the end. */
  ghost predicate InRange(r: FrameRange.Range, frame: int) {
    !FrameRange.PastEnd(r, frame) && exists k: nat :: frame == FrameRange.Iterate(r, k)
  }

  /**
   * When the main loop exits normally, every frame of the range but -1 has had
   * each of its outputs written: those with a parameter for a frame that is not
   * negative, those without one for a negative frame.
   */
  lemma AllOutputsWritten(ps: Parameters, codec: Codec, r: FrameRange.Range, rounds: seq<Events>, frame: int,
      copy: FileCopy)
    returns (w: WorkerState, content: Bytes)
    requires FrameRange.Ends(r) && Run(ps, codec, Start(FrameRange.All(r)), rounds).Finished?
    requires InRange(r, frame) && frame != -1 && copy in ps.outCopies && Selected(copy, frame)
    ensures var c := Run(ps, codec, Start(FrameRange.All(r)), rounds).controller; w in c.live + c.dead
    ensures File(Substitute(copy.destination, frame), content) in w.files
  {
    hide Run, Processed, WorkerInv, Substitute, StringHasParameter;
    FrameRange.Membership(r, frame);
    var frames := FrameRange.All(r);
    Completeness(ps, codec, frames, rounds, frame);
    var c := Run(ps, codec, Start(frames), rounds).controller;
    w :| w in c.live + c.dead && Processed(ps, w.done, frame);
    ReachedAtEnd(ps, codec, frames, rounds, w);
    content := OutputsWritten(ps, w, frame, copy);
  }

  // What the disk holds in the end.

  /** Outputs of different copies never have the same name; those of one copy differ by Template.Injective. */
  ghost predicate NamesApart(ps: Parameters) {
    forall a, b, f: int, g: int ::
      a in ps.outCopies && b in ps.outCopies && a != b && Selected(a, f) && Selected(b, g) ==>
        Substitute(a.destination, f) != Substitute(b.destination, g)
  }

  /** All files written over all connections, in whatever order the controller wrote them. */
  ghost predicate WriteOrder(order: seq<File>, c: Controller) {
    forall x :: x in order <==> exists w :: w in c.live + c.dead && x in w.files
  }

  /** The content left under a name. */
  function LastWrite(order: seq<File>, name: string): (content: Option<Bytes>)
    ensures content.Some? ==> File(name, content.value) in order
    ensures content.None? ==> forall x :: x in order ==> x.pathname != name
  {
    if order == [] then None
    else
      var n := |order| - 1;
      if order[n].pathname == name then Some(order[n].content) else LastWrite(order[..n], name)
  }

  lemma {:induction false} WrittenWasFetched(done: seq<Exchange>, x: File) returns (k: nat)
    requires x in FilesOf(done)
    ensures k < |done| && done[k].action.FetchFile?
    ensures x == File(done[k].action.destination, done[k].response.content)
  {
    var n := |done| - 1;
    if x in FilesOf(done[..n]) {
      k := WrittenWasFetched(done[..n], x);
    } else {
      k := n;
    }
  }

  lemma {:induction false} InActionsPut(copies: seq<FileCopy>, frame: int, k: nat)
    requires k < |InActions(copies, frame)|
    ensures InActions(copies, frame)[k].PutFile?
  {
    hide Selected, Substitute;
    var here := if Selected(copies[0], frame) then 1 else 0;
    if k >= here {
      InActionsPut(copies[1..], frame, k - here);
    }
  }

  lemma {:induction false} OutActionsFetch(copies: seq<FileCopy>, frame: int, k: nat) returns (copy: FileCopy)
    requires k < |OutActions(copies, frame)|
    ensures copy in copies && Selected(copy, frame) && OutActions(copies, frame)[k] == FetchAction(copy, frame)
  {
    hide Selected, Substitute;
    var here := if Selected(copies[0], frame) then 1 else 0;
    if k >= here {
      copy := OutActionsFetch(copies[1..], frame, k - here);
    } else {
      copy := copies[0];
    }
  }

  /** A fetch in a script is that of an out-copy for one of the frames given. */
  lemma {:induction false} ScriptFetch(ps: Parameters, given: seq<int>, k: nat) returns (copy: FileCopy, frame: int)
    requires k < |Script(ps, given)| && Script(ps, given)[k].FetchFile?
    ensures copy in ps.outCopies && Selected(copy, frame) && Script(ps, given)[k] == FetchAction(copy, frame)
    ensures frame in given
  {
    hide InActions, OutActions, Selected, Substitute, SubstituteAll;
    if given == [] {
      InActionsPut(ps.inCopies, -1, k - 1);
      assert false;
    } else {
      var before, f := Script(ps, DropLast(given)), given[|given| - 1];
      var ins := |InActions(ps.inCopies, f)|;
      if k < |before| {
        copy, frame := ScriptFetch(ps, DropLast(given), k);
      } else {
        var j := k - |before|;
        assert Script(ps, given)[k] == FrameScript(ps, f)[j];
        if j < ins {
          InActionsPut(ps.inCopies, f, j);
        }
        copy := OutActionsFetch(ps.outCopies, f, j - ins - 1);
        frame := f;
      }
    }
  }

  /** The outputs whose names tell frames apart, as far as their actions differ. */
  predicate Named(copy: FileCopy, frame: int) {
    Selected(copy, frame) && (frame >= 0 ==> StringHasParameter(copy.destination))
  }

  /** The same output for the same frame, or one without a parameter for any two negative frames. */
  predicate SameOutput(f: int, g: int) {
    f == g || (f < 0 && g < 0)
  }

  lemma SameFetch(copy: FileCopy, f: int, g: int)
    requires SameOutput(f, g)
    ensures FetchAction(copy, f) == FetchAction(copy, g)
  {
  }

  /** Whatever was written under the name of an output is an answer to the fetch of that output. */
  lemma WrittenIsFetched(ps: Parameters, w: WorkerState, x: File, copy: FileCopy, frame: int) returns (k: nat, g: int)
    requires WorkerInv(ps, w) && x in w.files && NamesApart(ps)
    requires copy in ps.outCopies && Named(copy, frame) && x.pathname == Substitute(copy.destination, frame)
    ensures k < |w.done| && w.done[k].action == FetchAction(copy, frame) && Successful(w.done[k])
    ensures w.done[k].response.content == x.content
    ensures g in w.given && SameOutput(frame, g)
  {
    hide Substitute, StringHasParameter, FilesOf, Script;
    k := WrittenWasFetched(w.done, x);
    assert Actions(w.done)[k] == (Actions(w.done) + Outstanding(w.phase))[k];
    var other;
    other, g := ScriptFetch(ps, w.given, k);
    assert other == copy;
    if frame >= 0 {
      Injective(copy.destination, frame, g);
    }
    SameFetch(copy, frame, g);
  }

  /**
   * When the main loop exits normally the file of every output of every frame
   * of the range but -1 holds, under its own name, what a worker answered to
   * the fetch of that output for that frame, in whatever order files were
   * written. An output without a parameter is one file for all negative frames.
   */
  lemma FinalOutputs(ps: Parameters, codec: Codec, r: FrameRange.Range, rounds: seq<Events>, frame: int, copy: FileCopy,
      order: seq<File>)
    returns (w: WorkerState, k: nat)
    requires FrameRange.Ends(r) && Run(ps, codec, Start(FrameRange.All(r)), rounds).Finished?
    requires InRange(r, frame) && frame != -1 && copy in ps.outCopies && Named(copy, frame)
    requires NamesApart(ps) && WriteOrder(order, Run(ps, codec, Start(FrameRange.All(r)), rounds).controller)
    ensures var c := Run(ps, codec, Start(FrameRange.All(r)), rounds).controller; w in c.live + c.dead
    ensures k < |w.done| && w.done[k].action == FetchAction(copy, frame) && Successful(w.done[k])
    ensures LastWrite(order, Substitute(copy.destination, frame)) == Some(w.done[k].response.content)
  {
    hide Run, WorkerInv, Substitute, StringHasParameter, LastWrite, NamesApart, InRange, Successful;
    var frames := FrameRange.All(r);
    var c := Run(ps, codec, Start(frames), rounds).controller;
    var name := Substitute(copy.destination, frame);
    var first, content := AllOutputsWritten(ps, codec, r, rounds, frame, copy);
    assert File(name, content) in order;
    var left := LastWrite(order, name);
    assert left.Some?;
    var x := File(name, left.value);
    w :| w in c.live + c.dead && x in w.files;
    ReachedAtEnd(ps, codec, frames, rounds, w);
    var g;
    k, g := WrittenIsFetched(ps, w, x, copy, frame);
  }

  // Which outputs there are in the end.

  ghost predicate Wrote(c: Controller, name: string) {
    exists w, x :: w in c.live + c.dead && x in w.files && x.pathname == name
  }

  lemma FrameIsWritten(ps: Parameters, codec: Codec, frames: seq<int>, rounds: seq<Events>, frame: int, copy: FileCopy)
    requires Run(ps, codec, Start(frames), rounds).Finished?
    requires frame in frames && frame != -1 && copy in ps.outCopies && Selected(copy, frame)
    ensures Wrote(Run(ps, codec, Start(frames), rounds).controller, Substitute(copy.destination, frame))
  {
    hide Run, Processed, WorkerInv, Substitute, StringHasParameter;
    Completeness(ps, codec, frames, rounds, frame);
    var c := Run(ps, codec, Start(frames), rounds).controller;
    var w :| w in c.live + c.dead && Processed(ps, w.done, frame);
    ReachedAtEnd(ps, codec, frames, rounds, w);
    var content := OutputsWritten(ps, w, frame, copy);
    assert File(Substitute(copy.destination, frame), content).pathname == Substitute(copy.destination, frame);
  }

  /**
   * After a normal exit the file of an output is there exactly if its frame is
   * in the list; for an output without a parameter, exactly if some negative
   * frame is.
   */
  lemma WrittenExactly(ps: Parameters, codec: Codec, frames: seq<int>, rounds: seq<Events>, frame: int, copy: FileCopy)
    requires Run(ps, codec, Start(frames), rounds).Finished? && Keeps(frames)
    requires NamesApart(ps) && copy in ps.outCopies && Named(copy, frame)
    ensures Wrote(Run(ps, codec, Start(frames), rounds).controller, Substitute(copy.destination, frame))
      <==> exists g :: g in frames && SameOutput(frame, g)
  {
    hide Run, WorkerInv, Substitute, StringHasParameter, NamesApart, OnlyFrom;
    var c, name := Run(ps, codec, Start(frames), rounds).controller, Substitute(copy.destination, frame);
    if Wrote(c, name) {
      var w, x :| w in c.live + c.dead && x in w.files && x.pathname == name;
      ReachedAtEnd(ps, codec, frames, rounds, w);
      var k, g := WrittenIsFetched(ps, w, x, copy, frame);
      GivenAtEnd(ps, codec, frames, rounds, w, g);
      assert g in frames && SameOutput(frame, g);
    }
    if exists g :: g in frames && SameOutput(frame, g) {
      var g :| g in frames && g != -1 && SameOutput(frame, g);
      SameFetch(copy, frame, g);
      FrameIsWritten(ps, codec, frames, rounds, g, copy);
    }
  }

  /**
   * If no out-copy has a parameter, something is written exactly if a frame is
   * negative; if all have one, exactly if a frame is not.
   */
  lemma SomethingWrittenExactly(ps: Parameters, codec: Codec, frames: seq<int>, rounds: seq<Events>, parametric: bool)
    requires Run(ps, codec, Start(frames), rounds).Finished? && Keeps(frames)
    requires ps.outCopies != [] && forall copy :: copy in ps.outCopies ==> copy.HasParameter() == parametric
    ensures var c := Run(ps, codec, Start(frames), rounds).controller;
      (exists w :: w in c.live + c.dead && w.files != []) <==> exists f :: f in frames && (f >= 0) == parametric
  {
    hide Run, WorkerInv, Substitute, StringHasParameter, OnlyFrom;
    var c := Run(ps, codec, Start(frames), rounds).controller;
    if w :| w in c.live + c.dead && w.files != [] {
      ReachedAtEnd(ps, codec, frames, rounds, w);
      var f := SomeFrame(ps, w);
      GivenAtEnd(ps, codec, frames, rounds, w, f.1);
      assert f.0.HasParameter() == parametric;
    }
    if exists f :: f in frames && (f >= 0) == parametric {
      var f :| f in frames && f != -1 && (f >= 0) == parametric;
      assert ps.outCopies[0] in ps.outCopies;
      FrameIsWritten(ps, codec, frames, rounds, f, ps.outCopies[0]);
    }
  }

  /** A file written was an out-copy of a frame given. */
  lemma SomeFrame(ps: Parameters, w: WorkerState) returns (r: (FileCopy, int))
    requires WorkerInv(ps, w) && w.files != []
    ensures r.0 in ps.outCopies && Selected(r.0, r.1) && r.1 in w.given
  {
    hide Selected, FilesOf, Script;
    var k := WrittenWasFetched(w.done, w.files[0]);
    assert Actions(w.done)[k] == (Actions(w.done) + Outstanding(w.phase))[k];
    var copy, f := ScriptFetch(ps, w.given, k);
    r := (copy, f);
  }

  lemma GivenAtEnd(ps: Parameters, codec: Codec, frames: seq<int>, rounds: seq<Events>, w: WorkerState, f: int)
    requires Run(ps, codec, Start(frames), rounds).Finished? && f in w.given
    requires var c := Run(ps, codec, Start(frames), rounds).controller; w in c.live + c.dead
    ensures f in frames
  {
    hide Run, Reached;
    StartReached(ps, codec, frames);
    RunReached(ps, codec, frames, Start(frames), rounds);
    ReachedWithin(ps, codec, frames, Run(ps, codec, Start(frames), rounds).controller);
  }

  lemma ReachedAtEnd(ps: Parameters, codec: Codec, frames: seq<int>, rounds: seq<Events>, w: WorkerState)
    requires Run(ps, codec, Start(frames), rounds).Finished?
    requires var c := Run(ps, codec, Start(frames), rounds).controller; w in c.live + c.dead
    ensures WorkerInv(ps, w)
  {
    hide Run, Reached, WorkerInv;
    StartReached(ps, codec, frames);
    RunReached(ps, codec, frames, Start(frames), rounds);
    ReachedOnScript(ps, codec, frames, Run(ps, codec, Start(frames), rounds).controller, w);
  }

  /** No frame of a range ever has two owners, in whatever state of whatever round. */
  lemma OwnersOfRange(ps: Parameters, codec: Codec, r: FrameRange.Range, c: Controller, frame: int)
    requires FrameRange.Ends(r) && Reached(ps, codec, FrameRange.All(r), c)
    ensures Owners(c, frame) <= if InRange(r, frame) then 1 else 0
  {
    hide Reached;
    var frames := FrameRange.All(r);
    forall i: nat, j: nat | i < j < |frames| ensures frames[i] != frames[j] {
      FrameRange.Distinct(r, i, j);
    }
    SingleOwner(ps, codec, frames, c, frame);
    FrameRange.Membership(r, frame);
    if !InRange(r, frame) {
      NoOwner(ps, codec, frames, c, frame);
    }
  }
}
