/** What is asked of the workers, spelled out from the parameters. */
module Work {
  import opened Template
  import opened Protocol
  import opened Scheduler
  import opened Guarantees

  // One action.

  /** The template holds "%d" or "%0Nd" before any NUL. */
  ghost predicate HoldsParameter(template: string) {
    exists b: nat, e: nat :: IsParameter(template, b, e) && Visible(template, b)
  }

  /** Copies with a parameter in either name are for frames, the others for the setup and for negative frames. */
  ghost predicate Belongs(copy: FileCopy, frame: int) {
    frame >= 0 <==> HoldsParameter(copy.source) || HoldsParameter(copy.destination)
  }

  lemma BelongsExactly(copy: FileCopy, frame: int)
    ensures Selected(copy, frame) <==> Belongs(copy, frame)
  {
    LeftmostMatch(copy.source);
    LeftmostMatch(copy.destination);
  }

  predicate Puts(copy: FileCopy, frame: int, a: Action) {
    a == PutFile(Substitute(copy.source, frame), Substitute(copy.destination, frame))
  }

  predicate Fetches(copy: FileCopy, frame: int, a: Action) {
    a == FetchFile(Substitute(copy.source, frame), Substitute(copy.destination, frame))
  }

  /** The program with each of its arguments substituted, in order. */
  predicate Runs(ps: Parameters, frame: int, a: Action) {
    && a.RunProgram? && a.executable == ps.executable && |a.arguments| == |ps.arguments|
    && forall k :: 0 <= k < |ps.arguments| ==> a.arguments[k] == Substitute(ps.arguments[k], frame)
  }

  // All that is done for a frame.

  predicate Ascending(places: seq<nat>, bound: nat) {
    && (forall i, j :: 0 <= i < j < |places| ==> places[i] < places[j])
    && (forall i :: 0 <= i < |places| ==> places[i] < bound)
  }

  predicate Listed(places: seq<nat>, k: nat) {
    exists i :: 0 <= i < |places| && places[i] == k
  }

  /** The places of the copies that belong to the frame, in the order of the list. */
  ghost predicate Enumerates(places: seq<nat>, copies: seq<FileCopy>, frame: int) {
    && Ascending(places, |copies|)
    && forall k :: 0 <= k < |copies| ==> (Listed(places, k) <==> Belongs(copies[k], frame))
  }

  ghost predicate AllPut(copies: seq<FileCopy>, frame: int, actions: seq<Action>) {
    exists places: seq<nat> :: Enumerates(places, copies, frame) && |actions| == |places|
      && forall j :: 0 <= j < |places| && places[j] < |copies| ==> Puts(copies[places[j]], frame, actions[j])
  }

  ghost predicate AllFetched(copies: seq<FileCopy>, frame: int, actions: seq<Action>) {
    exists places: seq<nat> :: Enumerates(places, copies, frame) && |actions| == |places|
      && forall j :: 0 <= j < |places| && places[j] < |copies| ==> Fetches(copies[places[j]], frame, actions[j])
  }

  /** The in-copies that belong to the frame, one run, the out-copies that belong to it. */
  ghost predicate IsFrameWork(ps: Parameters, frame: int, actions: seq<Action>) {
    exists r: nat :: r < |actions| && Runs(ps, frame, actions[r])
      && AllPut(ps.inCopies, frame, actions[..r]) && AllFetched(ps.outCopies, frame, actions[r + 1..])
  }

  function Next(places: seq<nat>): (r: seq<nat>)
    ensures |r| == |places| && forall i :: 0 <= i < |r| ==> r[i] == places[i] + 1
  {
    seq(|places|, i requires 0 <= i < |places| => places[i] + 1)
  }

  lemma NextAscends(places: seq<nat>, bound: nat)
    requires Ascending(places, bound)
    ensures Ascending(Next(places), bound + 1) && Ascending([0] + Next(places), bound + 1)
  {
    hide Next;
  }

  lemma NextLists(places: seq<nat>, k: nat)
    ensures Listed(Next(places), k + 1) <==> Listed(places, k)
    ensures !Listed(Next(places), 0)
  {
    var next := Next(places);
    if Listed(places, k) {
      var i :| 0 <= i < |places| && places[i] == k;
      assert next[i] == k + 1;
    }
    if Listed(next, k + 1) {
      var i :| 0 <= i < |next| && next[i] == k + 1;
      assert places[i] == k;
    }
  }

  lemma FirstLists(places: seq<nat>, k: nat)
    ensures Listed([0] + places, k) <==> k == 0 || Listed(places, k)
  {
    var all := [0] + places;
    assert all[0] == 0;
    if Listed(places, k) {
      var i :| 0 <= i < |places| && places[i] == k;
      assert all[i + 1] == k;
    }
    if Listed(all, k) && k != 0 {
      var i :| 0 <= i < |all| && all[i] == k;
      assert places[i - 1] == k;
    }
  }

  lemma EnumeratesMore(places: seq<nat>, copies: seq<FileCopy>, frame: int)
    requires copies != [] && Enumerates(places, copies[1..], frame)
    ensures Enumerates(if Selected(copies[0], frame) then [0] + Next(places) else Next(places), copies, frame)
  {
    hide Belongs, Selected, Listed, Ascending;
    BelongsExactly(copies[0], frame);
    NextAscends(places, |copies| - 1);
    forall k | 0 <= k < |copies|
      ensures Listed(Next(places), k) <==> k > 0 && Belongs(copies[k], frame)
      ensures Listed([0] + Next(places), k) <==> k == 0 || Belongs(copies[k], frame)
    {
      FirstLists(Next(places), k);
      if k > 0 {
        assert copies[1..][k - 1] == copies[k];
        NextLists(places, k - 1);
      } else {
        NextLists(places, 0);
      }
    }
  }

  /** What the actions of the later copies are, they are behind that of the first. */
  predicate Placed(copies: seq<FileCopy>, places: seq<nat>, frame: int, puts: seq<Action>, fetches: seq<Action>) {
    && |puts| == |fetches| == |places|
    && forall j :: 0 <= j < |places| && places[j] < |copies| ==>
         Puts(copies[places[j]], frame, puts[j]) && Fetches(copies[places[j]], frame, fetches[j])
  }

  lemma PlacedNext(copies: seq<FileCopy>, places: seq<nat>, frame: int, puts: seq<Action>, fetches: seq<Action>)
    requires copies != [] && Placed(copies[1..], places, frame, puts, fetches)
    ensures Placed(copies, Next(places), frame, puts, fetches)
    ensures Placed(copies, [0] + Next(places), frame,
                   [PutAction(copies[0], frame)] + puts, [FetchAction(copies[0], frame)] + fetches)
  {
    hide Substitute, Next;
    var next := Next(places);
    forall j | 0 <= j < |next| && next[j] < |copies|
      ensures Puts(copies[next[j]], frame, puts[j]) && Fetches(copies[next[j]], frame, fetches[j])
    {
      assert next[j] == places[j] + 1 && copies[next[j]] == copies[1..][places[j]];
    }
  }

  lemma {:induction false} CopyPlaces(copies: seq<FileCopy>, frame: int) returns (places: seq<nat>)
    ensures Enumerates(places, copies, frame)
    ensures Placed(copies, places, frame, InActions(copies, frame), OutActions(copies, frame))
  {
    hide PutAction, FetchAction, Selected, Enumerates, Placed;
    if copies == [] {
      places := [];
      NothingPlaced(frame);
    } else {
      var rest := CopyPlaces(copies[1..], frame);
      EnumeratesMore(rest, copies, frame);
      PlacedNext(copies, rest, frame, InActions(copies[1..], frame), OutActions(copies[1..], frame));
      assert [] + InActions(copies[1..], frame) == InActions(copies[1..], frame);
      assert [] + OutActions(copies[1..], frame) == OutActions(copies[1..], frame);
      places := if Selected(copies[0], frame) then [0] + Next(rest) else Next(rest);
    }
  }

  lemma NothingPlaced(frame: int)
    ensures Enumerates([], [], frame) && Placed([], [], frame, [], [])
  {
  }

  /** A script holds this work and nothing else. */
  lemma FrameScriptIsWork(ps: Parameters, frame: int)
    ensures IsFrameWork(ps, frame, FrameScript(ps, frame))
  {
    hide Substitute, Enumerates, InActions, OutActions;
    var ins := CopyPlaces(ps.inCopies, frame);
    var outs := CopyPlaces(ps.outCopies, frame);
    var script, r := FrameScript(ps, frame), |InActions(ps.inCopies, frame)|;
    assert script[r] == RunAction(ps, frame);
    assert script[..r] == InActions(ps.inCopies, frame) && script[r + 1..] == OutActions(ps.outCopies, frame);
    assert AllPut(ps.inCopies, frame, script[..r]) && AllFetched(ps.outCopies, frame, script[r + 1..]);
  }

  lemma SetupIsWork(ps: Parameters)
    ensures SetupScript(ps)[0] == Hello && AllPut(ps.inCopies, -1, SetupScript(ps)[1..])
  {
    hide Substitute, Enumerates;
    var ins := CopyPlaces(ps.inCopies, -1);
    assert SetupScript(ps)[1..] == InActions(ps.inCopies, -1);
  }

  // What runs leave behind.

  /** The work of the frame was done in one go, and all of it succeeded. */
  ghost predicate WorkDone(ps: Parameters, done: seq<Exchange>, frame: int) {
    exists i: nat, j: nat :: i <= j <= |done| && IsFrameWork(ps, frame, Actions(done)[i..j])
      && forall k :: i <= k < j ==>
        && (done[k].action.PutFile? ==> done[k].response.copiedIn)
        && (done[k].action.RunProgram? ==> done[k].response.status == 0)
        && (done[k].action.FetchFile? ==> done[k].response.copiedOut)
  }

  lemma ProcessedIsDone(ps: Parameters, done: seq<Exchange>, frame: int)
    requires Processed(ps, done, frame)
    ensures WorkDone(ps, done, frame)
  {
    hide FrameScript, IsFrameWork;
    FrameScriptIsWork(ps, frame);
    var i: nat :| ProcessedAt(ps, done, frame, i);
    var j := i + |FrameScript(ps, frame)|;
    assert IsFrameWork(ps, frame, Actions(done)[i..j]);
  }

  /** After a normal exit the work of every frame but -1 has been done over one connection. */
  lemma AllWorkDone(ps: Parameters, codec: Codec, frames: seq<int>, rounds: seq<Events>, frame: int)
    requires Run(ps, codec, Start(frames), rounds).Finished? && frame in frames && frame != -1
    ensures var c := Run(ps, codec, Start(frames), rounds).controller;
      exists w :: w in c.live + c.dead && WorkDone(ps, w.done, frame)
  {
    hide Run, WorkDone, Processed;
    Completeness(ps, codec, frames, rounds, frame);
    var c := Run(ps, codec, Start(frames), rounds).controller;
    var w :| w in c.live + c.dead && Processed(ps, w.done, frame);
    ProcessedIsDone(ps, w.done, frame);
  }
}
