/** Any sequence of messages through any split into sends and receives. */
module Stream {
  import opened Wrappers
  import opened Framing

  /**
   * `todo` has not been given to the sender yet, `unsent` is left in its
   * buffer, `wire` is in flight and `progress` is in the receiver's buffer.
   */
  datatype Pipe = Pipe(todo: seq<Bytes>, unsent: Bytes, wire: Bytes, progress: Bytes, delivered: seq<Bytes>)

  datatype Event = SetMessage | Send(count: nat) | Recv(count: nat)

  function Frames(payloads: seq<Bytes>): Bytes {
    if payloads == [] then [] else Frame(payloads[0]) + Frames(payloads[1..])
  }

  predicate Fits(payloads: seq<Bytes>) {
    forall k :: 0 <= k < |payloads| ==> |payloads[k]| <= MAX_INCOMING_FILE_SIZE
  }

  function Start(payloads: seq<Bytes>): Pipe {
    Pipe(payloads, [], [], [], [])
  }

  /** None is the receiver giving up. A recv without bytes in flight waits. */
  function Step(p: Pipe, e: Event): Option<Pipe> {
    match e
    case SetMessage =>
      Some(if p.unsent == [] && p.todo != [] then p.(todo := p.todo[1..], unsent := Frame(p.todo[0])) else p)
    case Send(count) =>
      var n := Min(count, |p.unsent|);
      Some(p.(unsent := p.unsent[n..], wire := p.wire + p.unsent[..n]))
    case Recv(count) =>
      var offered := p.wire[..Min(count, |p.wire|)];
      if offered == [] then Some(p)
      else match Receive(p.progress, Offered(offered))
        case Progressed(next) =>
          var wire := p.wire[|next| - |p.progress|..];
          Some(if Complete(next)
               then p.(wire := wire, progress := [], delivered := p.delivered + [Payload(next)])
               else p.(wire := wire, progress := next))
        case _ => None
  }

  function Run(p: Pipe, events: seq<Event>): Option<Pipe>
    decreases |events|
  {
    if events == [] then Some(p)
    else match Step(p, events[0]) case None => None case Some(q) => Run(q, events[1..])
  }

  /** What is delivered, and what the bytes not yet delivered still spell. */
  predicate Invariant(payloads: seq<Bytes>, p: Pipe) {
    && p.delivered <= payloads
    && p.progress + p.wire + p.unsent + Frames(p.todo) == Frames(payloads[|p.delivered|..])
    && |p.delivered| + |p.todo| <= |payloads| && p.todo == payloads[|payloads| - |p.todo|..]
    && !Complete(p.progress)
  }

  /** Two ways to cut the same bytes. */
  lemma CutsAgree(progress: Bytes, wire: Bytes, behind: Bytes, f: Bytes, g: Bytes)
    requires progress + wire + behind == f + g && |progress| <= |f|
    ensures f == progress + f[|progress|..]
    ensures wire <= f[|progress|..] || f[|progress|..] <= wire
  {
    var all := f + g;
    assert f == all[..|f|] && progress == all[..|progress|];
    assert wire == all[|progress|..|progress| + |wire|];
    assert f[|progress|..] == all[|progress|..|f|];
  }

  lemma HoldsFrame(progress: Bytes, payload: Bytes)
    requires |payload| <= MAX_MESSAGE_SIZE
    requires Frame(payload) <= progress
    ensures Complete(progress)
  {
    HeaderRoundTrip(|payload|);
    assert forall k :: 0 <= k < HEADER_SIZE ==> progress[k] == Frame(payload)[k] == Header(|payload|)[k];
  }

  lemma UndeliveredFront(payloads: seq<Bytes>, p: Pipe)
    requires Invariant(payloads, p) && Fits(payloads) && p.progress + p.wire != []
    ensures |p.delivered| < |payloads|
    ensures var payload := payloads[|p.delivered|];
      && |p.progress| < |Frame(payload)|
      && Frame(payload) == p.progress + Frame(payload)[|p.progress|..]
      && (p.wire <= Frame(payload)[|p.progress|..] || Frame(payload)[|p.progress|..] <= p.wire)
  {
    hide Header, SizeOf, Complete;
    var rest := payloads[|p.delivered|..];
    var behind := p.unsent + Frames(p.todo);
    assert p.progress + p.wire + behind == p.progress + p.wire + p.unsent + Frames(p.todo);
    assert rest != [];
    var f := Frame(rest[0]);
    if |p.progress| >= |f| {
      assert f + [] + Frames(rest[1..]) == Frames(rest);
      assert p.progress + (p.wire + behind) == p.progress + p.wire + p.unsent + Frames(p.todo);
      CutsAgree(f, [], Frames(rest[1..]), p.progress, p.wire + behind);
      HoldsFrame(p.progress, rest[0]);
      assert false;
    }
    CutsAgree(p.progress, p.wire, behind, f, Frames(rest[1..]));
  }

  lemma StepKeeps(payloads: seq<Bytes>, p: Pipe, e: Event)
    requires Invariant(payloads, p) && Fits(payloads)
    ensures Step(p, e).Some? && Invariant(payloads, Step(p, e).value)
  {
    hide Header, SizeOf, Complete, Receive, Want, Payload;
    match e
    case SetMessage =>
      if p.unsent == [] && p.todo != [] {
        var q := Step(p, e).value;
        assert q.progress + q.wire + q.unsent + Frames(q.todo)
            == p.progress + p.wire + p.unsent + Frames(p.todo);
      }
    case Send(count) =>
      var n := Min(count, |p.unsent|);
      assert p.unsent == p.unsent[..n] + p.unsent[n..];
      var q := Step(p, e).value;
      assert q.progress + q.wire + q.unsent == p.progress + p.wire + p.unsent;
    case Recv(count) =>
      if p.wire != [] && count != 0 {
        RecvKeeps(payloads, p, count);
      }
  }

  /** The receiver moves n bytes of the current message over, never more. */
  lemma RecvMoves(payloads: seq<Bytes>, p: Pipe, count: nat) returns (n: nat)
    requires Invariant(payloads, p) && Fits(payloads) && p.wire != [] && count > 0
    ensures 0 < n <= |p.wire| && |p.delivered| < |payloads|
    ensures var next := p.progress + p.wire[..n];
      && Receive(p.progress, Offered(p.wire[..Min(count, |p.wire|)])) == Progressed(next)
      && |next| <= |Frame(payloads[|p.delivered|])|
      && (Complete(next) ==> next == Frame(payloads[|p.delivered|]) && Payload(next) == payloads[|p.delivered|])
  {
    UndeliveredFront(payloads, p);
    var payload := payloads[|p.delivered|];
    var rest := Frame(payload)[|p.progress|..];
    var offered := p.wire[..Min(count, |p.wire|)];
    ReceivePart(p.progress, rest, payload, offered);
    n := Min(|offered|, Want(p.progress));
    assert offered[..n] == p.wire[..n];
    PrefixWants(p.progress + offered[..n], rest[n..], payload);
  }

  lemma RecvKeeps(payloads: seq<Bytes>, p: Pipe, count: nat)
    requires Invariant(payloads, p) && Fits(payloads) && p.wire != [] && count > 0
    ensures Step(p, Recv(count)).Some? && Invariant(payloads, Step(p, Recv(count)).value)
  {
    var n := RecvMoves(payloads, p, count);
    var next := p.progress + p.wire[..n];
    MovedOn(p, n);
    if Complete(next) {
      Delivery(payloads, p, n);
    }
  }

  lemma MovedOn(p: Pipe, n: nat)
    requires n <= |p.wire|
    ensures p.progress + p.wire[..n] + p.wire[n..] + p.unsent + Frames(p.todo)
         == p.progress + p.wire + p.unsent + Frames(p.todo)
  {
    assert p.wire == p.wire[..n] + p.wire[n..];
  }

  lemma Delivery(payloads: seq<Bytes>, p: Pipe, n: nat)
    requires Invariant(payloads, p) && n <= |p.wire| && |p.delivered| < |payloads|
    requires p.progress + p.wire[..n] == Frame(payloads[|p.delivered|])
    ensures [] + p.wire[n..] + p.unsent + Frames(p.todo) == Frames(payloads[|p.delivered| + 1..])
    ensures |p.delivered| + 1 + |p.todo| <= |payloads|
  {
    hide Header, SizeOf, Complete;
    MovedOn(p, n);
    var tail := payloads[|p.delivered|..];
    var behind := p.wire[n..] + p.unsent + Frames(p.todo);
    var f := Frame(tail[0]);
    assert f + behind == p.progress + p.wire[..n] + p.wire[n..] + p.unsent + Frames(p.todo);
    assert behind == (f + behind)[|f|..];
    assert Frames(tail[1..]) == (f + Frames(tail[1..]))[|f|..];
    assert tail[1..] == payloads[|p.delivered| + 1..];
    assert [] + p.wire[n..] + p.unsent + Frames(p.todo) == behind;
    TodoIsBehind(payloads, Pipe(p.todo, p.unsent, p.wire[n..], [], p.delivered + [tail[0]]));
  }

  /** A message is delivered only after it left the sender. */
  lemma TodoIsBehind(payloads: seq<Bytes>, q: Pipe)
    requires |q.delivered| <= |payloads| && |q.todo| <= |payloads|
    requires q.todo == payloads[|payloads| - |q.todo|..]
    requires q.progress + q.wire + q.unsent + Frames(q.todo) == Frames(payloads[|q.delivered|..])
    ensures |q.delivered| + |q.todo| <= |payloads|
  {
    if |q.delivered| + |q.todo| > |payloads| {
      SuffixShorter(payloads, |payloads| - |q.todo|, |q.delivered|);
      assert false;
    }
  }

  lemma {:induction false} SuffixShorter(payloads: seq<Bytes>, i: nat, j: nat)
    requires i < j <= |payloads|
    ensures |Frames(payloads[i..])| > |Frames(payloads[j..])|
    decreases j - i
  {
    assert payloads[i..][1..] == payloads[i + 1..];
    if i + 1 < j {
      SuffixShorter(payloads, i + 1, j);
    }
  }

  lemma {:induction false} RunKeeps(payloads: seq<Bytes>, p: Pipe, events: seq<Event>)
    requires Invariant(payloads, p) && Fits(payloads)
    ensures Run(p, events).Some? && Invariant(payloads, Run(p, events).value)
    decreases |events|
  {
    if events != [] {
      StepKeeps(payloads, p, events[0]);
      RunKeeps(payloads, Step(p, events[0]).value, events[1..]);
    }
  }

  /**
   * The framing round trip: whatever the split, the receiver never gives up,
   * has delivered a prefix of the messages, and has delivered all of them as
   * soon as no byte is left to send or in flight.
   */
  lemma RoundTrip(payloads: seq<Bytes>, events: seq<Event>)
    requires Fits(payloads)
    ensures Run(Start(payloads), events).Some?
    ensures var p := Run(Start(payloads), events).value;
      && p.delivered <= payloads
      && (p.todo == [] && p.unsent == [] && p.wire == [] ==> p.delivered == payloads && p.progress == [])
  {
    assert payloads[0..] == payloads;
    assert [] + [] + [] + Frames(payloads) == Frames(payloads);
    RunKeeps(payloads, Start(payloads), events);
    var p := Run(Start(payloads), events).value;
    if p.todo == [] && p.unsent == [] && p.wire == [] {
      QuietIsDone(payloads, p);
    }
  }

  lemma QuietIsDone(payloads: seq<Bytes>, p: Pipe)
    requires Invariant(payloads, p) && Fits(payloads) && p.todo == [] && p.unsent == [] && p.wire == []
    ensures p.delivered == payloads && p.progress == []
  {
    if p.progress != [] {
      UndeliveredFront(payloads, p);
      assert false;
    }
    assert payloads[|p.delivered|..] == [];
  }

  function BytesToMove(p: Pipe): nat {
    3 * |Frames(p.todo)| + 2 * |p.unsent| + |p.wire|
  }

  /** Until everything is delivered some event moves bytes closer to the receiver. */
  lemma NeverStuck(payloads: seq<Bytes>, p: Pipe) returns (e: Event)
    requires Invariant(payloads, p) && Fits(payloads) && p.delivered != payloads
    ensures Step(p, e).Some? && BytesToMove(Step(p, e).value) < BytesToMove(p)
  {
    if p.wire != [] {
      e := Recv(1);
      var n := RecvMoves(payloads, p, 1);
    } else if p.unsent != [] {
      e := Send(1);
    } else {
      if p.todo == [] {
        QuietIsDone(payloads, p);
        assert false;
      }
      e := SetMessage;
      assert |Frames(p.todo)| == |Frame(p.todo[0])| + |Frames(p.todo[1..])|;
    }
  }

  /** A message is refused exactly when it is above the receiver's maximum. */
  lemma RefusedExactly(payload: Bytes, offered: Bytes)
    requires |payload| <= MAX_MESSAGE_SIZE && |offered| >= HEADER_SIZE && offered <= Frame(payload)
    ensures Receive([], Offered(offered)) == Oversize <==> |payload| > MAX_INCOMING_FILE_SIZE
  {
    HeaderRoundTrip(|payload|);
    assert [] + offered[..HEADER_SIZE] == Frame(payload)[..HEADER_SIZE] == Header(|payload|);
  }
}
