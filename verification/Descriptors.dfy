/**
 * What goes in and out of each descriptor of the proxy: in by the events, out
 * by what its owner hands to send. And what each connection went through, move
 * by move.
 */
module Descriptors {
  import opened Wrappers
  import opened Framing
  import opened Outgoing
  import opened Relay

  /** The bytes received and sent on a descriptor since it was accepted. */
  datatype Line = Line(received: Bytes, sent: Bytes)

  datatype Move = JoinWorker(fd: int) | JoinController(fd: int) | Receive(fd: int, bytes: Bytes)
    | Send(fd: int, count: nat)

  /** Lines by descriptor, moves by number of the connection. */
  datatype Log = Log(lines: map<int, Line>, moves: map<nat, seq<Move>>)

  function LineOf(log: Log, fd: int): Line {
    if fd in log.lines then log.lines[fd] else Line([], [])
  }

  function MovesOf(log: Log, id: nat): seq<Move> {
    if id in log.moves then log.moves[id] else []
  }

  function AddMove(log: Log, id: nat, m: Move): Log {
    log.(moves := log.moves[id := MovesOf(log, id) + [m]])
  }

  function Apply(conn: Conn, m: Move): (next: Conn)
    ensures next.id == conn.id
  {
    match m
    case JoinWorker(fd) => conn.(workerFd := fd)
    case JoinController(fd) => conn.(controllerFd := fd)
    case Receive(fd, bytes) => Buffered(conn, fd, bytes)
    case Send(fd, count) => SentTo(conn, fd, count)
  }

  /** The proxy accepts a side that is not there yet, and receives from and sends to the sides that are. */
  predicate Allowed(conn: Conn, m: Move) {
    match m
    case JoinWorker(fd) => conn.workerFd == NONE && (fd == NONE || (fd >= 0 && fd != conn.controllerFd))
    case JoinController(fd) => conn.controllerFd == NONE && (fd == NONE || (fd >= 0 && fd != conn.workerFd))
    case Receive(fd, bytes) => fd != NONE && Has(conn, fd) && 0 < |bytes| <= TMP_BUFFER_SIZE
    case Send(fd, _) => fd != NONE && Has(conn, fd)
  }

  function Replay(id: nat, moves: seq<Move>): (conn: Conn)
    ensures conn.id == id
  {
    if moves == [] then NewConn(id)
    else Apply(Replay(id, moves[..|moves| - 1]), moves[|moves| - 1])
  }

  /** Each move was allowed when it was made. */
  predicate Legit(id: nat, moves: seq<Move>) {
    moves == [] ||
    (Legit(id, moves[..|moves| - 1]) && Allowed(Replay(id, moves[..|moves| - 1]), moves[|moves| - 1]))
  }

  // The log of one descriptor's flags, in the steps of Relay.EntryStep.

  function Joining(p: Proxy, i: nat): nat {
    match if i == 0 then Find(p.conns, NONE, -2) else Find(p.conns, -2, NONE)
    case Some(k) => p.conns[k].id
    case None => p.created
  }

  function AcceptLog(p: Proxy, log: Log, i: nat, fd: int): Log {
    AddMove(if fd == NONE then log else log.(lines := log.lines[fd := Line([], [])]), Joining(p, i),
            if i == 0 then JoinWorker(fd) else JoinController(fd))
  }

  /** recv returned these bytes on this descriptor. */
  function Heard(log: Log, fd: int, bytes: Bytes): Log {
    log.(lines := log.lines[fd := LineOf(log, fd).(received := LineOf(log, fd).received + bytes)])
  }

  /** send took these bytes on this descriptor. */
  function Said(log: Log, fd: int, bytes: Bytes): Log {
    log.(lines := log.lines[fd := LineOf(log, fd).(sent := LineOf(log, fd).sent + bytes)])
  }

  function ReadLog(s: Servers, p: Proxy, log: Log, i: nat, fd: int, e: Poll): Log {
    if !e.readable then log
    else if i <= 1 then if Acceptable(s, p, e.newFd) then AcceptLog(p, log, i, e.newFd) else log
    else match e.recv
      case RecvError(_) => log
      case Offered(bytes) =>
        var got := bytes[..Min(|bytes|, TMP_BUFFER_SIZE)];
        match Find(p.conns, fd, fd)
        case None => log
        case Some(k) => if bytes == [] then log else AddMove(Heard(log, fd, got), p.conns[k].id, Receive(fd, got))
  }

  /** The bytes that leave on a descriptor when its owner is asked to send. */
  function Out(conn: Conn, fd: int, io: SendIO): Bytes {
    match io case SendError => [] case Accepted(count) => Waiting(conn, fd)[..Min(count, |Waiting(conn, fd)|)]
  }

  function WriteLog(p: Proxy, log: Log, i: nat, fd: int, e: Poll): Log {
    if !e.writable || i <= 1 then log
    else match Find(p.conns, fd, fd)
      case None => log
      case Some(k) =>
        if Waiting(p.conns[k], fd) == [] || e.send.SendError? then log
        else AddMove(Said(log, fd, Out(p.conns[k], fd, e.send)), p.conns[k].id, Send(fd, e.send.count))
  }

  function EntryLog(s: Servers, p: Proxy, log: Log, deleted: set<int>, i: nat, fd: int, e: Poll): Log {
    if fd in deleted then log
    else
      var (status, skip) := ReadStep(s, p, deleted, i, fd, e);
      var read := ReadLog(s, p, log, i, fd, e);
      if skip || !status.Going? then read else WriteLog(status.proxy, read, i, fd, e)
  }

  function ScanLog(s: Servers, p: Proxy, log: Log, deleted: set<int>, fds: seq<int>, i: nat, polls: nat -> Poll): Log
    requires i <= |fds|
    decreases |fds| - i
  {
    if i == |fds| then log
    else
      var after := EntryLog(s, p, log, deleted, i, fds[i], polls(i));
      match EntryStep(s, p, deleted, i, fds[i], polls(i))
      case Going(next, gone) => ScanLog(s, next, after, gone, fds, i + 1, polls)
      case _ => after
  }

  function RoundLog(s: Servers, p: Proxy, log: Log, polls: nat -> Poll): Log {
    ScanLog(s, p, log, {}, PollFds(s, p), 0, polls)
  }

  function RunLog(s: Servers, p: Proxy, log: Log, rounds: seq<nat -> Poll>): Log
    decreases |rounds|
  {
    if rounds == [] then log
    else match Round(s, p, rounds[0])
      case Going(next, _) => RunLog(s, next, RoundLog(s, p, log, rounds[0]), rounds[1..])
      case _ => RoundLog(s, p, log, rounds[0])
  }

  const NOTHING: Log := Log(map[], map[])

  // What ties the log to the connections.

  /** What a connection took and gave is what went over its own two descriptors. */
  predicate Tied(log: Log, conn: Conn) {
    && (conn.workerFd != NONE ==> LineOf(log, conn.workerFd) == Line(conn.fromWorker, conn.toWorker))
    && (conn.controllerFd != NONE ==> LineOf(log, conn.controllerFd) == Line(conn.fromController, conn.toController))
  }

  predicate LinesInv(p: Proxy, log: Log) {
    forall k :: 0 <= k < |p.conns| ==> Tied(log, p.conns[k])
  }

  /** A connection is what its moves make of a new one. */
  predicate Made(log: Log, conn: Conn) {
    Replay(conn.id, MovesOf(log, conn.id)) == conn
  }

  ghost predicate MovesInv(p: Proxy, log: Log) {
    && (forall k :: 0 <= k < |p.conns| ==> Made(log, p.conns[k]))
    && (forall k :: 0 <= k < |p.closed| ==> Made(log, p.closed[k]) && p.closed[k].id < p.created)
    && (forall i, j :: 0 <= i < |p.conns| && 0 <= j < |p.closed| ==> p.conns[i].id != p.closed[j].id)
    && (forall id: nat :: id >= p.created ==> MovesOf(log, id) == [])
    && (forall id: nat :: Legit(id, MovesOf(log, id)))
  }

  ghost predicate LogInv(p: Proxy, log: Log) {
    LinesInv(p, log) && MovesInv(p, log)
  }

  lemma MadeOn(log: Log, id: nat, m: Move)
    ensures Replay(id, MovesOf(AddMove(log, id, m), id)) == Apply(Replay(id, MovesOf(log, id)), m)
  {
    var moves := MovesOf(log, id);
    assert (moves + [m])[..|moves|] == moves;
  }

  lemma OthersMade(log: Log, id: nat, m: Move, conn: Conn)
    requires conn.id != id
    ensures Made(AddMove(log, id, m), conn) <==> Made(log, conn)
  {
  }

  lemma MoveStaysLegit(log: Log, id: nat, m: Move)
    requires forall other: nat :: Legit(other, MovesOf(log, other))
    requires Allowed(Replay(id, MovesOf(log, id)), m)
    ensures forall other: nat :: Legit(other, MovesOf(AddMove(log, id, m), other))
  {
    hide Allowed, Replay;
    var moves := MovesOf(log, id);
    assert (moves + [m])[..|moves|] == moves;
    forall other: nat ensures Legit(other, MovesOf(AddMove(log, id, m), other)) {
      assert other != id ==> MovesOf(AddMove(log, id, m), other) == MovesOf(log, other);
    }
  }

  /** A move of connection k. */
  lemma MoveKeepsMoves(p: Proxy, log: Log, k: nat, m: Move)
    requires MovesInv(p, log) && Ordered(p) && k < |p.conns| && Allowed(p.conns[k], m)
    ensures MovesInv(p.(conns := p.conns[k := Apply(p.conns[k], m)]), AddMove(log, p.conns[k].id, m))
  {
    hide Buffered, SentTo, Replay, Made, Legit, Allowed;
    var next := p.(conns := p.conns[k := Apply(p.conns[k], m)]);
    var id := p.conns[k].id;
    MadeMeans(log, p.conns[k]);
    MoveStaysLegit(log, id, m);
    var after := AddMove(log, id, m);
    assert Made(after, next.conns[k]) by { StillMade(log, p.conns[k], m); }
    forall j | 0 <= j < |p.conns| && j != k ensures Made(after, next.conns[j]) {
      assert p.conns[if j < k then j else k].id < p.conns[if j < k then k else j].id;
      OthersMade(log, id, m, p.conns[j]);
    }
    forall j | 0 <= j < |p.closed| ensures Made(after, p.closed[j]) {
      assert p.conns[k].id != p.closed[j].id;
      OthersMade(log, id, m, p.closed[j]);
    }
    assert forall j :: 0 <= j < |p.conns| ==> next.conns[j].id == p.conns[j].id;
    assert forall j :: 0 <= j < |p.conns| ==> Made(after, next.conns[j]);
    assert id < p.created;
    assert forall other: nat :: other >= next.created ==> MovesOf(after, other) == MovesOf(log, other);
  }

  lemma MadeMeans(log: Log, conn: Conn)
    requires Made(log, conn)
    ensures Replay(conn.id, MovesOf(log, conn.id)) == conn
  {
  }

  lemma StillMade(log: Log, conn: Conn, m: Move)
    requires Made(log, conn)
    ensures Made(AddMove(log, conn.id, m), Apply(conn, m))
  {
    hide Apply, Replay;
    MadeOn(log, conn.id, m);
  }

  lemma AddKeepsMoves(p: Proxy, log: Log, m: Move)
    requires MovesInv(p, log) && Ordered(p) && Allowed(NewConn(p.created), m)
    ensures MovesInv(p.(conns := p.conns + [Apply(NewConn(p.created), m)], created := p.created + 1),
                     AddMove(log, p.created, m))
  {
    hide Buffered, SentTo, Made, Legit, Allowed;
    var conn := Apply(NewConn(p.created), m);
    MoveStaysLegit(log, p.created, m);
    var next := p.(conns := p.conns + [conn], created := p.created + 1);
    var after := AddMove(log, p.created, m);
    assert Made(after, conn) by { FirstMade(log, p.created, m); }
    forall j | 0 <= j < |p.conns| ensures Made(after, next.conns[j]) {
      OthersMade(log, p.created, m, p.conns[j]);
    }
    forall j | 0 <= j < |p.closed| ensures Made(after, p.closed[j]) {
      OthersMade(log, p.created, m, p.closed[j]);
    }
    assert forall j :: 0 <= j < |p.conns| ==> next.conns[j].id == p.conns[j].id;
    assert next.conns[|p.conns|].id == p.created;
    assert forall j :: 0 <= j < |p.closed| ==> next.closed[j].id < p.created;
    assert forall id: nat :: id >= next.created ==> MovesOf(after, id) == MovesOf(log, id);
  }

  lemma FirstMade(log: Log, id: nat, m: Move)
    requires MovesOf(log, id) == []
    ensures Made(AddMove(log, id, m), Apply(NewConn(id), m))
  {
    MadeOn(log, id, m);
  }

  lemma CloseKeepsMoves(p: Proxy, log: Log, k: nat)
    requires MovesInv(p, log) && Ordered(p) && k < |p.conns|
    ensures MovesInv(Close(p, k), log)
  {
    hide Made;
    var next := Close(p, k);
    assert forall j :: 0 <= j < |next.conns| ==> next.conns[j] == p.conns[if j < k then j else j + 1];
    forall i, j | 0 <= i < |next.conns| && 0 <= j < |next.closed| ensures next.conns[i].id != next.closed[j].id {
      if j == |p.closed| {
        assert p.conns[if i < k then i else k].id < p.conns[if i < k then k else i + 1].id;
      }
    }
  }

  lemma SameMoves(p: Proxy, log: Log, lines: map<int, Line>)
    requires MovesInv(p, log)
    ensures MovesInv(p, log.(lines := lines))
  {
    assert forall id: nat :: MovesOf(log.(lines := lines), id) == MovesOf(log, id);
  }

  lemma SameLines(p: Proxy, log: Log, id: nat, m: Move)
    requires LinesInv(p, log)
    ensures LinesInv(p, AddMove(log, id, m))
  {
    assert forall fd: int :: LineOf(AddMove(log, id, m), fd) == LineOf(log, fd);
  }

  /** Only the owner of the descriptor sees its line change. */
  lemma OwnerOnly(s: Servers, p: Proxy, log: Log, k: nat, fd: int, line: Line, conn: Conn)
    requires FdsInv(s, p.conns) && LinesInv(p, log) && k < |p.conns| && fd != NONE && Has(p.conns[k], fd)
    requires Tied(log.(lines := log.lines[fd := line]), conn)
    ensures LinesInv(p.(conns := p.conns[k := conn]), log.(lines := log.lines[fd := line]))
  {
    var next := p.(conns := p.conns[k := conn]);
    forall j | 0 <= j < |p.conns| ensures Tied(log.(lines := log.lines[fd := line]), next.conns[j]) {
      if j != k {
        assert Apart(p.conns[k], p.conns[j]) && Tied(log, p.conns[j]);
      }
    }
  }

  lemma ReceiveKeepsLog(s: Servers, p: Proxy, log: Log, k: nat, fd: int, bytes: Bytes)
    requires ProxyInv(s, p) && LogInv(p, log) && k < |p.conns| && fd != NONE && Has(p.conns[k], fd)
    requires 0 < |bytes| <= TMP_BUFFER_SIZE
    ensures LogInv(p.(conns := p.conns[k := Buffered(p.conns[k], fd, bytes)]),
                   AddMove(Heard(log, fd, bytes), p.conns[k].id, Receive(fd, bytes)))
  {
    hide MovesInv, ConnInv, FdsInv, Ordered;
    var conn := p.conns[k];
    var line := LineOf(log, fd).(received := LineOf(log, fd).received + bytes);
    assert Tied(Heard(log, fd, bytes), Buffered(conn, fd, bytes)) by {
      assert Tied(log, conn);
      SidesDiffer(s, p, k);
    }
    OwnerOnly(s, p, log, k, fd, line, Buffered(conn, fd, bytes));
    SameMoves(p, log, log.lines[fd := line]);
    MoveKeepsMoves(p, Heard(log, fd, bytes), k, Receive(fd, bytes));
    SameLines(p.(conns := p.conns[k := Buffered(conn, fd, bytes)]), Heard(log, fd, bytes), conn.id, Receive(fd, bytes));
  }

  lemma SidesDiffer(s: Servers, p: Proxy, k: nat)
    requires ProxyInv(s, p) && k < |p.conns|
    ensures p.conns[k].workerFd != NONE ==> p.conns[k].workerFd != p.conns[k].controllerFd
  {
  }

  lemma SendKeepsLog(s: Servers, p: Proxy, log: Log, k: nat, fd: int, count: nat)
    requires ProxyInv(s, p) && LogInv(p, log) && k < |p.conns| && fd != NONE && Has(p.conns[k], fd)
    ensures LogInv(p.(conns := p.conns[k := SentTo(p.conns[k], fd, count)]),
                   AddMove(Said(log, fd, Out(p.conns[k], fd, Accepted(count))), p.conns[k].id, Send(fd, count)))
  {
    hide MovesInv, ConnInv, FdsInv, Ordered;
    var conn := p.conns[k];
    var out := Out(conn, fd, Accepted(count));
    var line := LineOf(log, fd).(sent := LineOf(log, fd).sent + out);
    assert Tied(Said(log, fd, out), SentTo(conn, fd, count)) by {
      assert Tied(log, conn);
      SidesDiffer(s, p, k);
    }
    OwnerOnly(s, p, log, k, fd, line, SentTo(conn, fd, count));
    SameMoves(p, log, log.lines[fd := line]);
    MoveKeepsMoves(p, Said(log, fd, out), k, Send(fd, count));
    SameLines(p.(conns := p.conns[k := SentTo(conn, fd, count)]), Said(log, fd, out), conn.id, Send(fd, count));
  }

  lemma CloseKeepsLog(s: Servers, p: Proxy, log: Log, k: nat)
    requires ProxyInv(s, p) && LogInv(p, log) && k < |p.conns|
    ensures LogInv(Close(p, k), log)
  {
    hide MovesInv, ConnInv, FdsInv, Ordered, Tied;
    CloseKeepsMoves(p, log, k);
    var next := Close(p, k);
    assert forall j :: 0 <= j < |next.conns| ==> next.conns[j] == p.conns[if j < k then j else j + 1];
  }

  /** An unused descriptor may start a new line. */
  lemma NewLine(s: Servers, p: Proxy, log: Log, fd: int)
    requires LinesInv(p, log) && Fresh(s, p, fd)
    ensures LinesInv(p, log.(lines := log.lines[fd := Line([], [])]))
  {
    var after := log.(lines := log.lines[fd := Line([], [])]);
    forall k | 0 <= k < |p.conns| ensures Tied(after, p.conns[k]) {
      assert !Has(p.conns[k], fd) && Tied(log, p.conns[k]);
    }
  }

  lemma AcceptKeepsLog(s: Servers, p: Proxy, log: Log, i: nat, fd: int)
    requires ProxyInv(s, p) && LogInv(p, log) && Acceptable(s, p, fd)
    ensures LogInv(if i == 0 then AcceptWorker(p, fd) else AcceptController(p, fd), AcceptLog(p, log, i, fd))
  {
    hide MovesInv, FdsInv, Ordered, Matched, Fresh, Tied;
    var lined := if fd == NONE then log else log.(lines := log.lines[fd := Line([], [])]);
    if fd != NONE {
      NewLine(s, p, log, fd);
    }
    SameMoves(p, log, lined.lines);
    assert lined == log.(lines := lined.lines);
    var m := if i == 0 then JoinWorker(fd) else JoinController(fd);
    var found := if i == 0 then Find(p.conns, NONE, -2) else Find(p.conns, -2, NONE);
    if found.Some? {
      var k := found.value;
      FoundLacks(s, p, k);
      MayJoin(s, p, k, fd);
      JoinTied(log, lined, fd, p.conns[k], m);
      JoinLines(p, lined, k, m);
      MoveKeepsMoves(p, lined, k, m);
      SameLines(p.(conns := p.conns[k := Apply(p.conns[k], m)]), lined, p.conns[k].id, m);
    } else {
      NewTied(lined, fd, p.created, m);
      assert Allowed(NewConn(p.created), m) by { MayBegin(s, p, fd); }
      AddKeepsMoves(p, lined, m);
      SameLines(p.(conns := p.conns + [Apply(NewConn(p.created), m)], created := p.created + 1), lined, p.created, m);
    }
  }

  /** What accept returns is not the descriptor of the other side. */
  lemma MayJoin(s: Servers, p: Proxy, k: nat, fd: int)
    requires Acceptable(s, p, fd) && k < |p.conns|
    ensures LacksWorker(p.conns[k]) ==> Allowed(p.conns[k], JoinWorker(fd))
    ensures LacksController(p.conns[k]) ==> Allowed(p.conns[k], JoinController(fd))
  {
    if fd != NONE {
      assert !Has(p.conns[k], fd);
    }
  }

  lemma JoinLines(p: Proxy, log: Log, k: nat, m: Move)
    requires LinesInv(p, log) && k < |p.conns| && Tied(log, Apply(p.conns[k], m))
    ensures LinesInv(p.(conns := p.conns[k := Apply(p.conns[k], m)]), log)
  {
    hide Tied, Apply;
  }

  lemma JoinTied(log: Log, lined: Log, fd: int, conn: Conn, m: Move)
    requires ConnInv(conn) && Tied(lined, conn) && (fd != NONE ==> LineOf(lined, fd) == Line([], []))
    requires || (m == JoinWorker(fd) && LacksWorker(conn)) || (m == JoinController(fd) && LacksController(conn))
    ensures Tied(lined, Apply(conn, m))
  {
  }

  lemma MayBegin(s: Servers, p: Proxy, fd: int)
    requires Acceptable(s, p, fd)
    ensures Allowed(NewConn(p.created), JoinWorker(fd)) && Allowed(NewConn(p.created), JoinController(fd))
  {
  }

  lemma NewTied(lined: Log, fd: int, id: nat, m: Move)
    requires fd != NONE ==> LineOf(lined, fd) == Line([], [])
    requires m == JoinWorker(fd) || m == JoinController(fd)
    ensures Tied(lined, Apply(NewConn(id), m))
  {
  }

  // Entries, scans, rounds and runs.

  lemma ReadKeepsLog(s: Servers, p: Proxy, log: Log, deleted: set<int>, fds: seq<int>, i: nat, e: Poll)
    requires EntryInv(s, p, deleted, fds, i) && LogInv(p, log) && i < |fds| && (i >= 2 ==> Open(p, fds[i]))
    requires ReadStep(s, p, deleted, i, fds[i], e).0.Going?
    ensures LogInv(ReadStep(s, p, deleted, i, fds[i], e).0.proxy, ReadLog(s, p, log, i, fds[i], e))
  {
    hide ProxyInv, LogInv, Acceptable, AcceptWorker, AcceptController, Close, Buffered, AcceptLog, ScanInv;
    if e.readable {
      if i <= 1 {
        if Acceptable(s, p, e.newFd) {
          AcceptKeepsLog(s, p, log, i, e.newFd);
        }
      } else {
        OwnerFound(p, fds[i]);
        var k := Find(p.conns, fds[i], fds[i]).value;
        if e.recv.Offered? && e.recv.bytes != [] {
          ReceiveKeepsLog(s, p, log, k, fds[i], e.recv.bytes[..Min(|e.recv.bytes|, TMP_BUFFER_SIZE)]);
        } else {
          CloseKeepsLog(s, p, log, k);
        }
      }
    }
  }

  lemma WriteKeepsLog(s: Servers, p: Proxy, log: Log, deleted: set<int>, i: nat, fd: int, e: Poll)
    requires ProxyInv(s, p) && LogInv(p, log) && (i >= 2 ==> Open(p, fd)) && WriteStep(p, deleted, i, fd, e).Going?
    ensures LogInv(WriteStep(p, deleted, i, fd, e).proxy, WriteLog(p, log, i, fd, e))
  {
    hide ProxyInv, LogInv, SentTo;
    if e.writable && i >= 2 {
      OwnerFound(p, fd);
      var k := Find(p.conns, fd, fd).value;
      if Waiting(p.conns[k], fd) != [] {
        SendKeepsLog(s, p, log, k, fd, e.send.count);
      }
    }
  }

  lemma HangKeepsLog(s: Servers, p: Proxy, log: Log, deleted: set<int>, i: nat, fd: int, e: Poll)
    requires ProxyInv(s, p) && LogInv(p, log) && (i >= 2 ==> Open(p, fd))
    requires HangStep(p, deleted, i, fd, e).Going?
    ensures LogInv(HangStep(p, deleted, i, fd, e).proxy, log)
  {
    hide ProxyInv, LogInv, Close;
    if e.hungUp && i >= 2 {
      CloseKeepsLog(s, p, log, Find(p.conns, fd, fd).value);
    }
  }

  lemma EntryKeepsLog(s: Servers, p: Proxy, log: Log, deleted: set<int>, fds: seq<int>, i: nat, e: Poll)
    requires EntryInv(s, p, deleted, fds, i) && LogInv(p, log) && i < |fds|
    requires EntryStep(s, p, deleted, i, fds[i], e).Going?
    ensures LogInv(EntryStep(s, p, deleted, i, fds[i], e).proxy, EntryLog(s, p, log, deleted, i, fds[i], e))
  {
    hide ReadStep, WriteStep, HangStep, ProxyInv, Open, LogInv, ReadLog, WriteLog;
    if fds[i] !in deleted {
      ReadKeeps(s, p, deleted, fds, i, e);
      ReadKeepsLog(s, p, log, deleted, fds, i, e);
      var (status, skip) := ReadStep(s, p, deleted, i, fds[i], e);
      if !skip {
        WriteKeeps(s, status.proxy, status.deleted, fds, i, e);
        var read := ReadLog(s, p, log, i, fds[i], e);
        WriteKeepsLog(s, status.proxy, read, status.deleted, i, fds[i], e);
        var status2 := WriteStep(status.proxy, status.deleted, i, fds[i], e);
        HangKeepsLog(s, status2.proxy, WriteLog(status.proxy, read, i, fds[i], e), status2.deleted, i, fds[i], e);
      }
    }
  }

  lemma {:induction false} ScanKeepsLog(s: Servers, p: Proxy, log: Log, deleted: set<int>, fds: seq<int>, i: nat,
                                        polls: nat -> Poll)
    requires i <= |fds| && EntryInv(s, p, deleted, fds, i) && LogInv(p, log)
    requires Scan(s, p, deleted, fds, i, polls).Going?
    ensures LogInv(Scan(s, p, deleted, fds, i, polls).proxy, ScanLog(s, p, log, deleted, fds, i, polls))
    decreases |fds| - i
  {
    hide EntryStep, EntryInv, EntryLog, LogInv;
    if i < |fds| {
      EntryKeeps(s, p, deleted, fds, i, polls(i));
      EntryKeepsLog(s, p, log, deleted, fds, i, polls(i));
      var next := EntryStep(s, p, deleted, i, fds[i], polls(i));
      ScanKeepsLog(s, next.proxy, EntryLog(s, p, log, deleted, i, fds[i], polls(i)), next.deleted, fds, i + 1, polls);
    }
  }

  lemma RoundKeepsLog(s: Servers, p: Proxy, log: Log, polls: nat -> Poll)
    requires ProxyInv(s, p) && LogInv(p, log) && Round(s, p, polls).Going?
    ensures LogInv(Round(s, p, polls).proxy, RoundLog(s, p, log, polls))
  {
    hide ProxyInv, ConnFds, Scan, ScanLog, LogInv;
    RoundStarts(s, p);
    ScanKeepsLog(s, p, log, {}, PollFds(s, p), 0, polls);
  }

  lemma {:induction false} RunKeepsLog(s: Servers, p: Proxy, log: Log, rounds: seq<nat -> Poll>)
    requires ProxyInv(s, p) && LogInv(p, log) && Run(s, p, rounds).Going?
    ensures LogInv(Run(s, p, rounds).proxy, RunLog(s, p, log, rounds)) && ProxyInv(s, Run(s, p, rounds).proxy)
    decreases |rounds|
  {
    hide ProxyInv, Round, RoundLog, LogInv;
    if rounds != [] {
      RoundKeeps(s, p, rounds[0]);
      RoundKeepsLog(s, p, log, rounds[0]);
      RunKeepsLog(s, Round(s, p, rounds[0]).proxy, RoundLog(s, p, log, rounds[0]), rounds[1..]);
    }
  }

  // What follows for every run.

  lemma LogOfRun(s: Servers, rounds: seq<nat -> Poll>)
    requires s.worker >= 0 && s.controller >= 0 && s.worker != s.controller && Run(s, Start(), rounds).Going?
    ensures LogInv(Run(s, Start(), rounds).proxy, RunLog(s, Start(), NOTHING, rounds))
    ensures ProxyInv(s, Run(s, Start(), rounds).proxy)
  {
    hide ProxyInv, Run, RunLog;
    StartInv(s);
    RunKeepsLog(s, Start(), NOTHING, rounds);
  }

  /**
   * For every paired connection of every reachable state: the bytes sent on
   * the controller's descriptor since its accept are a prefix of those
   * received on the worker's since its accept, what is missing is buffered, and
   * likewise the other way. Nothing is mixed, whatever else the proxy serves.
   */
  lemma DescriptorsMatch(s: Servers, rounds: seq<nat -> Poll>, k: nat)
    requires s.worker >= 0 && s.controller >= 0 && s.worker != s.controller && Run(s, Start(), rounds).Going?
    requires k < |Run(s, Start(), rounds).proxy.conns|
    ensures var conn := Run(s, Start(), rounds).proxy.conns[k];
      var log := RunLog(s, Start(), NOTHING, rounds);
      conn.workerFd != NONE && conn.controllerFd != NONE ==>
        && LineOf(log, conn.workerFd).received == LineOf(log, conn.controllerFd).sent + conn.w2c
        && LineOf(log, conn.controllerFd).received == LineOf(log, conn.workerFd).sent + conn.c2w
    ensures var conn := Run(s, Start(), rounds).proxy.conns[k];
      var log := RunLog(s, Start(), NOTHING, rounds);
      && (OnlyWorker(conn) ==> LineOf(log, conn.workerFd) == Line(conn.w2c, []))
      && (OnlyController(conn) ==> LineOf(log, conn.controllerFd) == Line(conn.c2w, []))
  {
    hide Run, RunLog, FdsInv, Matched, Ordered, MovesInv;
    LogOfRun(s, rounds);
    var p, log := Run(s, Start(), rounds).proxy, RunLog(s, Start(), NOTHING, rounds);
    assert ConnInv(p.conns[k]) && Tied(log, p.conns[k]);
  }

  /** No connection, open or closed, is ever moved in another way than allowed. */
  lemma AllMovesAllowed(s: Servers, rounds: seq<nat -> Poll>, id: nat)
    requires s.worker >= 0 && s.controller >= 0 && s.worker != s.controller && Run(s, Start(), rounds).Going?
    ensures Legit(id, MovesOf(RunLog(s, Start(), NOTHING, rounds), id))
  {
    hide Run, RunLog, ProxyInv, LinesInv;
    LogOfRun(s, rounds);
  }

  /** Every connection, open or closed, went through its moves and nothing else. */
  lemma MadeByMoves(s: Servers, rounds: seq<nat -> Poll>, conn: Conn)
    requires s.worker >= 0 && s.controller >= 0 && s.worker != s.controller && Run(s, Start(), rounds).Going?
    requires var p := Run(s, Start(), rounds).proxy; conn in p.conns || conn in p.closed
    ensures Replay(conn.id, MovesOf(RunLog(s, Start(), NOTHING, rounds), conn.id)) == conn
  {
    hide Run, RunLog, ProxyInv, LinesInv;
    LogOfRun(s, rounds);
    var p, log := Run(s, Start(), rounds).proxy, RunLog(s, Start(), NOTHING, rounds);
    assert Made(log, conn);
  }
}
