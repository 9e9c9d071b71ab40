/** The proxy of src/proxy.cpp in place: buffers, connections and the scan of a round. */
module ProxyServer {
  import opened Wrappers
  import opened Framing
  import opened Outgoing
  import opened Relay
  import opened Descriptors
  import Polling

  /** Whether a socket operation worked, and if not how it failed. */
  datatype IO = Done | Reset | Failed

  class Buffer {
    var bytes: Bytes

    constructor ()
      ensures bytes == []
    {
      bytes := [];
    }

    /** Sends what the socket takes of the front, and erases it. */
    method Send(io: SendIO) returns (r: IO, out: Bytes)
      modifies this
      ensures out + bytes == old(bytes)
      ensures old(bytes) == [] ==> r == Done
      ensures old(bytes) != [] && io.SendError? ==> r == Failed && out == []
      ensures old(bytes) != [] && io.Accepted? ==> r == Done && out == old(bytes)[..Min(io.count, |old(bytes)|)]
    {
      r, out := Done, [];
      if bytes != [] {
        match io
        case SendError =>
          r := Failed;
        case Accepted(count) =>
          var here := Min(count, |bytes|);
          out := bytes[..here];
          bytes := bytes[here..];
      }
    }

    /** Appends what the socket has, at most a temporary buffer full; no bytes mean it was closed. */
    method Receive(io: RecvIO) returns (r: IO)
      modifies this
      ensures match io
        case RecvError(connReset) => r == (if connReset then Reset else Failed) && bytes == old(bytes)
        case Offered(offered) =>
          if offered == [] then r == Reset && bytes == old(bytes)
          else r == Done && bytes == old(bytes) + offered[..Min(|offered|, TMP_BUFFER_SIZE)]
    {
      match io
      case RecvError(connReset) =>
        r := if connReset then Reset else Failed;
      case Offered(offered) =>
        if offered == [] {
          r := Reset;
        } else {
          bytes := bytes + offered[..Min(|offered|, TMP_BUFFER_SIZE)];
          r := Done;
        }
    }
  }

  class Connection {
    var workerFd: int
    var controllerFd: int
    const w2c: Buffer
    const c2w: Buffer

    constructor ()
      ensures fresh(w2c) && fresh(c2w) && w2c != c2w && w2c.bytes == c2w.bytes == []
      ensures workerFd == controllerFd == NONE
    {
      workerFd, controllerFd := NONE, NONE;
      w2c := new Buffer();
      c2w := new Buffer();
    }

    /** The connection is the one on record. */
    ghost predicate Tracks(conn: Conn)
      reads this, w2c, c2w
    {
      && w2c != c2w
      && workerFd == conn.workerFd && controllerFd == conn.controllerFd
      && w2c.bytes == conn.w2c && c2w.bytes == conn.c2w
    }

    method AddPollfds(fds: seq<int>, ghost conn: Conn) returns (more: seq<int>)
      requires Tracks(conn)
      ensures more == fds + FdsOf(conn)
      ensures forall fd :: fd in more[|fds|..] <==> fd != NONE && (fd == workerFd || fd == controllerFd)
      ensures workerFd != NONE && controllerFd != NONE ==> more == fds + [workerFd, controllerFd]
    {
      more := fds;
      if workerFd != NONE {
        more := more + [workerFd];
      }
      if controllerFd != NONE {
        more := more + [controllerFd];
      }
    }

    /**
     * The bytes that leave on the descriptor are returned. The last branch is
     * the fatal exit on one that is not ours.
     */
    method Send(fd: int, io: SendIO, ghost conn: Conn) returns (r: IO, out: Bytes, ghost next: Conn)
      requires Tracks(conn) && Has(conn, fd)
      modifies w2c, c2w
      ensures r == if Waiting(conn, fd) != [] && io.SendError? then Failed else Done
      ensures out == Out(conn, fd, io)
      ensures r == Done ==> Tracks(next) && out + Waiting(next, fd) == Waiting(conn, fd)
      ensures r == Done ==> next == if Waiting(conn, fd) == [] then conn else SentTo(conn, fd, io.count)
    {
      out := [];
      if fd == workerFd {
        r, out := c2w.Send(io);
      } else if fd == controllerFd {
        r, out := w2c.Send(io);
      } else {
        assert false;
      }
      next := if Waiting(conn, fd) == [] || io.SendError? then conn else SentTo(conn, fd, io.count);
    }

    method Receive(fd: int, io: RecvIO, ghost conn: Conn) returns (r: IO, ghost next: Conn)
      requires Tracks(conn) && Has(conn, fd)
      modifies w2c, c2w
      ensures match io
        case RecvError(connReset) => r == (if connReset then Reset else Failed) && next == conn
        case Offered(offered) =>
          if offered == [] then r == Reset && next == conn
          else r == Done && next == Relay.Buffered(conn, fd, offered[..Min(|offered|, TMP_BUFFER_SIZE)])
      ensures Tracks(next)
    {
      if fd == workerFd {
        r := w2c.Receive(io);
      } else if fd == controllerFd {
        r := c2w.Receive(io);
      } else {
        assert false;
      }
      next := if io.Offered? && io.bytes != []
              then Relay.Buffered(conn, fd, io.bytes[..Min(|io.bytes|, TMP_BUFFER_SIZE)]) else conn;
    }

    /** Both descriptors are closed and forgotten. */
    method Die()
      modifies this
      ensures workerFd == controllerFd == NONE
    {
      workerFd := NONE;
      controllerFd := NONE;
    }
  }

  /** Two connections share no buffer. */
  ghost predicate Separate(a: Connection, b: Connection) {
    && a != b && a.w2c != b.w2c && a.w2c != b.c2w && a.c2w != b.w2c && a.c2w != b.c2w
  }

  datatype Code = Continue | ReturnError | FatalExit

  class Server {
    const servers: Servers
    var connections: seq<Connection>
    ghost var model: Proxy
    ghost var Repr: set<object>

    ghost predicate Valid()
      reads this, Repr
    {
      && this in Repr
      && (forall c :: c in connections ==> c in Repr && c.w2c in Repr && c.c2w in Repr)
      && (forall i, j :: 0 <= i < j < |connections| ==> Separate(connections[i], connections[j]))
      && |model.conns| == |connections|
      && (forall k :: 0 <= k < |connections| ==> connections[k].Tracks(model.conns[k]))
    }

    ghost predicate Agrees(code: Code, deleted: set<int>, status: Status)
      reads this, Repr
    {
      match code
      case Continue => Valid() && status == Going(model, deleted)
      case ReturnError => status == Returned
      case FatalExit => status == Fatal
    }

    constructor (servers: Servers)
      ensures Valid() && fresh(Repr) && model == Relay.Start() && this.servers == servers
    {
      this.servers := servers;
      connections := [];
      model := Relay.Start();
      Repr := {this};
    }

    /** find: the first connection with one of the descriptors. */
    method FindConnection(workerFd: int, controllerFd: int) returns (index: Option<nat>)
      requires Valid()
      ensures index == Find(model.conns, workerFd, controllerFd)
    {
      for k := 0 to |connections|
        invariant forall j :: 0 <= j < k ==>
          model.conns[j].workerFd != workerFd && model.conns[j].controllerFd != controllerFd
      {
        assert connections[k].Tracks(model.conns[k]);
        if connections[k].workerFd == workerFd || connections[k].controllerFd == controllerFd {
          return Some(k);
        }
      }
      index := None;
    }

    method ListFds() returns (fds: seq<int>)
      requires Valid()
      ensures fds == PollFds(servers, model)
      ensures ProxyInv(servers, model) ==> Polling.PolledInOrder(servers, model, fds)
    {
      hide ProxyInv, Polling.PolledInOrder;
      fds := [servers.worker, servers.controller];
      for k := 0 to |connections|
        invariant fds == [servers.worker, servers.controller] + ConnFds(model.conns[..k])
      {
        assert connections[k].Tracks(model.conns[k]);
        fds := connections[k].AddPollfds(fds, model.conns[k]);
        assert model.conns[..k + 1][..k] == model.conns[..k];
      }
      assert model.conns[..|connections|] == model.conns;
      if ProxyInv(servers, model) {
        Polling.PolledExactly(servers, model);
      }
    }

    /** A connection changed in place: the record follows. */
    ghost method Record(k: nat, conn: Conn)
      requires this in Repr && k < |connections| && |model.conns| == |connections|
      requires forall c :: c in connections ==> c in Repr && c.w2c in Repr && c.c2w in Repr
      requires forall i, j :: 0 <= i < j < |connections| ==> Separate(connections[i], connections[j])
      requires forall j :: 0 <= j < |connections| && j != k ==> connections[j].Tracks(model.conns[j])
      requires connections[k].Tracks(conn)
      modifies `model
      ensures Valid() && model == old(model).(conns := old(model).conns[k := conn])
    {
      model := model.(conns := model.conns[k := conn]);
    }

    /** connections.push_back, and the record with it. */
    method Append(connection: Connection, ghost conn: Conn)
      requires Valid() && {connection, connection.w2c, connection.c2w} !! Repr && connection.Tracks(conn)
      modifies this
      ensures Valid() && Repr == old(Repr) + {connection, connection.w2c, connection.c2w}
      ensures model == old(model).(conns := old(model).conns + [conn], created := old(model).created + 1)
    {
      connections := connections + [connection];
      model := model.(conns := model.conns + [conn], created := model.created + 1);
      Repr := Repr + {connection, connection.w2c, connection.c2w};
    }

    /** An event on connection k leaves the others as they are. */
    twostate lemma OthersStay(k: nat)
      requires old(Valid()) && unchanged(this) && k < |connections|
      requires forall o :: o in old(Repr) && o !in {connections[k], connections[k].w2c, connections[k].c2w} ==>
        unchanged(o)
      ensures forall j :: 0 <= j < |connections| && j != k ==> connections[j].Tracks(model.conns[j])
    {
      forall j | 0 <= j < |connections| && j != k ensures connections[j].Tracks(model.conns[j]) {
        assert connections[j] in connections && connections[j] in old(Repr);
        assert old(connections[j].Tracks(model.conns[j]));
        assert Separate(connections[if j < k then j else k], connections[if j < k then k else j]);
      }
    }

    method OneSided(asWorker: bool, fd: int, ghost conn: Conn) returns (connection: Connection)
      requires exists id :: conn == if asWorker then NewConn(id).(workerFd := fd) else NewConn(id).(controllerFd := fd)
      ensures fresh({connection, connection.w2c, connection.c2w}) && connection.Tracks(conn)
    {
      connection := new Connection();
      if asWorker {
        connection.workerFd := fd;
      } else {
        connection.controllerFd := fd;
      }
    }

    /** A connection from a worker (i = 0) or a controller joins the first that lacks one. */
    method AcceptOne(i: nat, fd: int)
      requires Valid() && i <= 1
      modifies Repr
      ensures Valid() && fresh(Repr - old(Repr))
      ensures model == if i == 0 then AcceptWorker(old(model), fd) else AcceptController(old(model), fd)
    {
      var index;
      if i == 0 {
        index := FindConnection(NONE, -2);
      } else {
        index := FindConnection(-2, NONE);
      }
      if index.Some? {
        Join(index.value, i == 0, fd);
      } else {
        ghost var conn := if i == 0 then NewConn(model.created).(workerFd := fd)
                          else NewConn(model.created).(controllerFd := fd);
        var connection := OneSided(i == 0, fd, conn);
        Append(connection, conn);
      }
    }

    /** Joins connection k: the descriptor takes the place that is open. */
    method Join(k: nat, asWorker: bool, fd: int)
      requires Valid() && k < |connections|
      modifies this, connections[k]
      ensures Valid() && Repr == old(Repr)
      ensures model == old(model).(conns := old(model).conns[k :=
        if asWorker then old(model).conns[k].(workerFd := fd) else old(model).conns[k].(controllerFd := fd)])
    {
      ghost var conn := model.conns[k];
      assert connections[k].Tracks(conn);
      if asWorker {
        connections[k].workerFd := fd;
      } else {
        connections[k].controllerFd := fd;
      }
      OthersStay(k);
      Record(k, if asWorker then conn.(workerFd := fd) else conn.(controllerFd := fd));
    }

    /** close_connection; the last branch is its fatal exit on a connection that is not listed. */
    method CloseConnection(connection: Connection, deleted: set<int>, ghost k: nat) returns (gone: set<int>)
      requires Valid() && k < |connections| && connections[k] == connection
      modifies this, connection
      ensures Valid() && Repr == old(Repr) && CloseStep(old(model), deleted, k) == Going(model, gone)
    {
      assert connection.Tracks(model.conns[k]);
      gone := deleted + {connection.workerFd, connection.controllerFd};
      connection.Die();
      OthersStay(k);
      for j := 0 to |connections|
        invariant j <= k && connections == old(connections) && model == old(model)
      {
        if connections[j] == connection {
          assert j == k;
          Remove(j);
          return;
        }
      }
      assert false;
    }

    /** connections.erase, and the record with it. */
    method Remove(k: nat)
      requires this in Repr && k < |connections| && |model.conns| == |connections|
      requires forall c :: c in connections ==> c in Repr && c.w2c in Repr && c.c2w in Repr
      requires forall i, j :: 0 <= i < j < |connections| ==> Separate(connections[i], connections[j])
      requires forall j :: 0 <= j < |connections| && j != k ==> connections[j].Tracks(model.conns[j])
      modifies this
      ensures Valid() && Repr == old(Repr) && model == Close(old(model), k)
    {
      ghost var was, conns := connections, model.conns;
      connections := connections[..k] + connections[k + 1..];
      model := Close(model, k);
      forall j | 0 <= j < |connections| ensures connections[j].Tracks(model.conns[j]) {
        assert was[if j < k then j else j + 1].Tracks(conns[if j < k then j else j + 1]);
      }
    }

    /** Whether accept may return this: nothing, or a descriptor that is not in use. */
    method IsAcceptable(fd: int) returns (acceptable: bool)
      requires Valid()
      ensures acceptable == Acceptable(servers, model, fd)
    {
      var index := FindConnection(fd, fd);
      acceptable := fd == NONE || (fd >= 0 && fd != servers.worker && fd != servers.controller && index == None);
    }

    // The flags of one descriptor.

    method ReceiveFrom(fd: int, e: Poll, deleted: set<int>, i: nat) returns (code: Code, skip: bool, gone: set<int>)
      requires Valid() && e.readable && i >= 2
      modifies Repr
      ensures fresh(Repr - old(Repr))
      ensures var (status, skipped) := ReadStep(servers, old(model), deleted, i, fd, e);
        skip == skipped && Agrees(code, gone, status)
    {
      hide Acceptable, AcceptStep;
      code, skip, gone := Continue, false, deleted;
      var index := FindConnection(fd, fd);
      if index == None {
        return FatalExit, false, deleted;
      }
      var connection := connections[index.value];
      ghost var conn := model.conns[index.value];
      assert connection.Tracks(conn);
      var r;
      ghost var next;
      r, next := connection.Receive(fd, e.recv, conn);
      OthersStay(index.value);
      Record(index.value, next);
      if r == Reset {
        gone := CloseConnection(connection, deleted, index.value);
        skip := true;
      } else if r == Failed {
        code := ReturnError;
      }
    }

    method SendTo(fd: int, e: Poll, deleted: set<int>, i: nat) returns (code: Code, out: Bytes)
      requires Valid() && e.writable && i >= 2
      modifies Repr
      ensures fresh(Repr - old(Repr)) && Agrees(code, deleted, WriteStep(old(model), deleted, i, fd, e))
      ensures match Find(old(model).conns, fd, fd)
        case None => out == []
        case Some(k) => out == Out(old(model).conns[k], fd, e.send)
    {
      hide SentTo, Out, Waiting;
      var index := FindConnection(fd, fd);
      if index == None {
        return FatalExit, [];
      }
      var connection := connections[index.value];
      ghost var conn := model.conns[index.value];
      assert connection.Tracks(conn);
      var r;
      ghost var next;
      r, out, next := connection.Send(fd, e.send, conn);
      if r != Done {
        return ReturnError, out;
      }
      OthersStay(index.value);
      Record(index.value, next);
      code := Continue;
    }

    method HangUp(fd: int, e: Poll, deleted: set<int>, i: nat) returns (code: Code, gone: set<int>)
      requires Valid() && e.hungUp && i >= 2
      modifies Repr
      ensures fresh(Repr - old(Repr)) && Agrees(code, gone, HangStep(old(model), deleted, i, fd, e))
    {
      var index := FindConnection(fd, fd);
      if index == None {
        return FatalExit, deleted;
      }
      gone := CloseConnection(connections[index.value], deleted, index.value);
      code := Continue;
    }

    method ServeEntry(i: nat, fd: int, e: Poll, deleted: set<int>) returns (code: Code, gone: set<int>)
      requires Valid()
      modifies Repr
      ensures fresh(Repr - old(Repr)) && Agrees(code, gone, EntryStep(servers, old(model), deleted, i, fd, e))
    {
      hide Acceptable, AcceptWorker, AcceptController, CloseStep, SentTo, Relay.Buffered, Waiting;
      code, gone := Continue, deleted;
      if fd in deleted {
        return;
      }
      var skip := false;
      if e.readable {
        if i <= 1 {
          var acceptable := IsAcceptable(e.newFd);
          if acceptable {
            AcceptOne(i, e.newFd);
          }
        } else {
          code, skip, gone := ReceiveFrom(fd, e, deleted, i);
        }
      }
      if code == Continue && e.writable && !skip && i >= 2 {
        var out;
        code, out := SendTo(fd, e, gone, i);
      }
      if code == Continue && e.hungUp && !skip && i >= 2 {
        code, gone := HangUp(fd, e, gone, i);
      }
    }

    // The loops.

    /** One round: the list of descriptors is made once and scanned while connections come and go. */
    method DoRound(polls: nat -> Poll) returns (code: Code)
      requires Valid()
      modifies Repr
      ensures fresh(Repr - old(Repr))
      ensures exists deleted :: Agrees(code, deleted, Round(servers, old(model), polls))
    {
      hide EntryStep, PollFds;
      var fds := ListFds();
      ghost var goal := Round(servers, model, polls);
      var deleted: set<int> := {};
      code := Continue;
      for i := 0 to |fds|
        invariant code == Continue && Valid() && fresh(Repr - old(Repr))
        invariant goal == Scan(servers, model, deleted, fds, i, polls)
      {
        code, deleted := ServeEntry(i, fds[i], polls(i), deleted);
        if code != Continue {
          assert Agrees(code, deleted, goal);
          return;
        }
      }
      assert Agrees(code, deleted, goal);
    }

    /**
     * start_proxy over the rounds given, from the start: no fatal exit, and
     * every byte sent on or buffered is a byte received, in order.
     */
    method MainLoop(rounds: seq<nat -> Poll>) returns (code: Code)
      requires Valid() && model == Relay.Start() && servers.worker >= 0 && servers.controller >= 0
      requires servers.worker != servers.controller
      modifies Repr
      ensures fresh(Repr - old(Repr)) && code != FatalExit
      ensures match Relay.Run(servers, Relay.Start(), rounds)
        case Going(p, _) => code == Continue && Valid() && model == p && ProxyInv(servers, model)
        case _ => code == ReturnError
    {
      hide Relay.Round, ProxyInv;
      code := Continue;
      assert rounds[0..] == rounds;
      for i := 0 to |rounds|
        invariant code == Continue && Valid() && fresh(Repr - old(Repr))
        invariant Relay.Run(servers, Relay.Start(), rounds) == Relay.Run(servers, model, rounds[i..])
      {
        assert rounds[i..][0] == rounds[i] && rounds[i..][1..] == rounds[i + 1..];
        code := DoRound(rounds[i]);
        if code != Continue {
          NeverFatal(servers, rounds);
          return;
        }
      }
      StartInv(servers);
      RunKeeps(servers, Relay.Start(), rounds);
    }
  }
}
