/** Connections of the proxy over time: sides are never exchanged, streams only grow. */
module Pairing {
  import opened Wrappers
  import opened Relay

  /** The same connection, at the same or a later time. */
  predicate Grown(a: Conn, b: Conn) {
    && a.id == b.id
    && (a.workerFd != NONE ==> b.workerFd == a.workerFd)
    && (a.controllerFd != NONE ==> b.controllerFd == a.controllerFd)
    && a.fromWorker <= b.fromWorker && a.toController <= b.toController
    && a.fromController <= b.fromController && a.toWorker <= b.toWorker
  }

  ghost predicate LivesOn(conn: Conn, p: Proxy) {
    exists later :: (later in p.conns || later in p.closed) && Grown(conn, later)
  }

  /** Closed connections are final; open ones stay what they are, or are closed. */
  ghost predicate Extends(p: Proxy, next: Proxy) {
    p.closed <= next.closed && forall conn :: conn in p.conns ==> LivesOn(conn, next)
  }

  lemma SameExtends(p: Proxy)
    ensures Extends(p, p)
  {
    forall conn | conn in p.conns ensures LivesOn(conn, p) {
      assert Grown(conn, conn);
    }
  }

  lemma ExtendsThrough(p: Proxy, q: Proxy, r: Proxy)
    requires Extends(p, q) && Extends(q, r)
    ensures Extends(p, r)
  {
    forall conn | conn in p.conns ensures LivesOn(conn, r) {
      var mid :| (mid in q.conns || mid in q.closed) && Grown(conn, mid);
      if mid in q.conns {
        var later :| (later in r.conns || later in r.closed) && Grown(mid, later);
        assert Grown(conn, later);
      } else {
        assert mid in r.closed;
      }
    }
  }

  lemma UpdateExtends(p: Proxy, k: nat, conn: Conn)
    requires k < |p.conns| && Grown(p.conns[k], conn)
    ensures Extends(p, p.(conns := p.conns[k := conn]))
  {
    hide Grown;
    var next := p.(conns := p.conns[k := conn]);
    forall c | c in p.conns ensures LivesOn(c, next) {
      var j :| 0 <= j < |p.conns| && p.conns[j] == c;
      assert Grown(c, c) by { ReflexiveGrown(c); }
      assert next.conns[j] in next.conns;
    }
  }

  lemma ReflexiveGrown(c: Conn)
    ensures Grown(c, c)
  {
  }

  lemma AddExtends(p: Proxy, conn: Conn)
    ensures Extends(p, p.(conns := p.conns + [conn], created := p.created + 1))
  {
    forall c | c in p.conns ensures LivesOn(c, p.(conns := p.conns + [conn], created := p.created + 1)) {
      ReflexiveGrown(c);
    }
  }

  lemma CloseExtends(p: Proxy, k: nat)
    requires k < |p.conns|
    ensures Extends(p, Close(p, k))
  {
    hide Grown;
    var next := Close(p, k);
    forall c | c in p.conns ensures LivesOn(c, next) {
      var j :| 0 <= j < |p.conns| && p.conns[j] == c;
      ReflexiveGrown(c);
      if j == k {
        assert next.closed[|p.closed|] == c;
      } else {
        assert next.conns[if j < k then j else j - 1] == c;
      }
    }
  }

  lemma AcceptExtends(s: Servers, p: Proxy, i: nat, fd: int)
    requires ProxyInv(s, p)
    ensures Extends(p, if i == 0 then AcceptWorker(p, fd) else AcceptController(p, fd))
  {
    hide Extends, ProxyInv;
    if i == 0 {
      match Find(p.conns, NONE, -2)
      case Some(k) => FoundLacks(s, p, k); UpdateExtends(p, k, p.conns[k].(workerFd := fd));
      case None => AddExtends(p, NewConn(p.created).(workerFd := fd));
    } else {
      match Find(p.conns, -2, NONE)
      case Some(k) => FoundLacks(s, p, k); UpdateExtends(p, k, p.conns[k].(controllerFd := fd));
      case None => AddExtends(p, NewConn(p.created).(controllerFd := fd));
    }
  }

  lemma ReadExtends(s: Servers, p: Proxy, deleted: set<int>, i: nat, fd: int, e: Poll)
    requires ProxyInv(s, p) && ReadStep(s, p, deleted, i, fd, e).0.Going?
    ensures Extends(p, ReadStep(s, p, deleted, i, fd, e).0.proxy)
  {
    hide Extends, ProxyInv, AcceptWorker, AcceptController, Close;
    SameExtends(p);
    if e.readable {
      if i <= 1 {
        AcceptExtends(s, p, i, e.newFd);
      } else {
        var k := Find(p.conns, fd, fd).value;
        CloseExtends(p, k);
        if e.recv.Offered? && e.recv.bytes != [] {
          var conn := Buffered(p.conns[k], fd, e.recv.bytes[..Min(|e.recv.bytes|, TMP_BUFFER_SIZE)]);
          UpdateExtends(p, k, conn);
        }
      }
    }
  }

  lemma WriteExtends(p: Proxy, deleted: set<int>, i: nat, fd: int, e: Poll)
    requires WriteStep(p, deleted, i, fd, e).Going?
    ensures Extends(p, WriteStep(p, deleted, i, fd, e).proxy)
  {
    hide Extends;
    SameExtends(p);
    if e.writable && i >= 2 && e.send.Accepted? {
      var k := Find(p.conns, fd, fd).value;
      UpdateExtends(p, k, SentTo(p.conns[k], fd, e.send.count));
    }
  }

  lemma HangExtends(p: Proxy, deleted: set<int>, i: nat, fd: int, e: Poll)
    requires HangStep(p, deleted, i, fd, e).Going?
    ensures Extends(p, HangStep(p, deleted, i, fd, e).proxy)
  {
    hide Extends, Close;
    SameExtends(p);
    if e.hungUp && i >= 2 {
      CloseExtends(p, Find(p.conns, fd, fd).value);
    }
  }

  lemma EntryExtends(s: Servers, p: Proxy, deleted: set<int>, fds: seq<int>, i: nat, e: Poll)
    requires EntryInv(s, p, deleted, fds, i) && i < |fds| && EntryStep(s, p, deleted, i, fds[i], e).Going?
    ensures Extends(p, EntryStep(s, p, deleted, i, fds[i], e).proxy)
  {
    hide Extends, ProxyInv, ReadStep, WriteStep, HangStep, ScanInv;
    SameExtends(p);
    if fds[i] !in deleted {
      var (status, skip) := ReadStep(s, p, deleted, i, fds[i], e);
      ReadExtends(s, p, deleted, i, fds[i], e);
      if !skip {
        var status2 := WriteStep(status.proxy, status.deleted, i, fds[i], e);
        WriteExtends(status.proxy, status.deleted, i, fds[i], e);
        HangExtends(status2.proxy, status2.deleted, i, fds[i], e);
        ExtendsThrough(p, status.proxy, status2.proxy);
        ExtendsThrough(p, status2.proxy, HangStep(status2.proxy, status2.deleted, i, fds[i], e).proxy);
      }
    }
  }

  lemma {:induction false} ScanExtends(s: Servers, p: Proxy, deleted: set<int>, fds: seq<int>, i: nat,
      polls: nat -> Poll)
    requires i <= |fds| && EntryInv(s, p, deleted, fds, i) && Scan(s, p, deleted, fds, i, polls).Going?
    ensures Extends(p, Scan(s, p, deleted, fds, i, polls).proxy)
    decreases |fds| - i
  {
    hide EntryStep, EntryInv, Extends;
    if i == |fds| {
      SameExtends(p);
    } else {
      EntryKeeps(s, p, deleted, fds, i, polls(i));
      EntryExtends(s, p, deleted, fds, i, polls(i));
      var next := EntryStep(s, p, deleted, i, fds[i], polls(i));
      ScanExtends(s, next.proxy, next.deleted, fds, i + 1, polls);
      ExtendsThrough(p, next.proxy, Scan(s, p, deleted, fds, i, polls).proxy);
    }
  }

  lemma RoundExtends(s: Servers, p: Proxy, polls: nat -> Poll)
    requires ProxyInv(s, p) && Round(s, p, polls).Going?
    ensures Extends(p, Round(s, p, polls).proxy)
  {
    hide ProxyInv, ConnFds, Extends, Scan;
    var fds := PollFds(s, p);
    forall j | 2 <= j < |fds| ensures Open(p, fds[j]) {
      PolledAreOpen(p.conns, j - 2);
    }
    ScanExtends(s, p, {}, fds, 0, polls);
  }

  /**
   * From any state a run reaches, over any further rounds: a paired worker and
   * controller stay paired with each other until both are closed, and what
   * went through a connection is only ever added to.
   */
  lemma {:induction false} NeverRepaired(s: Servers, p: Proxy, rounds: seq<nat -> Poll>)
    requires ProxyInv(s, p) && Run(s, p, rounds).Going?
    ensures Extends(p, Run(s, p, rounds).proxy)
    decreases |rounds|
  {
    hide ProxyInv, Round, Extends;
    if rounds == [] {
      SameExtends(p);
    } else {
      RoundKeeps(s, p, rounds[0]);
      RoundExtends(s, p, rounds[0]);
      var next := Round(s, p, rounds[0]).proxy;
      NeverRepaired(s, next, rounds[1..]);
      ExtendsThrough(p, next, Run(s, p, rounds).proxy);
    }
  }
}
