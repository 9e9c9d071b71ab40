/** What the proxy polls, and what it does about each descriptor that is polled. */
module Polling {
  import opened Wrappers
  import opened Framing
  import opened Relay
  import opened Pairing

  /** The listening sockets, then every open descriptor once: by connection in list order, the worker's first. */
  ghost predicate PolledInOrder(s: Servers, p: Proxy, fds: seq<int>) {
    && |fds| >= 2 && fds[0] == s.worker && fds[1] == s.controller
    && (forall fd :: Open(p, fd) <==> fd in fds[2..])
    && OnceInOrder(p.conns, fds[2..])
  }

  predicate OnceInOrder(conns: seq<Conn>, fds: seq<int>) {
    && (forall i, j :: 0 <= i < j < |fds| ==> fds[i] != fds[j])
    && (forall i, j :: 0 <= i < j < |fds| ==> Earlier(conns, fds[i], fds[j]))
  }

  /** Whoever has x comes before whoever has y, or is the same and has x for its worker. */
  predicate Earlier(conns: seq<Conn>, x: int, y: int) {
    forall a, b :: 0 <= a < |conns| && 0 <= b < |conns| && Has(conns[a], x) && Has(conns[b], y) ==>
      a < b || (a == b && x == conns[a].workerFd && y == conns[a].controllerFd)
  }

  /** These are the descriptors the connections have. */
  ghost predicate ListsAll(conns: seq<Conn>, fds: seq<int>) {
    forall fd :: fd in fds <==> fd != NONE && exists k :: 0 <= k < |conns| && Has(conns[k], fd)
  }

  lemma OwnFds(conn: Conn)
    ensures forall fd :: fd in FdsOf(conn) <==> fd != NONE && Has(conn, fd)
    ensures |FdsOf(conn)| == 2 ==> FdsOf(conn) == [conn.workerFd, conn.controllerFd]
  {
  }

  lemma {:induction false} ConnFdsList(conns: seq<Conn>)
    ensures ListsAll(conns, ConnFds(conns))
  {
    hide FdsOf, Has;
    if conns != [] {
      var n := |conns| - 1;
      ConnFdsList(conns[..n]);
      OwnFds(conns[n]);
      forall fd ensures fd in ConnFds(conns) <==> fd != NONE && exists k :: 0 <= k < |conns| && Has(conns[k], fd) {
        if k :| 0 <= k < |conns| && Has(conns[k], fd) {
          assert k < n ==> conns[..n][k] == conns[k];
        }
        if k :| 0 <= k < n && Has(conns[..n][k], fd) {
          assert Has(conns[k], fd);
        }
      }
    }
  }

  lemma OnlyOwner(s: Servers, conns: seq<Conn>, a: nat, b: nat, fd: int)
    requires FdsInv(s, conns) && a < |conns| && b < |conns| && fd != NONE && Has(conns[a], fd) && Has(conns[b], fd)
    ensures a == b
  {
    assert a == b || Apart(conns[a], conns[b]);
  }

  lemma {:induction false} ConnFdsOrder(s: Servers, conns: seq<Conn>)
    requires FdsInv(s, conns)
    ensures OnceInOrder(conns, ConnFds(conns))
  {
    hide FdsInv, Has, FdsOf;
    if conns != [] {
      var n := |conns| - 1;
      var before, own := ConnFds(conns[..n]), FdsOf(conns[n]);
      assert FdsInv(s, conns[..n]) by { PrefixApart(s, conns, n); }
      ConnFdsOrder(s, conns[..n]);
      ConnFdsList(conns[..n]);
      OwnFds(conns[n]);
      forall i, j | 0 <= i < j < |before + own|
        ensures (before + own)[i] != (before + own)[j]
        ensures Earlier(conns, (before + own)[i], (before + own)[j])
      {
        PairInOrder(s, conns, before, own, i, j);
      }
    }
  }

  lemma PrefixApart(s: Servers, conns: seq<Conn>, n: nat)
    requires FdsInv(s, conns) && n <= |conns|
    ensures FdsInv(s, conns[..n])
  {
  }

  lemma PairInOrder(s: Servers, conns: seq<Conn>, before: seq<int>, own: seq<int>, i: nat, j: nat)
    requires FdsInv(s, conns) && conns != [] && i < j < |before + own|
    requires ListsAll(conns[..|conns| - 1], before) && OnceInOrder(conns[..|conns| - 1], before)
    requires own == FdsOf(conns[|conns| - 1])
    ensures var x, y := (before + own)[i], (before + own)[j];
      x != y && Earlier(conns, x, y)
  {
    hide FdsInv, Has;
    var n := |conns| - 1;
    var x, y := (before + own)[i], (before + own)[j];
    OwnFds(conns[n]);
    OwnApart(s, conns);
    if i < |before| {
      assert x in before;
      var a: nat :| a < n && Has(conns[..n][a], x);
      assert conns[..n][a] == conns[a];
      if j < |before| {
        assert y in before;
        var b: nat :| b < n && Has(conns[..n][b], y);
        assert conns[..n][b] == conns[b];
        OwnersOnly(s, conns, a, x);
        OwnersOnly(s, conns, b, y);
      } else {
        assert y in own;
        OwnersOnly(s, conns, a, x);
        OwnersOnly(s, conns, n, y);
      }
    } else {
      assert x in own && y in own;
      OwnersOnly(s, conns, n, x);
      OwnersOnly(s, conns, n, y);
    }
  }

  lemma OwnApart(s: Servers, conns: seq<Conn>)
    requires FdsInv(s, conns) && conns != []
    ensures var own := FdsOf(conns[|conns| - 1]); |own| == 2 ==> own[0] != own[1]
  {
  }

  lemma OwnersOnly(s: Servers, conns: seq<Conn>, k: nat, fd: int)
    requires FdsInv(s, conns) && k < |conns| && fd != NONE && Has(conns[k], fd)
    ensures forall a :: 0 <= a < |conns| && Has(conns[a], fd) ==> a == k
  {
    forall a | 0 <= a < |conns| && Has(conns[a], fd) ensures a == k {
      OnlyOwner(s, conns, a, k, fd);
    }
  }

  /** Open descriptors are polled, all of them and nothing else. */
  lemma PolledExactly(s: Servers, p: Proxy)
    requires ProxyInv(s, p)
    ensures PolledInOrder(s, p, PollFds(s, p))
  {
    hide ConnFds, Has, ConnInv, Matched;
    ConnFdsList(p.conns);
    ConnFdsOrder(s, p.conns);
    assert PollFds(s, p)[2..] == ConnFds(p.conns);
  }

  // What becomes of bytes that are waiting.

  function Side(conn: Conn, asWorker: bool): int {
    if asWorker then conn.workerFd else conn.controllerFd
  }

  /** What is buffered for the side, and what has been sent to it. */
  function For(conn: Conn, asWorker: bool): Bytes {
    if asWorker then conn.c2w else conn.w2c
  }

  function To(conn: Conn, asWorker: bool): Bytes {
    if asWorker then conn.toWorker else conn.toController
  }

  /** The same connection, to whose side nothing has been sent since. */
  predicate Kept(a: Conn, asWorker: bool, b: Conn) {
    && b.id == a.id && Side(b, asWorker) == Side(a, asWorker)
    && For(a, asWorker) <= For(b, asWorker) && To(b, asWorker) == To(a, asWorker)
  }

  /** It is open with its bytes still waiting, or has been closed with them. */
  ghost predicate Waits(a: Conn, asWorker: bool, p: Proxy) {
    || (exists b :: b in p.conns && Kept(a, asWorker, b))
    || (exists b :: b in p.closed && Kept(a, asWorker, b))
  }

  /** At least these bytes have been sent to the side, right behind what had been before. */
  ghost predicate Got(a: Conn, asWorker: bool, front: Bytes, p: Proxy) {
    exists b :: (b in p.conns || b in p.closed) && b.id == a.id && To(a, asWorker) + front <= To(b, asWorker)
  }

  lemma KeptHere(p: Proxy, k: nat, x: Conn, a: Conn, asWorker: bool)
    requires k < |p.conns| && Waits(a, asWorker, p) && (Kept(a, asWorker, p.conns[k]) ==> Kept(a, asWorker, x))
    ensures Waits(a, asWorker, p.(conns := p.conns[k := x]))
  {
    hide Kept;
    var next := p.(conns := p.conns[k := x]);
    if b :| b in p.conns && Kept(a, asWorker, b) {
      var j :| 0 <= j < |p.conns| && p.conns[j] == b;
      assert next.conns[j] in next.conns && Kept(a, asWorker, next.conns[j]);
    }
  }

  lemma KeptClosed(p: Proxy, k: nat, a: Conn, asWorker: bool)
    requires k < |p.conns| && Waits(a, asWorker, p)
    ensures Waits(a, asWorker, Close(p, k))
  {
    hide Kept;
    var next := Close(p, k);
    if b :| b in p.conns && Kept(a, asWorker, b) {
      var j :| 0 <= j < |p.conns| && p.conns[j] == b;
      if j == k {
        assert next.closed[|p.closed|] == b;
      } else {
        assert next.conns[if j < k then j else j - 1] == b;
      }
    } else {
      var b :| b in p.closed && Kept(a, asWorker, b);
      assert b in next.closed;
    }
  }

  lemma KeptAdded(p: Proxy, x: Conn, a: Conn, asWorker: bool)
    requires Waits(a, asWorker, p)
    ensures Waits(a, asWorker, p.(conns := p.conns + [x], created := p.created + 1))
  {
    hide Kept;
  }

  /** An accept gives a connection the side it lacks. */
  lemma AcceptLeaves(s: Servers, p: Proxy, i: nat, fd: int, a: Conn, asWorker: bool)
    requires ProxyInv(s, p) && Waits(a, asWorker, p) && Side(a, asWorker) != NONE
    ensures Waits(a, asWorker, if i == 0 then AcceptWorker(p, fd) else AcceptController(p, fd))
  {
    hide ProxyInv, Waits;
    if i == 0 {
      match Find(p.conns, NONE, -2)
      case Some(k) => FoundLacks(s, p, k); KeptHere(p, k, p.conns[k].(workerFd := fd), a, asWorker);
      case None => KeptAdded(p, NewConn(p.created).(workerFd := fd), a, asWorker);
    } else {
      match Find(p.conns, -2, NONE)
      case Some(k) => FoundLacks(s, p, k); KeptHere(p, k, p.conns[k].(controllerFd := fd), a, asWorker);
      case None => KeptAdded(p, NewConn(p.created).(controllerFd := fd), a, asWorker);
    }
  }

  /** What is received from one side, or sent to the other one, leaves this side's bytes in front. */
  lemma OtherSide(conn: Conn, fd: int, bytes: Bytes, count: nat, a: Conn, asWorker: bool)
    requires Kept(a, asWorker, conn) && Has(conn, fd) && fd != Side(a, asWorker)
    ensures Kept(a, asWorker, Buffered(conn, fd, bytes)) && Kept(a, asWorker, SentTo(conn, fd, count))
  {
  }

  lemma OwnReceive(conn: Conn, fd: int, bytes: Bytes, a: Conn, asWorker: bool)
    requires Kept(a, asWorker, conn) && fd == Side(a, asWorker) && conn.workerFd != conn.controllerFd
    ensures Kept(a, asWorker, Buffered(conn, fd, bytes))
  {
  }

  /** No entry but its own sends to the side. */
  lemma ReadLeaves(s: Servers, p: Proxy, deleted: set<int>, i: nat, fd: int, e: Poll, a: Conn, asWorker: bool)
    requires ProxyInv(s, p) && Waits(a, asWorker, p) && Side(a, asWorker) != NONE
    requires ReadStep(s, p, deleted, i, fd, e).0.Going?
    ensures Waits(a, asWorker, ReadStep(s, p, deleted, i, fd, e).0.proxy)
  {
    hide ProxyInv, Waits, Kept, AcceptWorker, AcceptController, Close, Buffered;
    if e.readable {
      if i <= 1 {
        AcceptLeaves(s, p, i, e.newFd, a, asWorker);
      } else {
        var k := Find(p.conns, fd, fd).value;
        KeptClosed(p, k, a, asWorker);
        if e.recv.Offered? && e.recv.bytes != [] {
          var bytes := e.recv.bytes[..Min(|e.recv.bytes|, TMP_BUFFER_SIZE)];
          if Kept(a, asWorker, p.conns[k]) {
            if fd == Side(a, asWorker) {
              TwoSides(s, p, k, a, asWorker);
              OwnReceive(p.conns[k], fd, bytes, a, asWorker);
            } else {
              OtherSide(p.conns[k], fd, bytes, 0, a, asWorker);
            }
          }
          KeptHere(p, k, Buffered(p.conns[k], fd, bytes), a, asWorker);
        }
      }
    }
  }

  lemma TwoSides(s: Servers, p: Proxy, k: nat, a: Conn, asWorker: bool)
    requires ProxyInv(s, p) && k < |p.conns| && Kept(a, asWorker, p.conns[k]) && Side(a, asWorker) != NONE
    ensures p.conns[k].workerFd != p.conns[k].controllerFd
  {
  }

  lemma WriteLeaves(p: Proxy, deleted: set<int>, i: nat, fd: int, e: Poll, a: Conn, asWorker: bool)
    requires Waits(a, asWorker, p) && fd != Side(a, asWorker) && WriteStep(p, deleted, i, fd, e).Going?
    ensures Waits(a, asWorker, WriteStep(p, deleted, i, fd, e).proxy)
  {
    hide Waits, Kept, SentTo;
    if e.writable && i >= 2 && e.send.Accepted? {
      var k := Find(p.conns, fd, fd).value;
      if Kept(a, asWorker, p.conns[k]) {
        OtherSide(p.conns[k], fd, [], e.send.count, a, asWorker);
      }
      KeptHere(p, k, SentTo(p.conns[k], fd, e.send.count), a, asWorker);
    }
  }

  lemma HangLeaves(p: Proxy, deleted: set<int>, i: nat, fd: int, e: Poll, a: Conn, asWorker: bool)
    requires Waits(a, asWorker, p) && HangStep(p, deleted, i, fd, e).Going?
    ensures Waits(a, asWorker, HangStep(p, deleted, i, fd, e).proxy)
  {
    hide Waits, Close;
    if e.hungUp && i >= 2 {
      KeptClosed(p, Find(p.conns, fd, fd).value, a, asWorker);
    }
  }

  lemma EntryLeaves(s: Servers, p: Proxy, deleted: set<int>, fds: seq<int>, i: nat, e: Poll, a: Conn, asWorker: bool)
    requires EntryInv(s, p, deleted, fds, i) && i < |fds| && EntryStep(s, p, deleted, i, fds[i], e).Going?
    requires Waits(a, asWorker, p) && Side(a, asWorker) != NONE && (i >= 2 ==> fds[i] != Side(a, asWorker))
    ensures Waits(a, asWorker, EntryStep(s, p, deleted, i, fds[i], e).proxy)
  {
    hide ProxyInv, ReadStep, WriteStep, HangStep, ScanInv, Waits;
    if fds[i] !in deleted {
      var (status, skip) := ReadStep(s, p, deleted, i, fds[i], e);
      ReadLeaves(s, p, deleted, i, fds[i], e, a, asWorker);
      if !skip {
        var status2 := WriteStep(status.proxy, status.deleted, i, fds[i], e);
        if i >= 2 {
          WriteLeaves(status.proxy, status.deleted, i, fds[i], e, a, asWorker);
        } else {
          NoWrite(status.proxy, status.deleted, i, fds[i], e);
        }
        HangLeaves(status2.proxy, status2.deleted, i, fds[i], e, a, asWorker);
      }
    }
  }

  lemma NoWrite(p: Proxy, deleted: set<int>, i: nat, fd: int, e: Poll)
    requires i <= 1
    ensures WriteStep(p, deleted, i, fd, e) == Going(p, deleted)
  {
  }

  // Its own entry.

  /** Its connection has been closed with the bytes still waiting. */
  ghost predicate Ended(a: Conn, asWorker: bool, p: Proxy) {
    exists b :: b in p.closed && Kept(a, asWorker, b)
  }

  function Front(a: Conn, asWorker: bool, count: nat): Bytes {
    For(a, asWorker)[..Min(count, |For(a, asWorker)|)]
  }

  lemma OwnedBy(s: Servers, p: Proxy, k: nat, fd: int)
    requires ProxyInv(s, p) && k < |p.conns| && fd != NONE && Has(p.conns[k], fd)
    ensures Open(p, fd) && Find(p.conns, fd, fd) == Some(k)
    ensures p.conns[k].workerFd != NONE ==> p.conns[k].workerFd != p.conns[k].controllerFd
  {
    OwnerFound(p, fd);
    OnlyOwner(s, p.conns, Find(p.conns, fd, fd).value, k, fd);
  }

  /** A send takes the front of what is waiting. */
  lemma WriteGives(s: Servers, p: Proxy, deleted: set<int>, i: nat, e: Poll, a: Conn, asWorker: bool, k: nat)
    requires ProxyInv(s, p) && k < |p.conns| && Kept(a, asWorker, p.conns[k]) && Side(a, asWorker) != NONE && i >= 2
    requires e.writable && e.send.Accepted? && WriteStep(p, deleted, i, Side(a, asWorker), e).Going?
    ensures Got(a, asWorker, Front(a, asWorker, e.send.count), WriteStep(p, deleted, i, Side(a, asWorker), e).proxy)
  {
    hide ProxyInv, Find;
    var fd := Side(a, asWorker);
    OwnedBy(s, p, k, fd);
    var next := WriteStep(p, deleted, i, fd, e).proxy;
    assert next.conns[k] in next.conns;
    var n := Min(e.send.count, |For(p.conns[k], asWorker)|);
    assert Front(a, asWorker, e.send.count) <= For(p.conns[k], asWorker)[..n];
  }

  lemma GotStays(p: Proxy, next: Proxy, a: Conn, asWorker: bool, front: Bytes)
    requires Got(a, asWorker, front, p) && Extends(p, next)
    ensures Got(a, asWorker, front, next)
  {
    var b :| (b in p.conns || b in p.closed) && b.id == a.id && To(a, asWorker) + front <= To(b, asWorker);
    if b in p.conns {
      assert LivesOn(b, next);
      var later :| (later in next.conns || later in next.closed) && Grown(b, later);
    } else {
      assert b in next.closed;
    }
  }

  lemma EndedStays(p: Proxy, next: Proxy, a: Conn, asWorker: bool)
    requires Ended(a, asWorker, p) && Extends(p, next)
    ensures Ended(a, asWorker, next)
  {
    hide Kept;
    var b :| b in p.closed && Kept(a, asWorker, b);
    assert b in next.closed;
  }

  lemma OpenIsNotDeleted(s: Servers, p: Proxy, deleted: set<int>, fds: seq<int>, i: nat, k: nat, fd: int)
    requires EntryInv(s, p, deleted, fds, i) && k < |p.conns| && fd != NONE && Has(p.conns[k], fd)
    ensures Open(p, fd) && fd !in deleted
  {
  }

  /** A descriptor whose receive closed its connection is open no longer. */
  lemma SkipShuts(s: Servers, p: Proxy, deleted: set<int>, i: nat, fd: int, e: Poll)
    requires ProxyInv(s, p) && i >= 2 && Open(p, fd) && ReadStep(s, p, deleted, i, fd, e).1
    ensures !Open(ReadStep(s, p, deleted, i, fd, e).0.proxy, fd)
  {
    hide ProxyInv, Open;
    CloseNeeds(s, p);
    OwnerFound(p, fd);
    CloseShuts(s, p, Find(p.conns, fd, fd).value);
  }

  lemma EntryServes(s: Servers, p: Proxy, deleted: set<int>, fds: seq<int>, i: nat, e: Poll, a: Conn, asWorker: bool)
    requires EntryInv(s, p, deleted, fds, i) && 2 <= i < |fds| && EntryStep(s, p, deleted, i, fds[i], e).Going?
    requires Waits(a, asWorker, p) && Side(a, asWorker) == fds[i] != NONE && e.writable && e.send.Accepted?
    ensures var next := EntryStep(s, p, deleted, i, fds[i], e).proxy;
      Got(a, asWorker, Front(a, asWorker, e.send.count), next) || Ended(a, asWorker, next)
  {
    hide ProxyInv, ReadStep, WriteStep, HangStep, ScanInv, Kept, Got, Extends, Open;
    var next := EntryStep(s, p, deleted, i, fds[i], e).proxy;
    EntryExtends(s, p, deleted, fds, i, e);
    if Ended(a, asWorker, p) {
      EndedStays(p, next, a, asWorker);
    } else {
      var k := OpenPlace(p, a, asWorker);
      OpenIsNotDeleted(s, p, deleted, fds, i, k, fds[i]);
      var (status, skip) := ReadStep(s, p, deleted, i, fds[i], e);
      ReadLeaves(s, p, deleted, i, fds[i], e, a, asWorker);
      ReadKeeps(s, p, deleted, fds, i, e);
      if skip {
        SkipShuts(s, p, deleted, i, fds[i], e);
        NotOpenIsEnded(status.proxy, a, asWorker);
      } else {
        RestServes(s, status.proxy, status.deleted, fds, i, e, a, asWorker);
      }
    }
  }

  /** What is left of an entry after its receive. */
  lemma RestServes(s: Servers, p: Proxy, deleted: set<int>, fds: seq<int>, i: nat, e: Poll, a: Conn, asWorker: bool)
    requires ProxyInv(s, p) && 2 <= i < |fds| && Waits(a, asWorker, p) && Side(a, asWorker) == fds[i] != NONE
    requires e.writable && e.send.Accepted? && WriteStep(p, deleted, i, fds[i], e).Going?
    requires var status := WriteStep(p, deleted, i, fds[i], e);
      HangStep(status.proxy, status.deleted, i, fds[i], e).Going?
    ensures var status := WriteStep(p, deleted, i, fds[i], e);
      var next := HangStep(status.proxy, status.deleted, i, fds[i], e).proxy;
      Got(a, asWorker, Front(a, asWorker, e.send.count), next) || Ended(a, asWorker, next)
  {
    hide ProxyInv, WriteStep, HangStep, Kept, Got, Extends;
    var status := WriteStep(p, deleted, i, fds[i], e);
    var next := HangStep(status.proxy, status.deleted, i, fds[i], e).proxy;
    WriteExtends(p, deleted, i, fds[i], e);
    HangExtends(status.proxy, status.deleted, i, fds[i], e);
    if Ended(a, asWorker, p) {
      EndedStays(p, status.proxy, a, asWorker);
      EndedStays(status.proxy, next, a, asWorker);
    } else {
      var k := OpenPlace(p, a, asWorker);
      WriteGives(s, p, deleted, i, e, a, asWorker, k);
      GotStays(status.proxy, next, a, asWorker, Front(a, asWorker, e.send.count));
    }
  }

  lemma OpenPlace(p: Proxy, a: Conn, asWorker: bool) returns (k: nat)
    requires Waits(a, asWorker, p) && !Ended(a, asWorker, p)
    ensures k < |p.conns| && Kept(a, asWorker, p.conns[k]) && Has(p.conns[k], Side(a, asWorker))
  {
    var b :| b in p.conns && Kept(a, asWorker, b);
    k :| k < |p.conns| && p.conns[k] == b;
  }

  lemma NotOpenIsEnded(p: Proxy, a: Conn, asWorker: bool)
    requires Waits(a, asWorker, p) && Side(a, asWorker) != NONE && !Open(p, Side(a, asWorker))
    ensures Ended(a, asWorker, p)
  {
    if !Ended(a, asWorker, p) {
      var k := OpenPlace(p, a, asWorker);
      assert false;
    }
  }

  lemma {:induction false} ScanServes(s: Servers, p: Proxy, deleted: set<int>, fds: seq<int>, j: nat,
      polls: nat -> Poll, i: nat, a: Conn, asWorker: bool)
    requires 2 <= i < |fds| && j <= i && EntryInv(s, p, deleted, fds, j) && Scan(s, p, deleted, fds, j, polls).Going?
    requires Waits(a, asWorker, p) && Side(a, asWorker) == fds[i] != NONE
    requires forall m :: 2 <= m < i ==> fds[m] != fds[i]
    requires polls(i).writable && polls(i).send.Accepted?
    ensures var next := Scan(s, p, deleted, fds, j, polls).proxy;
      Got(a, asWorker, Front(a, asWorker, polls(i).send.count), next) || Ended(a, asWorker, next)
    decreases i - j
  {
    hide EntryStep, EntryInv, Extends, Waits, Got, Ended;
    EntryKeeps(s, p, deleted, fds, j, polls(j));
    var status := EntryStep(s, p, deleted, j, fds[j], polls(j));
    if j < i {
      EntryLeaves(s, p, deleted, fds, j, polls(j), a, asWorker);
      ScanServes(s, status.proxy, status.deleted, fds, j + 1, polls, i, a, asWorker);
    } else {
      EntryServes(s, p, deleted, fds, i, polls(i), a, asWorker);
      ScanExtends(s, status.proxy, status.deleted, fds, i + 1, polls);
      var next := Scan(s, p, deleted, fds, j, polls).proxy;
      if Ended(a, asWorker, status.proxy) {
        EndedStays(status.proxy, next, a, asWorker);
      } else {
        GotStays(status.proxy, next, a, asWorker, Front(a, asWorker, polls(i).send.count));
      }
    }
  }

  /**
   * A round that no error ends: for every side of every connection there is an
   * entry, and if it is found writable it gets the front of the bytes that
   * were waiting for it when the round began, unless the connection is closed
   * before.
   */
  lemma RoundServes(s: Servers, p: Proxy, polls: nat -> Poll, k: nat, asWorker: bool) returns (i: nat)
    requires ProxyInv(s, p) && Round(s, p, polls).Going? && k < |p.conns| && Side(p.conns[k], asWorker) != NONE
    ensures 2 <= i < |PollFds(s, p)| && PollFds(s, p)[i] == Side(p.conns[k], asWorker)
    ensures polls(i).writable && polls(i).send.Accepted? ==>
      var after := Round(s, p, polls).proxy; var a := p.conns[k];
      Got(a, asWorker, Front(a, asWorker, polls(i).send.count), after) || Ended(a, asWorker, after)
  {
    hide ProxyInv, ConnFds, Scan, Kept, Got, Ended, OnceInOrder;
    PolledExactly(s, p);
    var fds, a := PollFds(s, p), p.conns[k];
    assert Open(p, Side(a, asWorker));
    var m: nat :| m < |fds[2..]| && fds[2..][m] == Side(a, asWorker);
    i := m + 2;
    assert Waits(a, asWorker, p) by { KeptNow(p, k, asWorker); }
    RoundStarts(s, p);
    Once(p.conns, fds, i);
    if polls(i).writable && polls(i).send.Accepted? {
      ScanServes(s, p, {}, fds, 0, polls, i, a, asWorker);
    }
  }

  lemma KeptNow(p: Proxy, k: nat, asWorker: bool)
    requires k < |p.conns|
    ensures Waits(p.conns[k], asWorker, p)
  {
    assert Kept(p.conns[k], asWorker, p.conns[k]);
  }

  lemma Once(conns: seq<Conn>, fds: seq<int>, i: nat)
    requires 2 <= i < |fds| && OnceInOrder(conns, fds[2..])
    ensures forall m :: 2 <= m < i ==> fds[m] != fds[i]
  {
    forall m | 2 <= m < i ensures fds[m] != fds[i] {
      assert fds[2..][m - 2] != fds[2..][i - 2];
    }
  }

  // Which entries close their connection.

  /** The other side has hung up, or there is nothing to receive but the end or a reset. */
  predicate Ends(e: Poll) {
    e.hungUp || (e.readable && e.recv in {Offered([]), RecvError(true)})
  }

  lemma HangCloses(s: Servers, p: Proxy, deleted: set<int>, i: nat, fd: int, e: Poll)
    requires ProxyInv(s, p) && i >= 2 && Open(p, fd)
    ensures var status := HangStep(p, deleted, i, fd, e);
      && status.Going? && (Open(status.proxy, fd) <==> !e.hungUp)
      && (e.hungUp ==> ClosedOne(p, status.proxy, fd)) && (!e.hungUp ==> status.proxy == p)
  {
    hide ProxyInv, Open;
    CloseNeeds(s, p);
    OwnerFound(p, fd);
    CloseShuts(s, p, Find(p.conns, fd, fd).value);
  }

  /** The connection that had the descriptor is the last one closed. */
  predicate ClosedOne(p: Proxy, next: Proxy, fd: int) {
    |next.closed| == |p.closed| + 1 && next.closed[..|p.closed|] == p.closed && Has(next.closed[|p.closed|], fd)
  }

  lemma ReadCloses(s: Servers, p: Proxy, deleted: set<int>, fds: seq<int>, i: nat, e: Poll)
    requires EntryInv(s, p, deleted, fds, i) && 2 <= i < |fds| && Open(p, fds[i])
    requires ReadStep(s, p, deleted, i, fds[i], e).0.Going?
    ensures var (status, skip) := ReadStep(s, p, deleted, i, fds[i], e);
      && (skip <==> e.readable && e.recv in {Offered([]), RecvError(true)})
      && (if skip then !Open(status.proxy, fds[i]) && ClosedOne(p, status.proxy, fds[i])
          else Open(status.proxy, fds[i]) && status.proxy.closed == p.closed)
  {
    hide ProxyInv, Open;
    ReadKeeps(s, p, deleted, fds, i, e);
    OwnerFound(p, fds[i]);
    if ReadStep(s, p, deleted, i, fds[i], e).1 {
      SkipShuts(s, p, deleted, i, fds[i], e);
    }
  }

  /** An entry closes the connection exactly on a hang-up, an end or a reset; otherwise it stays open. */
  lemma EntryClosesExactly(s: Servers, p: Proxy, deleted: set<int>, fds: seq<int>, i: nat, e: Poll)
    requires EntryInv(s, p, deleted, fds, i) && 2 <= i < |fds| && fds[i] !in deleted
    requires EntryStep(s, p, deleted, i, fds[i], e).Going?
    ensures var next := EntryStep(s, p, deleted, i, fds[i], e).proxy;
      && (Open(next, fds[i]) <==> !Ends(e))
      && (if Ends(e) then ClosedOne(p, next, fds[i]) else next.closed == p.closed)
  {
    hide ProxyInv, Open, ReadStep, WriteStep, HangStep;
    var (status, skip) := ReadStep(s, p, deleted, i, fds[i], e);
    ReadCloses(s, p, deleted, fds, i, e);
    if !skip {
      ReadKeeps(s, p, deleted, fds, i, e);
      WriteKeeps(s, status.proxy, status.deleted, fds, i, e);
      var status2 := WriteStep(status.proxy, status.deleted, i, fds[i], e);
      WriteClosesNothing(status.proxy, status.deleted, i, fds[i], e);
      HangCloses(s, status2.proxy, status2.deleted, i, fds[i], e);
    }
  }

  lemma WriteClosesNothing(p: Proxy, deleted: set<int>, i: nat, fd: int, e: Poll)
    requires WriteStep(p, deleted, i, fd, e).Going?
    ensures WriteStep(p, deleted, i, fd, e).proxy.closed == p.closed
  {
  }

  lemma ReadFails(s: Servers, p: Proxy, deleted: set<int>, i: nat, fd: int, e: Poll, k: nat)
    requires ProxyInv(s, p) && i >= 2 && k < |p.conns| && fd != NONE && Has(p.conns[k], fd)
    ensures var (status, skip) := ReadStep(s, p, deleted, i, fd, e);
      && (status == Returned <==> e.readable && e.recv == RecvError(false)) && status != Fatal
      && (status.Going? && !skip ==>
            && k < |status.proxy.conns| && SameSides(status.proxy.conns[k], p.conns[k])
            && Waiting(status.proxy.conns[k], fd) == Waiting(p.conns[k], fd))
  {
    hide ProxyInv, Find;
    OwnedBy(s, p, k, fd);
  }

  lemma WriteFails(s: Servers, p: Proxy, deleted: set<int>, i: nat, fd: int, e: Poll, k: nat)
    requires ProxyInv(s, p) && i >= 2 && k < |p.conns| && fd != NONE && Has(p.conns[k], fd)
    ensures WriteStep(p, deleted, i, fd, e) == Returned <==>
      e.writable && e.send.SendError? && Waiting(p.conns[k], fd) != []
  {
    hide ProxyInv, Find;
    OwnedBy(s, p, k, fd);
  }

  /** An entry ends the round with an error exactly if its receive or its send fails otherwise. */
  lemma EntryFailsExactly(s: Servers, p: Proxy, deleted: set<int>, fds: seq<int>, i: nat, e: Poll, k: nat)
    requires EntryInv(s, p, deleted, fds, i) && 2 <= i < |fds| && fds[i] != NONE
    requires k < |p.conns| && Has(p.conns[k], fds[i])
    ensures EntryStep(s, p, deleted, i, fds[i], e) == Returned <==>
      || (e.readable && e.recv == RecvError(false))
      || (e.writable && e.send.SendError? && Waiting(p.conns[k], fds[i]) != []
          && !(e.readable && e.recv in {Offered([]), RecvError(true)}))
  {
    hide ProxyInv, Open, ReadStep, WriteStep, HangStep, Waiting;
    OpenIsNotDeleted(s, p, deleted, fds, i, k, fds[i]);
    var (status, skip) := ReadStep(s, p, deleted, i, fds[i], e);
    ReadFails(s, p, deleted, i, fds[i], e, k);
    if status.Going? {
      ReadCloses(s, p, deleted, fds, i, e);
      ReadKeeps(s, p, deleted, fds, i, e);
      if !skip {
        WriteFails(s, status.proxy, status.deleted, i, fds[i], e, k);
        WriteKeeps(s, status.proxy, status.deleted, fds, i, e);
        var status2 := WriteStep(status.proxy, status.deleted, i, fds[i], e);
        if status2.Going? {
          HangKeeps(s, status2.proxy, status2.deleted, fds, i, e);
        }
      }
    }
  }
}
