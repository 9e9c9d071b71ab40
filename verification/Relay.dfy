/** The proxy of src/proxy.cpp as a function of its events. */
module Relay {
  import opened Wrappers
  import opened Framing
  import opened Outgoing

  const NONE: int := -1
  const TMP_BUFFER_SIZE: nat := 128 * 1024

  /**
   * A connection has a descriptor for each side, or NONE, and a buffer for
   * each direction. The rest is its history: its number in the order of
   * creation, and the bytes received from and sent to each side.
   */
  datatype Conn = Conn(id: nat, workerFd: int, controllerFd: int, w2c: Bytes, c2w: Bytes,
                       fromWorker: Bytes, toController: Bytes, fromController: Bytes, toWorker: Bytes)

  datatype Proxy = Proxy(conns: seq<Conn>, closed: seq<Conn>, created: nat)

  /** The listening sockets. */
  datatype Servers = Servers(worker: int, controller: int)

  /** What poll reports for a descriptor and what its socket does; `newFd` is what accept returns. */
  datatype Poll = Poll(readable: bool, writable: bool, hungUp: bool, recv: RecvIO, send: SendIO, newFd: int)

  /** The middle of a scan, an error return, or the exit on a descriptor nobody owns. */
  datatype Status = Going(proxy: Proxy, deleted: set<int>) | Returned | Fatal

  predicate Has(conn: Conn, fd: int) {
    conn.workerFd == fd || conn.controllerFd == fd
  }

  /** The first connection with the worker or controller descriptor given; -2 matches none. */
  function Find(conns: seq<Conn>, workerFd: int, controllerFd: int): (r: Option<nat>)
    ensures r.Some? ==> r.value < |conns|
    ensures r.Some? ==> (conns[r.value].workerFd == workerFd || conns[r.value].controllerFd == controllerFd)
    ensures forall k :: 0 <= k < (if r.Some? then r.value else |conns|) ==>
      conns[k].workerFd != workerFd && conns[k].controllerFd != controllerFd
  {
    if conns == [] then None
    else if conns[0].workerFd == workerFd || conns[0].controllerFd == controllerFd then Some(0)
    else match Find(conns[1..], workerFd, controllerFd) case None => None case Some(k) => Some(k + 1)
  }

  function NewConn(id: nat): Conn {
    Conn(id, NONE, NONE, [], [], [], [], [], [])
  }

  predicate Open(p: Proxy, fd: int) {
    fd != NONE && exists k :: 0 <= k < |p.conns| && Has(p.conns[k], fd)
  }

  /** Descriptors come from the system, which never returns one in use. */
  predicate Fresh(s: Servers, p: Proxy, fd: int) {
    fd >= 0 && fd != s.worker && fd != s.controller && !Open(p, fd)
  }

  /** A worker connects; it joins the first connection that lacks one. */
  function AcceptWorker(p: Proxy, fd: int): Proxy {
    match Find(p.conns, NONE, -2)
    case Some(k) => p.(conns := p.conns[k := p.conns[k].(workerFd := fd)])
    case None => p.(conns := p.conns + [NewConn(p.created).(workerFd := fd)], created := p.created + 1)
  }

  function AcceptController(p: Proxy, fd: int): Proxy {
    match Find(p.conns, -2, NONE)
    case Some(k) => p.(conns := p.conns[k := p.conns[k].(controllerFd := fd)])
    case None => p.(conns := p.conns + [NewConn(p.created).(controllerFd := fd)], created := p.created + 1)
  }

  /** Bytes received from one side go to the end of the buffer for the other. */
  function Buffered(conn: Conn, fd: int, bytes: Bytes): Conn {
    if fd == conn.workerFd then conn.(w2c := conn.w2c + bytes, fromWorker := conn.fromWorker + bytes)
    else conn.(c2w := conn.c2w + bytes, fromController := conn.fromController + bytes)
  }

  /** What is sent to one side comes off the front of the buffer towards it. */
  function SentTo(conn: Conn, fd: int, count: nat): Conn {
    if fd == conn.workerFd then
      var n := Min(count, |conn.c2w|);
      conn.(c2w := conn.c2w[n..], toWorker := conn.toWorker + conn.c2w[..n])
    else
      var n := Min(count, |conn.w2c|);
      conn.(w2c := conn.w2c[n..], toController := conn.toController + conn.w2c[..n])
  }

  function Waiting(conn: Conn, fd: int): Bytes {
    if fd == conn.workerFd then conn.c2w else conn.w2c
  }

  function Erase<T>(s: seq<T>, k: nat): seq<T>
    requires k < |s|
  {
    s[..k] + s[k + 1..]
  }

  /** close_connection. */
  function Close(p: Proxy, k: nat): Proxy
    requires k < |p.conns|
  {
    Proxy(Erase(p.conns, k), p.closed + [p.conns[k]], p.created)
  }

  function CloseStep(p: Proxy, deleted: set<int>, k: nat): Status
    requires k < |p.conns|
  {
    Going(Close(p, k), deleted + {p.conns[k].workerFd, p.conns[k].controllerFd})
  }

  /** What accept returns: NONE when it fails, which is not noticed, or a descriptor not in use. */
  predicate Acceptable(s: Servers, p: Proxy, fd: int) {
    fd == NONE || Fresh(s, p, fd)
  }

  function AcceptStep(s: Servers, p: Proxy, deleted: set<int>, i: nat, e: Poll): Status {
    if !Acceptable(s, p, e.newFd) then Going(p, deleted)
    else Going(if i == 0 then AcceptWorker(p, e.newFd) else AcceptController(p, e.newFd), deleted)
  }

  /** The result, and whether the other flags of this descriptor are skipped. */
  function ReadStep(s: Servers, p: Proxy, deleted: set<int>, i: nat, fd: int, e: Poll): (Status, bool) {
    if !e.readable then (Going(p, deleted), false)
    else if i <= 1 then (AcceptStep(s, p, deleted, i, e), false)
    else match Find(p.conns, fd, fd)
      case None => (Fatal, false)
      case Some(k) =>
        match e.recv
        case RecvError(true) => (CloseStep(p, deleted, k), true)
        case RecvError(false) => (Returned, false)
        case Offered(bytes) =>
          if bytes == [] then (CloseStep(p, deleted, k), true)
          else
            var got := bytes[..Min(|bytes|, TMP_BUFFER_SIZE)];
            (Going(p.(conns := p.conns[k := Buffered(p.conns[k], fd, got)]), deleted), false)
  }

  function WriteStep(p: Proxy, deleted: set<int>, i: nat, fd: int, e: Poll): Status {
    if !e.writable || i <= 1 then Going(p, deleted)
    else match Find(p.conns, fd, fd)
      case None => Fatal
      case Some(k) =>
        if Waiting(p.conns[k], fd) == [] then Going(p, deleted)
        else match e.send
          case SendError => Returned
          case Accepted(count) => Going(p.(conns := p.conns[k := SentTo(p.conns[k], fd, count)]), deleted)
  }

  function HangStep(p: Proxy, deleted: set<int>, i: nat, fd: int, e: Poll): Status {
    if !e.hungUp || i <= 1 then Going(p, deleted)
    else match Find(p.conns, fd, fd) case None => Fatal case Some(k) => CloseStep(p, deleted, k)
  }

  /** One entry of the list of polled descriptors. */
  function EntryStep(s: Servers, p: Proxy, deleted: set<int>, i: nat, fd: int, e: Poll): Status {
    if fd in deleted then Going(p, deleted)
    else
      var (status, skip) := ReadStep(s, p, deleted, i, fd, e);
      if skip || !status.Going? then status
      else
        var status2 := WriteStep(status.proxy, status.deleted, i, fd, e);
        if !status2.Going? then status2 else HangStep(status2.proxy, status2.deleted, i, fd, e)
  }

  function FdsOf(conn: Conn): seq<int> {
    (if conn.workerFd != NONE then [conn.workerFd] else [])
    + (if conn.controllerFd != NONE then [conn.controllerFd] else [])
  }

  function ConnFds(conns: seq<Conn>): seq<int> {
    if conns == [] then [] else ConnFds(conns[..|conns| - 1]) + FdsOf(conns[|conns| - 1])
  }

  /** The descriptors polled in a round; the list is not updated while it is scanned. */
  function PollFds(s: Servers, p: Proxy): seq<int> {
    [s.worker, s.controller] + ConnFds(p.conns)
  }

  function Scan(s: Servers, p: Proxy, deleted: set<int>, fds: seq<int>, i: nat, polls: nat -> Poll): Status
    requires i <= |fds|
    decreases |fds| - i
  {
    if i == |fds| then Going(p, deleted)
    else match EntryStep(s, p, deleted, i, fds[i], polls(i))
      case Going(next, gone) => Scan(s, next, gone, fds, i + 1, polls)
      case other => other
  }

  function Round(s: Servers, p: Proxy, polls: nat -> Poll): Status {
    Scan(s, p, {}, PollFds(s, p), 0, polls)
  }

  function Start(): Proxy {
    Proxy([], [], 0)
  }

  function Run(s: Servers, p: Proxy, rounds: seq<nat -> Poll>): Status
    decreases |rounds|
  {
    if rounds == [] then Going(p, {})
    else match Round(s, p, rounds[0])
      case Going(next, _) => Run(s, next, rounds[1..])
      case other => other
  }

  // Invariants.

  /** Bytes received are the bytes sent on followed by the bytes buffered. */
  predicate Transparent(conn: Conn) {
    && conn.fromWorker == conn.toController + conn.w2c
    && conn.fromController == conn.toWorker + conn.c2w
  }

  /** Nothing came from or went to a side that never connected. */
  predicate ConnInv(conn: Conn) {
    && conn.workerFd >= NONE && conn.controllerFd >= NONE
    && (conn.workerFd == NONE ==> conn.fromWorker == [] && conn.toWorker == [])
    && (conn.controllerFd == NONE ==> conn.fromController == [] && conn.toController == [])
    && Transparent(conn)
  }

  predicate Apart(a: Conn, b: Conn) {
    && (a.workerFd != NONE ==> !Has(b, a.workerFd))
    && (a.controllerFd != NONE ==> !Has(b, a.controllerFd))
  }

  /** All open descriptors are distinct, those of one connection and the listening ones included. */
  predicate FdsInv(s: Servers, conns: seq<Conn>) {
    && (forall k :: 0 <= k < |conns| ==>
          !Has(conns[k], s.worker) && !Has(conns[k], s.controller)
          && (conns[k].workerFd != NONE ==> conns[k].workerFd != conns[k].controllerFd))
    && (forall i, j :: 0 <= i < |conns| && 0 <= j < |conns| && i != j ==> Apart(conns[i], conns[j]))
  }

  predicate LacksWorker(conn: Conn) { conn.workerFd == NONE }

  predicate LacksController(conn: Conn) { conn.controllerFd == NONE }

  predicate Empty(conn: Conn) { LacksWorker(conn) && LacksController(conn) }

  /** A worker waits for a controller. */
  predicate OnlyWorker(conn: Conn) { !LacksWorker(conn) && LacksController(conn) }

  predicate OnlyController(conn: Conn) { LacksWorker(conn) && !LacksController(conn) }

  /**
   * No worker and controller wait for each other in different connections.
   * Empty connections, which failed accepts leave behind, come last.
   */
  predicate Matched(conns: seq<Conn>) {
    && (forall i, j :: 0 <= i < |conns| && 0 <= j < |conns| ==> !(OnlyWorker(conns[i]) && OnlyController(conns[j])))
    && (forall i, j :: 0 <= i < j < |conns| && Empty(conns[i]) ==> Empty(conns[j]))
  }

  /** List order is the order of creation. */
  predicate Ordered(p: Proxy) {
    && (forall k :: 0 <= k < |p.conns| ==> p.conns[k].id < p.created)
    && (forall i, j :: 0 <= i < j < |p.conns| ==> p.conns[i].id < p.conns[j].id)
  }

  predicate ProxyInv(s: Servers, p: Proxy) {
    && s.worker >= 0 && s.controller >= 0 && s.worker != s.controller
    && (forall k :: 0 <= k < |p.conns| ==> ConnInv(p.conns[k]))
    && (forall k :: 0 <= k < |p.closed| ==> ConnInv(p.closed[k]))
    && FdsInv(s, p.conns) && Matched(p.conns) && Ordered(p)
  }

  /** Every descriptor still to be looked at was closed in this round or has an owner. */
  predicate ScanInv(p: Proxy, deleted: set<int>, fds: seq<int>, i: nat) {
    && (i <= 1 ==> deleted == {})
    && (forall j :: i <= j < |fds| && 2 <= j ==> fds[j] in deleted || Open(p, fds[j]))
    && (forall fd :: fd in deleted ==> !Open(p, fd))
  }

  /** The same sides and the same number, whatever happened to the buffers. */
  predicate SameSides(a: Conn, b: Conn) {
    a.id == b.id && a.workerFd == b.workerFd && a.controllerFd == b.controllerFd
  }

  lemma UpdateApart(s: Servers, conns: seq<Conn>, k: nat, conn: Conn)
    requires k < |conns| && SameSides(conn, conns[k]) && FdsInv(s, conns)
    ensures FdsInv(s, conns[k := conn])
  {
    var next := conns[k := conn];
    forall i, j | 0 <= i < |next| && 0 <= j < |next| && i != j ensures Apart(next[i], next[j]) {
      assert Apart(conns[i], conns[j]);
    }
  }

  lemma UpdateMatched(conns: seq<Conn>, k: nat, conn: Conn)
    requires k < |conns| && SameSides(conn, conns[k]) && Matched(conns)
    ensures Matched(conns[k := conn])
  {
  }

  lemma UpdateKeeps(s: Servers, p: Proxy, k: nat, conn: Conn)
    requires ProxyInv(s, p) && k < |p.conns| && ConnInv(conn) && SameSides(conn, p.conns[k])
    ensures ProxyInv(s, p.(conns := p.conns[k := conn]))
    ensures forall fd :: Open(p, fd) <==> Open(p.(conns := p.conns[k := conn]), fd)
  {
    hide ConnInv, FdsInv, Matched;
    var next := p.(conns := p.conns[k := conn]);
    forall fd ensures Open(p, fd) <==> Open(next, fd) {
      if Open(p, fd) {
        var j :| 0 <= j < |p.conns| && Has(p.conns[j], fd);
        assert Has(next.conns[j], fd);
      }
      if Open(next, fd) {
        var j :| 0 <= j < |next.conns| && Has(next.conns[j], fd);
        assert Has(p.conns[j], fd);
      }
    }
    UpdateApart(s, p.conns, k, conn);
    UpdateMatched(p.conns, k, conn);
  }

  lemma CloseShuts(s: Servers, p: Proxy, k: nat)
    requires FdsInv(s, p.conns) && k < |p.conns|
    ensures forall fd :: Open(Close(p, k), fd) <==> Open(p, fd) && !Has(p.conns[k], fd)
  {
    var next := Close(p, k);
    forall fd ensures Open(next, fd) <==> Open(p, fd) && !Has(p.conns[k], fd) {
      if Open(next, fd) {
        var j :| 0 <= j < |next.conns| && Has(next.conns[j], fd);
        var i := if j < k then j else j + 1;
        assert next.conns[j] == p.conns[i];
        assert Has(p.conns[i], fd) && Apart(p.conns[i], p.conns[k]);
      }
      if Open(p, fd) && !Has(p.conns[k], fd) {
        var j :| 0 <= j < |p.conns| && Has(p.conns[j], fd);
        assert p.conns[j] == next.conns[if j < k then j else j - 1];
      }
    }
  }

  lemma CloseKeeps(s: Servers, p: Proxy, k: nat)
    requires ProxyInv(s, p) && k < |p.conns|
    ensures ProxyInv(s, Close(p, k))
  {
    hide ConnInv, FdsInv, Matched;
    var next := Close(p, k);
    assert forall j :: 0 <= j < |next.conns| ==> next.conns[j] == p.conns[if j < k then j else j + 1];
    EraseApart(s, p.conns, k);
    EraseMatched(p.conns, k);
  }

  lemma EraseApart(s: Servers, conns: seq<Conn>, k: nat)
    requires k < |conns| && FdsInv(s, conns)
    ensures FdsInv(s, Erase(conns, k))
  {
    hide Apart, Has;
    var next := Erase(conns, k);
    assert forall j :: 0 <= j < |next| ==> next[j] == conns[if j < k then j else j + 1];
  }

  lemma EraseMatched(conns: seq<Conn>, k: nat)
    requires k < |conns| && Matched(conns)
    ensures Matched(Erase(conns, k))
  {
    hide Empty, OnlyWorker, OnlyController;
    var next := Erase(conns, k);
    assert forall j :: 0 <= j < |next| ==> next[j] == conns[if j < k then j else j + 1];
  }

  /** A fresh descriptor joins a connection that lacks one, or starts a new one. */
  lemma JoinKeeps(s: Servers, p: Proxy, k: nat, conn: Conn, fd: int)
    requires ProxyInv(s, p) && k < |p.conns| && Fresh(s, p, fd)
    requires || (LacksWorker(p.conns[k]) && conn == p.conns[k].(workerFd := fd)
                 && forall j :: 0 <= j < k ==> !LacksWorker(p.conns[j]))
             || (LacksController(p.conns[k]) && conn == p.conns[k].(controllerFd := fd)
                 && forall j :: 0 <= j < k ==> !LacksController(p.conns[j]))
    ensures ProxyInv(s, p.(conns := p.conns[k := conn]))
    ensures forall x :: Open(p, x) ==> Open(p.(conns := p.conns[k := conn]), x)
    ensures forall x :: Open(p.(conns := p.conns[k := conn]), x) ==> Open(p, x) || x == fd
  {
    var next := p.(conns := p.conns[k := conn]);
    assert forall j :: 0 <= j < |p.conns| ==> !Has(p.conns[j], fd);
    forall x | Open(p, x) ensures Open(next, x) {
      var j :| 0 <= j < |p.conns| && Has(p.conns[j], x);
      assert Has(next.conns[j], x);
    }
    forall x | Open(next, x) ensures Open(p, x) || x == fd {
      var j :| 0 <= j < |next.conns| && Has(next.conns[j], x);
      assert x != fd ==> Has(p.conns[j], x);
    }
    JoinApart(s, p.conns, k, conn, fd);
    JoinMatched(p.conns, k, conn, fd);
    assert ConnInv(p.conns[k]);
  }

  lemma JoinApart(s: Servers, conns: seq<Conn>, k: nat, conn: Conn, fd: int)
    requires FdsInv(s, conns) && k < |conns| && fd >= 0 && fd != s.worker && fd != s.controller
    requires forall j :: 0 <= j < |conns| ==> !Has(conns[j], fd)
    requires s.worker >= 0 && s.controller >= 0
    requires || (LacksWorker(conns[k]) && conn == conns[k].(workerFd := fd))
             || (LacksController(conns[k]) && conn == conns[k].(controllerFd := fd))
    ensures FdsInv(s, conns[k := conn])
  {
    var next := conns[k := conn];
    forall i, j | 0 <= i < |next| && 0 <= j < |next| && i != j ensures Apart(next[i], next[j]) {
      assert Apart(conns[i], conns[j]) && Apart(conns[j], conns[i]);
    }
  }

  lemma JoinMatched(conns: seq<Conn>, k: nat, conn: Conn, fd: int)
    requires Matched(conns) && k < |conns| && fd >= 0
    requires || (LacksWorker(conns[k]) && conn == conns[k].(workerFd := fd)
                 && forall j :: 0 <= j < k ==> !LacksWorker(conns[j]))
             || (LacksController(conns[k]) && conn == conns[k].(controllerFd := fd)
                 && forall j :: 0 <= j < k ==> !LacksController(conns[j]))
    ensures Matched(conns[k := conn])
  {
  }

  lemma AddOpens(p: Proxy, conn: Conn, fd: int)
    requires (conn.workerFd == fd && conn.controllerFd == NONE) || (conn.workerFd == NONE && conn.controllerFd == fd)
    ensures var next := p.(conns := p.conns + [conn], created := p.created + 1);
      forall x :: Open(next, x) <==> Open(p, x) || (x == fd && fd != NONE)
  {
    var next := p.(conns := p.conns + [conn], created := p.created + 1);
    var n := |p.conns|;
    assert next.conns[n] == conn;
    forall x ensures Open(next, x) <==> Open(p, x) || (x == fd && fd != NONE) {
      if Open(p, x) {
        var j :| 0 <= j < n && Has(p.conns[j], x);
        assert Has(next.conns[j], x);
      }
      if Open(next, x) {
        var j :| 0 <= j <= n && Has(next.conns[j], x);
        assert x != fd ==> Has(p.conns[j], x);
      }
    }
  }

  lemma AddMatched(conns: seq<Conn>, conn: Conn)
    requires Matched(conns)
    requires || (LacksController(conn) && forall j :: 0 <= j < |conns| ==> !LacksWorker(conns[j]))
             || (LacksWorker(conn) && forall j :: 0 <= j < |conns| ==> !LacksController(conns[j]))
    ensures Matched(conns + [conn])
  {
  }

  /** A connection joins the list when nobody waits for its side. */
  lemma AddKeeps(s: Servers, p: Proxy, conn: Conn, fd: int)
    requires ProxyInv(s, p) && Acceptable(s, p, fd)
    requires || (conn == NewConn(p.created).(workerFd := fd)
                 && forall j :: 0 <= j < |p.conns| ==> !LacksWorker(p.conns[j]))
             || (conn == NewConn(p.created).(controllerFd := fd)
                 && forall j :: 0 <= j < |p.conns| ==> !LacksController(p.conns[j]))
    ensures ProxyInv(s, p.(conns := p.conns + [conn], created := p.created + 1))
    ensures var next := p.(conns := p.conns + [conn], created := p.created + 1);
      forall x :: Open(next, x) <==> Open(p, x) || (x == fd && fd != NONE)
  {
    AddOpens(p, conn, fd);
    assert forall j :: 0 <= j < |p.conns| && fd != NONE ==> !Has(p.conns[j], fd);
    AddApart(s, p.conns, conn, fd);
    AddMatched(p.conns, conn);
    assert ConnInv(conn);
    hide ConnInv, Matched, Open, FdsInv;
  }

  lemma AddApart(s: Servers, conns: seq<Conn>, conn: Conn, fd: int)
    requires FdsInv(s, conns) && fd >= NONE && fd != s.worker && fd != s.controller && s.worker >= 0
    requires s.controller >= 0
    requires forall j :: 0 <= j < |conns| && fd != NONE ==> !Has(conns[j], fd)
    requires (conn.workerFd == fd && conn.controllerFd == NONE) || (conn.workerFd == NONE && conn.controllerFd == fd)
    ensures FdsInv(s, conns + [conn])
  {
  }

  lemma AcceptKeeps(s: Servers, p: Proxy, i: nat, fd: int)
    requires ProxyInv(s, p) && Acceptable(s, p, fd)
    ensures var next := if i == 0 then AcceptWorker(p, fd) else AcceptController(p, fd);
      && ProxyInv(s, next) && (forall x :: Open(p, x) ==> Open(next, x))
      && (forall x :: Open(next, x) ==> Open(p, x) || x == fd)
  {
    hide ProxyInv, Fresh, Open;
    var found := if i == 0 then Find(p.conns, NONE, -2) else Find(p.conns, -2, NONE);
    if found.None? {
      var conn := NewConn(p.created);
      AddKeeps(s, p, if i == 0 then conn.(workerFd := fd) else conn.(controllerFd := fd), fd);
    } else {
      var k := found.value;
      FoundLacks(s, p, k);
      if fd == NONE {
        assert p.conns[k := p.conns[k]] == p.conns;
      } else {
        JoinKeeps(s, p, k, if i == 0 then p.conns[k].(workerFd := fd) else p.conns[k].(controllerFd := fd), fd);
      }
    }
  }

  lemma FoundLacks(s: Servers, p: Proxy, k: nat)
    requires ProxyInv(s, p) && k < |p.conns|
    ensures p.conns[k].workerFd != -2 && p.conns[k].controllerFd != -2
  {
    assert ConnInv(p.conns[k]);
  }

  // The scan of a round.

  /** What the flags of one descriptor keep. */
  ghost predicate EntryInv(s: Servers, p: Proxy, deleted: set<int>, fds: seq<int>, i: nat) {
    ProxyInv(s, p) && ScanInv(p, deleted, fds, i)
  }

  lemma OwnerFound(p: Proxy, fd: int)
    requires Open(p, fd)
    ensures Find(p.conns, fd, fd).Some?
  {
  }

  lemma CloseStepKeeps(s: Servers, p: Proxy, deleted: set<int>, fds: seq<int>, i: nat, k: nat)
    requires EntryInv(s, p, deleted, fds, i) && k < |p.conns| && i >= 2
    ensures var status := CloseStep(p, deleted, k); EntryInv(s, status.proxy, status.deleted, fds, i)
  {
    hide ProxyInv, FdsInv, Open;
    assert FdsInv(s, p.conns) by { CloseNeeds(s, p); }
    CloseKeeps(s, p, k);
    CloseShuts(s, p, k);
  }

  lemma CloseNeeds(s: Servers, p: Proxy)
    requires ProxyInv(s, p)
    ensures FdsInv(s, p.conns)
  {
  }

  lemma BufferedKeeps(conn: Conn, fd: int, bytes: Bytes)
    requires ConnInv(conn) && fd != NONE && Has(conn, fd)
    ensures ConnInv(Buffered(conn, fd, bytes))
  {
  }

  lemma SentKeeps(conn: Conn, fd: int, count: nat)
    requires ConnInv(conn) && fd != NONE && Has(conn, fd)
    ensures ConnInv(SentTo(conn, fd, count))
  {
    var n := Min(count, |conn.c2w|);
    var m := Min(count, |conn.w2c|);
    assert conn.c2w == conn.c2w[..n] + conn.c2w[n..];
    assert conn.w2c == conn.w2c[..m] + conn.w2c[m..];
  }

  lemma UpdateStepKeeps(s: Servers, p: Proxy, deleted: set<int>, fds: seq<int>, i: nat, k: nat, conn: Conn)
    requires EntryInv(s, p, deleted, fds, i) && k < |p.conns| && ConnInv(conn)
    requires SameSides(conn, p.conns[k])
    ensures EntryInv(s, p.(conns := p.conns[k := conn]), deleted, fds, i)
  {
    hide ProxyInv, Open, ConnInv;
    UpdateKeeps(s, p, k, conn);
  }

  lemma ReadKeeps(s: Servers, p: Proxy, deleted: set<int>, fds: seq<int>, i: nat, e: Poll)
    requires EntryInv(s, p, deleted, fds, i) && i < |fds| && (i >= 2 ==> Open(p, fds[i]))
    ensures var (status, skip) := ReadStep(s, p, deleted, i, fds[i], e);
      && status != Fatal
      && (status.Going? ==> EntryInv(s, status.proxy, status.deleted, fds, i))
      && (status.Going? && !skip && i >= 2 ==> Open(status.proxy, fds[i]))
      && (status.Going? && i <= 1 ==> status.deleted == {})
  {
    hide ProxyInv, Open, Acceptable, AcceptWorker, AcceptController, CloseStep, ConnInv;
    if e.readable {
      if i <= 1 {
        if Acceptable(s, p, e.newFd) {
          AcceptKeeps(s, p, i, e.newFd);
        }
      } else {
        OwnerFound(p, fds[i]);
        var k := Find(p.conns, fds[i], fds[i]).value;
        CloseStepKeeps(s, p, deleted, fds, i, k);
        CloseGoes(p, deleted, k);
        if e.recv.Offered? && e.recv.bytes != [] {
          var bytes := e.recv.bytes[..Min(|e.recv.bytes|, TMP_BUFFER_SIZE)];
          var conn := Buffered(p.conns[k], fds[i], bytes);
          ConnOf(s, p, k, fds[i]);
          BufferedKeeps(p.conns[k], fds[i], bytes);
          UpdateStepKeeps(s, p, deleted, fds, i, k, conn);
          StaysOpen(s, p, k, conn, fds[i]);
        }
      }
    }
  }

  lemma ConnOf(s: Servers, p: Proxy, k: nat, fd: int)
    requires ProxyInv(s, p) && k < |p.conns| && Open(p, fd)
    ensures ConnInv(p.conns[k]) && fd != NONE
  {
  }

  lemma StaysOpen(s: Servers, p: Proxy, k: nat, conn: Conn, fd: int)
    requires ProxyInv(s, p) && k < |p.conns| && Open(p, fd) && ConnInv(conn)
    requires SameSides(conn, p.conns[k])
    ensures Open(p.(conns := p.conns[k := conn]), fd)
  {
    UpdateKeeps(s, p, k, conn);
  }

  lemma WriteKeeps(s: Servers, p: Proxy, deleted: set<int>, fds: seq<int>, i: nat, e: Poll)
    requires EntryInv(s, p, deleted, fds, i) && i < |fds| && (i >= 2 ==> Open(p, fds[i]))
    ensures var status := WriteStep(p, deleted, i, fds[i], e);
      && status != Fatal
      && (status.Going? ==> EntryInv(s, status.proxy, status.deleted, fds, i))
      && (status.Going? && i >= 2 ==> Open(status.proxy, fds[i]))
      && (status.Going? ==> status.deleted == deleted)
  {
    hide ProxyInv, Open, ConnInv;
    if e.writable && i >= 2 {
      OwnerFound(p, fds[i]);
      var k := Find(p.conns, fds[i], fds[i]).value;
      if e.send.Accepted? {
        var conn := SentTo(p.conns[k], fds[i], e.send.count);
        ConnOf(s, p, k, fds[i]);
        SentKeeps(p.conns[k], fds[i], e.send.count);
        UpdateStepKeeps(s, p, deleted, fds, i, k, conn);
        StaysOpen(s, p, k, conn, fds[i]);
      }
    }
  }

  lemma HangKeeps(s: Servers, p: Proxy, deleted: set<int>, fds: seq<int>, i: nat, e: Poll)
    requires EntryInv(s, p, deleted, fds, i) && i < |fds| && (i >= 2 ==> Open(p, fds[i]))
    ensures var status := HangStep(p, deleted, i, fds[i], e);
      && status.Going? && EntryInv(s, status.proxy, status.deleted, fds, i)
      && (i <= 1 ==> status.deleted == deleted)
  {
    hide ProxyInv, Open, CloseStep;
    if e.hungUp && i >= 2 {
      OwnerFound(p, fds[i]);
      CloseStepKeeps(s, p, deleted, fds, i, Find(p.conns, fds[i], fds[i]).value);
      CloseGoes(p, deleted, Find(p.conns, fds[i], fds[i]).value);
    }
  }

  lemma CloseGoes(p: Proxy, deleted: set<int>, k: nat)
    requires k < |p.conns|
    ensures CloseStep(p, deleted, k).Going?
  {
  }

  lemma EntryKeeps(s: Servers, p: Proxy, deleted: set<int>, fds: seq<int>, i: nat, e: Poll)
    requires EntryInv(s, p, deleted, fds, i) && i < |fds|
    ensures var status := EntryStep(s, p, deleted, i, fds[i], e);
      status != Fatal && (status.Going? ==> EntryInv(s, status.proxy, status.deleted, fds, i + 1))
  {
    hide ReadStep, WriteStep, HangStep, ProxyInv, Open;
    if fds[i] !in deleted {
      ReadKeeps(s, p, deleted, fds, i, e);
      var (status, skip) := ReadStep(s, p, deleted, i, fds[i], e);
      if status.Going? && !skip {
        WriteKeeps(s, status.proxy, status.deleted, fds, i, e);
        var status2 := WriteStep(status.proxy, status.deleted, i, fds[i], e);
        if status2.Going? {
          HangKeeps(s, status2.proxy, status2.deleted, fds, i, e);
        }
      }
    }
  }

  lemma {:induction false} ScanKeeps(s: Servers, p: Proxy, deleted: set<int>, fds: seq<int>, i: nat, polls: nat -> Poll)
    requires i <= |fds| && EntryInv(s, p, deleted, fds, i)
    ensures var status := Scan(s, p, deleted, fds, i, polls);
      status != Fatal && (status.Going? ==> EntryInv(s, status.proxy, status.deleted, fds, |fds|))
    decreases |fds| - i
  {
    hide EntryStep, EntryInv;
    if i < |fds| {
      EntryKeeps(s, p, deleted, fds, i, polls(i));
      match EntryStep(s, p, deleted, i, fds[i], polls(i))
      case Going(next, gone) => ScanKeeps(s, next, gone, fds, i + 1, polls);
      case _ =>
    }
  }

  lemma {:induction false} PolledAreOpen(conns: seq<Conn>, j: nat)
    requires j < |ConnFds(conns)|
    ensures exists k :: 0 <= k < |conns| && Has(conns[k], ConnFds(conns)[j])
    ensures ConnFds(conns)[j] != NONE
  {
    var n := |conns| - 1;
    if j < |ConnFds(conns[..n])| {
      PolledAreOpen(conns[..n], j);
      var k :| 0 <= k < n && Has(conns[..n][k], ConnFds(conns[..n])[j]);
      assert Has(conns[k], ConnFds(conns)[j]);
    } else {
      assert Has(conns[n], ConnFds(conns)[j]);
    }
  }

  /** What a scan starts from. */
  lemma RoundStarts(s: Servers, p: Proxy)
    requires ProxyInv(s, p)
    ensures EntryInv(s, p, {}, PollFds(s, p), 0)
  {
    hide ProxyInv, ConnFds;
    var fds := PollFds(s, p);
    forall j | 2 <= j < |fds| ensures Open(p, fds[j]) {
      PolledAreOpen(p.conns, j - 2);
    }
  }

  lemma RoundKeeps(s: Servers, p: Proxy, polls: nat -> Poll)
    requires ProxyInv(s, p)
    ensures Round(s, p, polls) != Fatal
    ensures Round(s, p, polls).Going? ==> ProxyInv(s, Round(s, p, polls).proxy)
  {
    hide ProxyInv, Scan;
    RoundStarts(s, p);
    ScanKeeps(s, p, {}, PollFds(s, p), 0, polls);
  }

  lemma {:induction false} RunKeeps(s: Servers, p: Proxy, rounds: seq<nat -> Poll>)
    requires ProxyInv(s, p)
    ensures Run(s, p, rounds) != Fatal
    ensures Run(s, p, rounds).Going? ==> ProxyInv(s, Run(s, p, rounds).proxy)
    decreases |rounds|
  {
    hide ProxyInv, Round;
    if rounds != [] {
      RoundKeeps(s, p, rounds[0]);
      if Round(s, p, rounds[0]).Going? {
        RunKeeps(s, Round(s, p, rounds[0]).proxy, rounds[1..]);
      }
    }
  }

  // What follows for every run.

  lemma StartInv(s: Servers)
    requires s.worker >= 0 && s.controller >= 0 && s.worker != s.controller
    ensures ProxyInv(s, Start())
  {
  }

  /** No run ever looks for a descriptor that nobody owns. */
  lemma NeverFatal(s: Servers, rounds: seq<nat -> Poll>)
    requires s.worker >= 0 && s.controller >= 0 && s.worker != s.controller
    ensures Run(s, Start(), rounds) != Fatal
  {
    StartInv(s);
    RunKeeps(s, Start(), rounds);
  }

  /**
   * For every connection of every run, also for closed ones: what was sent to
   * a side is a prefix of what came from the other, and the rest is buffered.
   */
  lemma AlwaysTransparent(s: Servers, rounds: seq<nat -> Poll>, conn: Conn)
    requires s.worker >= 0 && s.controller >= 0 && s.worker != s.controller
    requires Run(s, Start(), rounds).Going?
    requires var p := Run(s, Start(), rounds).proxy; conn in p.conns || conn in p.closed
    ensures conn.toController <= conn.fromWorker && conn.fromWorker[|conn.toController|..] == conn.w2c
    ensures conn.toWorker <= conn.fromController && conn.fromController[|conn.toWorker|..] == conn.c2w
  {
    StartInv(s);
    RunKeeps(s, Start(), rounds);
    assert ConnInv(conn);
  }

  /** In no reachable state do a worker and a controller wait for each other, even if accepts fail. */
  lemma MatchingIsMaximal(s: Servers, rounds: seq<nat -> Poll>, i: nat, j: nat)
    requires s.worker >= 0 && s.controller >= 0 && s.worker != s.controller
    requires Run(s, Start(), rounds).Going?
    requires i < |Run(s, Start(), rounds).proxy.conns| && j < |Run(s, Start(), rounds).proxy.conns|
    ensures var conns := Run(s, Start(), rounds).proxy.conns;
      !(OnlyWorker(conns[i]) && OnlyController(conns[j]))
  {
    StartInv(s);
    RunKeeps(s, Start(), rounds);
  }

  /** A failed accept goes unnoticed exactly if somebody waits for that side; else it leaves an empty connection. */
  lemma FailedAcceptExactly(s: Servers, p: Proxy)
    requires ProxyInv(s, p)
    ensures AcceptWorker(p, NONE) == p <==> exists k :: 0 <= k < |p.conns| && LacksWorker(p.conns[k])
    ensures AcceptWorker(p, NONE) != p ==>
      AcceptWorker(p, NONE).conns == p.conns + [NewConn(p.created)] && Empty(NewConn(p.created))
    ensures AcceptController(p, NONE) == p <==> exists k :: 0 <= k < |p.conns| && LacksController(p.conns[k])
    ensures AcceptController(p, NONE) != p ==>
      AcceptController(p, NONE).conns == p.conns + [NewConn(p.created)] && Empty(NewConn(p.created))
  {
    hide FdsInv, Matched, Ordered;
    var lacking, other := Find(p.conns, NONE, -2), Find(p.conns, -2, NONE);
    if lacking.Some? {
      FoundLacks(s, p, lacking.value);
      assert p.conns[lacking.value := p.conns[lacking.value]] == p.conns;
    }
    if other.Some? {
      FoundLacks(s, p, other.value);
      assert p.conns[other.value := p.conns[other.value]] == p.conns;
    }
  }

  /** Connection k is the longest waiting one of its kind. */
  predicate LongestWaiting(p: Proxy, k: nat, kind: Conn -> bool) {
    k < |p.conns| && kind(p.conns[k])
    && forall j :: 0 <= j < |p.conns| && kind(p.conns[j]) ==> p.conns[k].id <= p.conns[j].id
  }

  predicate Waits(p: Proxy, kind: Conn -> bool) {
    exists k :: 0 <= k < |p.conns| && kind(p.conns[k])
  }

  /**
   * A new worker is paired with the longest-waiting controller, if any waits;
   * everything buffered for it meanwhile is kept. Nobody else is affected.
   */
  lemma WorkerServedInOrder(s: Servers, p: Proxy, fd: int)
    requires ProxyInv(s, p) && Fresh(s, p, fd)
    ensures var next := AcceptWorker(p, fd);
      if Waits(p, OnlyController) then
        exists k :: LongestWaiting(p, k, OnlyController) && JoinedAt(p, next, k, true, fd)
      else if Waits(p, Empty) then exists k :: LongestWaiting(p, k, Empty) && JoinedAt(p, next, k, true, fd)
      else next.conns == p.conns + [NewConn(p.created).(workerFd := fd)]
  {
    hide ConnInv, FdsInv, Fresh;
    var found := Find(p.conns, NONE, -2);
    if found.Some? {
      FoundLacks(s, p, found.value);
      assert LacksWorker(p.conns[found.value]);
      assert JoinedAt(p, AcceptWorker(p, fd), found.value, true, fd);
      assert OnlyController(p.conns[found.value]) ==> LongestWaiting(p, found.value, OnlyController);
      assert Empty(p.conns[found.value]) ==> LongestWaiting(p, found.value, Empty);
    }
  }

  predicate JoinedAt(p: Proxy, next: Proxy, k: nat, asWorker: bool, fd: int) {
    && k < |p.conns|
    && var conn := p.conns[k];
      next == p.(conns := p.conns[k := if asWorker then conn.(workerFd := fd) else conn.(controllerFd := fd)])
  }

  /** The same for a new controller and the longest-waiting worker. */
  lemma ControllerServedInOrder(s: Servers, p: Proxy, fd: int)
    requires ProxyInv(s, p) && Fresh(s, p, fd)
    ensures var next := AcceptController(p, fd);
      if Waits(p, OnlyWorker) then exists k :: LongestWaiting(p, k, OnlyWorker) && JoinedAt(p, next, k, false, fd)
      else if Waits(p, Empty) then exists k :: LongestWaiting(p, k, Empty) && JoinedAt(p, next, k, false, fd)
      else next.conns == p.conns + [NewConn(p.created).(controllerFd := fd)]
  {
    hide ConnInv, FdsInv, Fresh;
    var found := Find(p.conns, -2, NONE);
    if found.Some? {
      FoundLacks(s, p, found.value);
      assert LacksController(p.conns[found.value]);
      assert JoinedAt(p, AcceptController(p, fd), found.value, false, fd);
      assert OnlyWorker(p.conns[found.value]) ==> LongestWaiting(p, found.value, OnlyWorker);
      assert Empty(p.conns[found.value]) ==> LongestWaiting(p, found.value, Empty);
    }
  }
}
