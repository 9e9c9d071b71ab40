/** Connections with neither side: exactly what failed accepts leave behind. */
module Emptiness {
  import opened Framing
  import opened Outgoing
  import opened Relay

  predicate NoneEmpty(conns: seq<Conn>) {
    forall k :: 0 <= k < |conns| ==> !Empty(conns[k])
  }

  predicate SomebodyLacks(p: Proxy, i: nat) {
    exists k :: 0 <= k < |p.conns| && (if i == 0 then LacksWorker(p.conns[k]) else LacksController(p.conns[k]))
  }

  /** An accept that fails while nobody waits for that side. */
  predicate FailsAlone(p: Proxy, i: nat, e: Poll) {
    i <= 1 && e.readable && e.newFd == NONE && !SomebodyLacks(p, i)
  }

  /** Accepting makes an empty connection exactly if it fails while nobody waits. */
  lemma AcceptExactly(s: Servers, p: Proxy, deleted: set<int>, i: nat, e: Poll)
    requires ProxyInv(s, p) && NoneEmpty(p.conns) && i <= 1 && e.readable
    ensures NoneEmpty(AcceptStep(s, p, deleted, i, e).proxy.conns) <==> !FailsAlone(p, i, e)
  {
    hide ProxyInv, Fresh;
    if Acceptable(s, p, e.newFd) {
      var found := if i == 0 then Find(p.conns, NONE, -2) else Find(p.conns, -2, NONE);
      var next := AcceptStep(s, p, deleted, i, e).proxy;
      if found.None? {
        assert e.newFd >= NONE by { AcceptableIsFd(s, p, e.newFd); }
        assert Empty(next.conns[|p.conns|]) <==> e.newFd == NONE;
      } else {
        FoundLacks(s, p, found.value);
        assert SomebodyLacks(p, i);
        assert e.newFd == NONE ==> p.conns[found.value := p.conns[found.value]] == p.conns;
      }
    }
  }

  lemma AcceptableIsFd(s: Servers, p: Proxy, fd: int)
    requires Acceptable(s, p, fd)
    ensures fd >= NONE
  {
  }

  lemma EraseLeavesNone(conns: seq<Conn>, k: nat)
    requires k < |conns| && NoneEmpty(conns)
    ensures NoneEmpty(Erase(conns, k))
  {
  }

  lemma ReadExactly(s: Servers, p: Proxy, deleted: set<int>, i: nat, fd: int, e: Poll)
    requires ProxyInv(s, p) && NoneEmpty(p.conns) && ReadStep(s, p, deleted, i, fd, e).0.Going?
    ensures NoneEmpty(ReadStep(s, p, deleted, i, fd, e).0.proxy.conns) <==> !FailsAlone(p, i, e)
  {
    hide ProxyInv, AcceptStep, Close;
    if e.readable {
      if i <= 1 {
        AcceptExactly(s, p, deleted, i, e);
      } else {
        var k := Find(p.conns, fd, fd).value;
        ClosesOne(p, deleted, k);
      }
    }
  }

  lemma ClosesOne(p: Proxy, deleted: set<int>, k: nat)
    requires k < |p.conns| && NoneEmpty(p.conns)
    ensures NoneEmpty(CloseStep(p, deleted, k).proxy.conns)
  {
    EraseLeavesNone(p.conns, k);
  }

  lemma WriteLeavesNone(p: Proxy, deleted: set<int>, i: nat, fd: int, e: Poll)
    requires NoneEmpty(p.conns) && WriteStep(p, deleted, i, fd, e).Going?
    ensures NoneEmpty(WriteStep(p, deleted, i, fd, e).proxy.conns)
  {
  }

  lemma HangLeavesNone(p: Proxy, deleted: set<int>, i: nat, fd: int, e: Poll)
    requires NoneEmpty(p.conns) && HangStep(p, deleted, i, fd, e).Going?
    ensures NoneEmpty(HangStep(p, deleted, i, fd, e).proxy.conns)
  {
    if e.hungUp && i >= 2 {
      ClosesOne(p, deleted, Find(p.conns, fd, fd).value);
    }
  }

  /** The same for all flags of a descriptor: nothing else makes an empty connection. */
  lemma EntryExactly(s: Servers, p: Proxy, deleted: set<int>, fds: seq<int>, i: nat, e: Poll)
    requires EntryInv(s, p, deleted, fds, i) && i < |fds| && NoneEmpty(p.conns)
    requires EntryStep(s, p, deleted, i, fds[i], e).Going?
    ensures NoneEmpty(EntryStep(s, p, deleted, i, fds[i], e).proxy.conns) <==> !FailsAlone(p, i, e)
  {
    hide ReadStep, WriteStep, HangStep, ProxyInv, NoneEmpty, FailsAlone;
    if fds[i] in deleted {
      assert !FailsAlone(p, i, e) by { PastAccepts(p, i, e); }
    } else {
      ReadExactly(s, p, deleted, i, fds[i], e);
      var (status, skip) := ReadStep(s, p, deleted, i, fds[i], e);
      if !skip {
        if i <= 1 {
          ListensOnly(status.proxy, status.deleted, i, fds[i], e);
        } else {
          PastAccepts(p, i, e);
          WriteLeavesNone(status.proxy, status.deleted, i, fds[i], e);
          var status2 := WriteStep(status.proxy, status.deleted, i, fds[i], e);
          HangLeavesNone(status2.proxy, status2.deleted, i, fds[i], e);
        }
      }
    }
  }

  lemma PastAccepts(p: Proxy, i: nat, e: Poll)
    ensures i >= 2 ==> !FailsAlone(p, i, e)
  {
  }

  lemma ListensOnly(p: Proxy, deleted: set<int>, i: nat, fd: int, e: Poll)
    requires i <= 1
    ensures WriteStep(p, deleted, i, fd, e) == HangStep(p, deleted, i, fd, e) == Going(p, deleted)
  {
  }

  // Whole runs.

  /** No accept of the round fails. */
  predicate AcceptsSucceed(polls: nat -> Poll) {
    forall i: nat :: i <= 1 && polls(i).readable ==> polls(i).newFd != NONE
  }

  lemma {:induction false} ScanLeavesNone(s: Servers, p: Proxy, deleted: set<int>, fds: seq<int>, i: nat,
      polls: nat -> Poll)
    requires i <= |fds| && EntryInv(s, p, deleted, fds, i) && NoneEmpty(p.conns) && AcceptsSucceed(polls)
    requires Scan(s, p, deleted, fds, i, polls).Going?
    ensures NoneEmpty(Scan(s, p, deleted, fds, i, polls).proxy.conns)
    decreases |fds| - i
  {
    hide EntryStep, EntryInv, NoneEmpty, SomebodyLacks;
    if i < |fds| {
      EntryKeeps(s, p, deleted, fds, i, polls(i));
      EntryExactly(s, p, deleted, fds, i, polls(i));
      var next := EntryStep(s, p, deleted, i, fds[i], polls(i));
      ScanLeavesNone(s, next.proxy, next.deleted, fds, i + 1, polls);
    }
  }

  lemma RoundLeavesNone(s: Servers, p: Proxy, polls: nat -> Poll)
    requires ProxyInv(s, p) && NoneEmpty(p.conns) && AcceptsSucceed(polls) && Round(s, p, polls).Going?
    ensures NoneEmpty(Round(s, p, polls).proxy.conns)
  {
    hide ProxyInv, ConnFds, Scan, NoneEmpty, AcceptsSucceed;
    RoundStarts(s, p);
    ScanLeavesNone(s, p, {}, PollFds(s, p), 0, polls);
  }

  lemma {:induction false} RunLeavesNone(s: Servers, p: Proxy, rounds: seq<nat -> Poll>)
    requires ProxyInv(s, p) && NoneEmpty(p.conns) && Run(s, p, rounds).Going?
    requires forall k :: 0 <= k < |rounds| ==> AcceptsSucceed(rounds[k])
    ensures NoneEmpty(Run(s, p, rounds).proxy.conns)
    decreases |rounds|
  {
    hide ProxyInv, Round, NoneEmpty, AcceptsSucceed;
    if rounds != [] {
      RoundKeeps(s, p, rounds[0]);
      RoundLeavesNone(s, p, rounds[0]);
      assert forall k :: 0 <= k < |rounds[1..]| ==> rounds[1..][k] == rounds[k + 1];
      RunLeavesNone(s, Round(s, p, rounds[0]).proxy, rounds[1..]);
    }
  }

  /** As long as accepts succeed every connection of every reachable state has a side. */
  lemma NoReachableIsEmpty(s: Servers, rounds: seq<nat -> Poll>)
    requires s.worker >= 0 && s.controller >= 0 && s.worker != s.controller
    requires Run(s, Start(), rounds).Going? && forall k :: 0 <= k < |rounds| ==> AcceptsSucceed(rounds[k])
    ensures NoneEmpty(Run(s, Start(), rounds).proxy.conns)
  {
    hide ProxyInv, Run, AcceptsSucceed;
    StartInv(s);
    RunLeavesNone(s, Start(), rounds);
  }

  function FailingRound(): nat -> Poll {
    (i: nat) => Poll(i == 0, false, false, RecvError(true), Accepted(0), NONE)
  }

  /** One failing accept is enough for a connection with neither side. */
  lemma EmptyHappens(s: Servers)
    requires s.worker >= 0 && s.controller >= 0 && s.worker != s.controller
    ensures Run(s, Start(), [FailingRound()]) == Going(Proxy([NewConn(0)], [], 1), {}) && Empty(NewConn(0))
  {
    var polls, fds := FailingRound(), PollFds(s, Start());
    assert fds == [s.worker, s.controller];
    var after := Proxy([NewConn(0)], [], 1);
    assert EntryStep(s, Start(), {}, 0, fds[0], polls(0)) == Going(after, {});
    assert EntryStep(s, after, {}, 1, fds[1], polls(1)) == Going(after, {});
    assert Scan(s, after, {}, fds, 2, polls) == Going(after, {});
    assert Scan(s, after, {}, fds, 1, polls) == Going(after, {});
    assert Round(s, Start(), polls) == Going(after, {});
    assert [polls][1..] == [];
  }
}
