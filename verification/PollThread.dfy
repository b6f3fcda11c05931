/**
 One poll-thread manager together with its polling worker (src/cc_pollthr_mgr.c), with the arrays the
 source updates in place. A request is answered before the manager call returns, so each method runs
 the manager part, the worker's handler, and the manager part after the wait.
 */
module PollThread {
  import opened Lists
  import opened Worker
  import Sends

  // ---------------------------------------------------------------------------------------------
  // Lists of one kind
  // ---------------------------------------------------------------------------------------------

  function FdsOf(l: seq<Entry>, kind: Kind): seq<int> {
    if l == [] then [] else
      var n := |l| - 1;
      FdsOf(l[..n], kind) + if l[n].kind == kind then [l[n].fd] else []
  }

  lemma FdsOfAppend(l: seq<Entry>, e: Entry, kind: Kind)
    ensures FdsOf(l + [e], kind) == FdsOf(l, kind) + if e.kind == kind then [e.fd] else []
  {
    assert (l + [e])[..|l|] == l;
  }

  lemma {:induction false} FdsOfMember(l: seq<Entry>, kind: Kind, fd: int)
    ensures fd in FdsOf(l, kind) <==> exists i :: 0 <= i < |l| && l[i].fd == fd && l[i].kind == kind
  {
    if l != [] {
      FdsOfMember(l[..|l| - 1], kind, fd);
    }
  }

  /** Every listed descriptor is of exactly one kind. */
  lemma {:induction false} FdsOfCount(l: seq<Entry>)
    ensures |FdsOf(l, Pipe)| + |FdsOf(l, Socket)| == |l|
  {
    if l != [] {
      FdsOfCount(l[..|l| - 1]);
    }
  }

  lemma NamesPrefix(l: seq<Entry>, n: nat)
    requires n <= |l| && NoDup(Names(l))
    ensures NoDup(Names(l[..n]))
  {
    assert Names(l[..n]) == Names(l)[..n];
  }

  lemma RemoveAppend(s: seq<int>, x: int, y: int)
    requires x in s
    ensures Remove(s + [y], x) == Remove(s, x) + [y]
  {
    var i := IndexOf(s, x);
    FirstMatch(s + [y], x, i);
    assert (s + [y])[..i] == s[..i] && (s + [y])[i + 1..] == s[i + 1..] + [y];
  }

  lemma FdsOfDropLast(l: seq<Entry>, kind: Kind)
    requires l != [] && NoDup(Names(l))
    ensures FdsOf(l[..|l| - 1], kind) == Remove(FdsOf(l, kind), l[|l| - 1].fd)
  {
    var n := |l| - 1;
    var front := l[..n];
    FdsOfMember(front, kind, l[n].fd);
    forall j | 0 <= j < n ensures front[j].fd != l[n].fd {
      assert Names(l)[j] != Names(l)[n];
    }
    if l[n].kind == kind {
      RemoveLast(FdsOf(front, kind), l[n].fd);
    }
  }

  lemma RemoveAtAppend<T>(l: seq<T>, i: nat, e: T)
    requires i < |l|
    ensures RemoveAt(l + [e], i) == RemoveAt(l, i) + [e]
    ensures RemoveAt(l + [e], |l|) == l
  {
  }

  /** Dropping an earlier entry commutes with an entry at the end. */
  lemma FdsOfRemoveAppend(l: seq<Entry>, i: nat, e: Entry, kind: Kind)
    requires i < |l| && l[i].fd != e.fd
    requires FdsOf(RemoveAt(l, i), kind) == Remove(FdsOf(l, kind), l[i].fd)
    ensures FdsOf(RemoveAt(l + [e], i), kind) == Remove(FdsOf(l + [e], kind), l[i].fd)
  {
    RemoveAtAppend(l, i, e);
    FdsOfAppend(RemoveAt(l, i), e, kind);
    FdsOfAppend(l, e, kind);
    RemoveBeforeLast(FdsOf(l, kind), l[i].fd, e.fd);
  }

  lemma {:induction false} FdsOfRemove(l: seq<Entry>, i: nat, kind: Kind)
    requires i < |l| && NoDup(Names(l))
    ensures FdsOf(RemoveAt(l, i), kind) == Remove(FdsOf(l, kind), l[i].fd)
  {
    var n := |l| - 1;
    var front := l[..n];
    if i == n {
      assert RemoveAt(l, i) == front;
      FdsOfDropLast(l, kind);
    } else {
      NamesPrefix(l, n);
      FdsOfRemove(front, i, kind);
      assert Names(l)[i] != Names(l)[n];
      assert l == front + [l[n]];
      FdsOfRemoveAppend(front, i, l[n], kind);
    }
  }

  lemma RemoveBeforeLast(s: seq<int>, x: int, y: int)
    requires x != y
    ensures Remove(s + [y], x) == Remove(s, x) + [y]
    ensures s + [] == s && Remove(s + [], x) == Remove(s, x) + []
  {
    assert s + [] == s;
    if x in s {
      RemoveAppend(s, x, y);
    }
  }

  lemma FdsOfAdd(w: State, r: Request, kind: Kind)
    requires Consistent(w) && r.Add? && r.fd !in Names(w.fdList)
    ensures FdsOf(HandleAdd(w, r).fdList, kind)
         == FdsOf(w.fdList, kind) + if r.kind == kind then [r.fd] else []
  {
    FdsOfAppend(w.fdList, Entry(r.fd, r.kind, r.canSend, w.active), kind);
  }

  /** A handled delete takes the descriptor out of its kind's list and leaves the other list alone. */
  lemma FdsOfDelete(w: State, fd: int, kind: Kind)
    requires Consistent(w) && fd != w.fdList[0].fd && fd != w.fdList[1].fd
    ensures Running(HandleDelete(w, fd))
    ensures FdsOf(HandleDelete(w, fd).fdList, kind) == Remove(FdsOf(w.fdList, kind), fd)
    ensures HandleDelete(w, fd).fdList[..2] == w.fdList[..2]
  {
    var names := Names(w.fdList);
    assert Polled(w)[0] == names[0] && Polled(w)[1] == names[1];
    if fd in names {
      DeletePosition(w, fd);
      FdsOfRemove(w.fdList, IndexOf(names, fd), kind);
    } else {
      assert forall i :: 0 <= i < |w.fdList| ==> names[i] == w.fdList[i].fd;
      FdsOfMember(w.fdList, kind, fd);
    }
  }

  // ---------------------------------------------------------------------------------------------
  // pipes_arr: read end at even positions, write end right behind it
  // ---------------------------------------------------------------------------------------------

  function ReadEnds(s: seq<int>): (r: seq<int>)
    ensures |r| == |s| / 2
  {
    seq(|s| / 2, i requires 0 <= i < |s| / 2 => s[2 * i])
  }

  function RemovePair(s: seq<int>, i: nat): (r: seq<int>)
    requires i + 1 < |s|
    ensures |r| == |s| - 2
  {
    s[..i] + s[i + 2..]
  }

  /** Both ends go, and every other pair moves as a whole. */
  lemma PairGoes(s: seq<int>, i: nat)
    requires i + 1 < |s|
    ensures forall k :: 0 <= k < |s| - 2 ==> RemovePair(s, i)[k] == s[if k < i then k else k + 2]
  {
  }

  /** Position of the read end of the pair that fd is an end of. */
  function PairIndex(s: seq<int>, fd: int): (i: nat)
    requires fd in s
    ensures i % 2 == 0 && i < |s| && (s[i] == fd || (i + 1 < |s| && s[i + 1] == fd))
  {
    var i := IndexOf(s, fd);
    if i % 2 == 1 then i - 1 else i
  }

  /** Whole pairs of distinct descriptors, at least the two administrative ones, read ends as listed. */
  ghost predicate PairsMatch(s: seq<int>, ends: seq<int>) {
    |s| % 2 == 0 && 4 <= |s| && NoDup(s) && ReadEnds(s) == ends
  }

  lemma PairsAppend(s: seq<int>, ends: seq<int>, rd: int, wr: int)
    requires PairsMatch(s, ends) && rd != wr && rd !in s && wr !in s
    ensures PairsMatch(s + [rd, wr], ends + [rd])
  {
    assert ReadEnds(s + [rd, wr]) == ReadEnds(s) + [rd];
  }

  /** Closing the pair of any add-on descriptor removes exactly its read end from the read ends. */
  lemma PairsRemove(s: seq<int>, ends: seq<int>, i: nat)
    requires PairsMatch(s, ends) && 4 <= i < |s| && i % 2 == 0
    ensures PairsMatch(RemovePair(s, i), Remove(ends, s[i]))
    ensures s[i] != s[0] && s[i] != s[2] && s[i] in ends
  {
    var r, k := ReadEnds(s), i / 2;
    assert r[k] == s[i];
    assert NoDup(r);
    IndexUnique(r, s[i], k);
    var t := ReadEnds(RemovePair(s, i));
    forall j | 0 <= j < |t| ensures t[j] == RemoveAt(r, k)[j] {
      assert t[j] == RemovePair(s, i)[2 * j];
    }
    assert t == RemoveAt(r, k);
  }

  /** pipes_arr against the worker: read ends are its PIPE entries, the first two pairs come first. */
  ghost predicate PipesOk(w: State, fds: seq<int>) {
    && Consistent(w)
    && PairsMatch(fds, FdsOf(w.fdList, Pipe))
    && w.fdList[0].fd == fds[0] && w.fdList[1].fd == fds[2]
  }

  lemma AddSocketKeepsPipes(w: State, r: Request, fds: seq<int>)
    requires PipesOk(w, fds) && r.Add? && r.kind == Socket && r.fd !in Names(w.fdList)
    ensures PipesOk(HandleAdd(w, r), fds)
    ensures FdsOf(HandleAdd(w, r).fdList, Socket) == FdsOf(w.fdList, Socket) + [r.fd]
  {
    AddKeepsConsistent(w, r);
    FdsOfAdd(w, r, Pipe);
    FdsOfAdd(w, r, Socket);
  }

  lemma AddPipeKeepsPipes(w: State, r: Request, fds: seq<int>, wr: int)
    requires PipesOk(w, fds) && r.Add? && r.kind == Pipe && r.fd !in Names(w.fdList)
    requires r.fd != wr && r.fd !in fds && wr !in fds
    ensures PipesOk(HandleAdd(w, r), fds + [r.fd, wr])
    ensures FdsOf(HandleAdd(w, r).fdList, Socket) == FdsOf(w.fdList, Socket)
  {
    AddKeepsConsistent(w, r);
    FdsOfAdd(w, r, Pipe);
    FdsOfAdd(w, r, Socket);
    PairsAppend(fds, FdsOf(w.fdList, Pipe), r.fd, wr);
  }

  lemma DeleteSocketKeepsPipes(w: State, fd: int, fds: seq<int>)
    requires PipesOk(w, fds) && fd !in FdsOf(w.fdList, Pipe)
    ensures Running(HandleDelete(w, fd)) && PipesOk(HandleDelete(w, fd), fds)
    ensures FdsOf(HandleDelete(w, fd).fdList, Socket) == Remove(FdsOf(w.fdList, Socket), fd)
  {
    assert ReadEnds(fds)[0] == fds[0] && ReadEnds(fds)[1] == fds[2];
    FdsOfDelete(w, fd, Pipe);
    FdsOfDelete(w, fd, Socket);
    DeleteKeepsConsistent(w, fd);
    assert HandleDelete(w, fd).fdList[..2][0] == w.fdList[0] && HandleDelete(w, fd).fdList[..2][1] == w.fdList[1];
  }

  /** Deleting a read end behind the manager's back leaves pipes_arr with a pipe that is not polled. */
  lemma DeleteOfPipeEnd(w: State, fd: int, fds: seq<int>)
    requires PipesOk(w, fds) && fd in FdsOf(w.fdList, Pipe)
    ensures !PipesOk(HandleDelete(w, fd), fds)
  {
    assert Polled(w)[0] == Names(w.fdList)[0] && Polled(w)[1] == Names(w.fdList)[1];
    if fd != w.fdList[0].fd && fd != w.fdList[1].fd {
      FdsOfDelete(w, fd, Pipe);
    }
  }

  /** What is left after a delete by number, whatever carries it, and whether counter and list still match. */
  lemma DeleteByNumber(w: State, fd: int, fds: seq<int>)
    requires PipesOk(w, fds)
    ensures var sockets, w' := FdsOf(w.fdList, Socket), HandleDelete(w, fd);
            && (PipesOk(w', fds) <==> fd !in FdsOf(w.fdList, Pipe))
            && (PipesOk(w', fds) ==> FdsOf(w'.fdList, Socket) == Remove(sockets, fd))
            && (fd in sockets <==> PipesOk(w', fds) && |FdsOf(w'.fdList, Socket)| == |sockets| - 1)
  {
    if fd in FdsOf(w.fdList, Pipe) {
      KindUnique(w, fd);
      DeleteOfPipeEnd(w, fd, fds);
    } else {
      DeleteSocketKeepsPipes(w, fd, fds);
    }
  }

  lemma DeletePipeKeepsPipes(w: State, d: nat, fds: seq<int>)
    requires PipesOk(w, fds) && 4 <= d < |fds| && d % 2 == 0
    ensures Running(HandleDelete(w, fds[d])) && PipesOk(HandleDelete(w, fds[d]), RemovePair(fds, d))
    ensures FdsOf(HandleDelete(w, fds[d]).fdList, Socket) == FdsOf(w.fdList, Socket)
  {
    PairsRemove(fds, FdsOf(w.fdList, Pipe), d);
    FdsOfDelete(w, fds[d], Pipe);
    FdsOfDelete(w, fds[d], Socket);
    KindUnique(w, fds[d]);
    DeleteKeepsConsistent(w, fds[d]);
    var l := HandleDelete(w, fds[d]).fdList;
    assert l[..2][0] == w.fdList[0] && l[..2][1] == w.fdList[1];
  }

  /** A descriptor listed as a pipe is not listed as a socket. */
  lemma KindUnique(w: State, fd: int)
    requires Consistent(w) && fd in FdsOf(w.fdList, Pipe)
    ensures fd !in FdsOf(w.fdList, Socket)
  {
    FdsOfMember(w.fdList, Pipe, fd);
    FdsOfMember(w.fdList, Socket, fd);
    assert forall i :: 0 <= i < |w.fdList| ==> Names(w.fdList)[i] == w.fdList[i].fd;
  }

  // ---------------------------------------------------------------------------------------------
  // The manager as the rest of the library sees it
  // ---------------------------------------------------------------------------------------------

  /** `watched` lists the SOCKET entries of the worker's fd_list in order. */
  datatype Manager = Manager(numSockets: nat, watched: seq<int>)

  /** Refused exactly at the maximum. */
  function ManagerAdd(m: Manager, fd: int, maxSockets: nat): Manager {
    if m.numSockets == maxSockets then m
    else Manager(if m.numSockets == 65535 then 0 else m.numSockets + 1, m.watched + [fd])
  }

  /** The counter is a uint16 and drops whether or not the worker finds the descriptor. */
  function ManagerDelete(m: Manager, fd: int): Manager {
    Manager(if m.numSockets == 0 then 65535 else m.numSockets - 1, Remove(m.watched, fd))
  }

  lemma InitialLists(priRd: int, priWr: int, dataRd: int, dataWr: int)
    requires NoDup([priRd, priWr, dataRd, dataWr])
    ensures PairsMatch([priRd, priWr, dataRd, dataWr], [priRd, dataRd])
    ensures var l := [Entry(priRd, Pipe, false, 0), Entry(dataRd, Pipe, false, 1)];
            && FdsOf(l, Pipe) == [priRd, dataRd] && FdsOf(l, Socket) == []
            && Names(l) == [priRd, dataRd] && NoDup(Names(l))
  {
    var e0, e1 := Entry(priRd, Pipe, false, 0), Entry(dataRd, Pipe, false, 1);
    var s := [priRd, priWr, dataRd, dataWr];
    assert s[0] != s[2];
    assert ReadEnds(s) == [priRd, dataRd];
    assert [] + [e0] == [e0] && [e0] + [e1] == [e0, e1];
    FdsOfAppend([], e0, Pipe);
    FdsOfAppend([e0], e1, Pipe);
    FdsOfAppend([], e0, Socket);
    FdsOfAppend([e0], e1, Socket);
  }

  class Thread {
    const maxSockets: nat
    const maxPipes: nat
    var numSockets: nat
    var numPipes: nat
    const pipes: array<int>

    const pollfds: array<Slot>
    var active: nat
    var fdList: seq<Entry>
    var pending: map<int, Packet>

    ghost function WorkerState(): State
      reads `active, `fdList, `pending, pollfds
    {
      State(pollfds[..], active, fdList, pending)
    }

    ghost function View(): Manager
      reads `numSockets, `fdList
    {
      Manager(numSockets, FdsOf(fdList, Socket))
    }

    ghost function PipeFds(): seq<int>
      reads `numPipes, pipes
      requires numPipes <= pipes.Length
    {
      pipes[..numPipes]
    }

    /** Layout of the two arrays; kept even while the counters disagree. */
    ghost predicate Shape()
      reads this, pipes, pollfds
    {
      && pollfds.Length == maxSockets + maxPipes && pipes.Length == 2 * maxPipes
      && maxPipes <= 65535 && maxSockets <= 65535
      && 4 <= numPipes <= maxPipes && maxPipes % 2 == 0
      && PipesOk(WorkerState(), PipeFds())
    }

    ghost predicate Valid()
      reads this, pipes, pollfds
    {
      Shape() && numSockets == |FdsOf(fdList, Socket)| <= maxSockets
    }

    /** The polled descriptors are the pipes' read ends and the sockets, and the array holds them all. */
    lemma Occupancy()
      requires Valid()
      ensures active == |fdList| == numPipes / 2 + numSockets <= pollfds.Length
      ensures numPipes == maxPipes || numSockets < maxSockets ==> active < pollfds.Length
      ensures Polled(WorkerState()) == Names(fdList) && NoDup(Names(fdList))
    {
      FdsOfCount(fdList);
      assert |Names(fdList)| == |Polled(WorkerState())|;
    }

    /** adp_thr_mgr_new once its thread runs; the pairs are what pipe(2) returned. */
    constructor (maxSockets: nat, extraPipes: nat, priRd: int, priWr: int, dataRd: int, dataWr: int)
      requires maxSockets <= 65535 && extraPipes * 2 + 4 <= 65535
      requires NoDup([priRd, priWr, dataRd, dataWr])
      ensures Valid() && fresh(pipes) && fresh(pollfds)
      ensures this.maxSockets == maxSockets && maxPipes == extraPipes * 2 + 4
      ensures View() == Manager(0, []) && PipeFds() == [priRd, priWr, dataRd, dataWr]
      ensures NoDrift(WorkerState()) && pending == map[] && active == 2
      ensures fdList == [Entry(priRd, Pipe, false, 0), Entry(dataRd, Pipe, false, 1)]
      ensures pollfds[0].fd == priRd && pollfds[0].events == Flags(true, false)
      ensures pollfds[1].fd == dataRd && pollfds[1].events == Flags(true, false)
    {
      this.maxSockets := maxSockets;
      maxPipes := extraPipes * 2 + 4;
      numSockets, numPipes := 0, 4;
      pipes := new int[2 * (extraPipes * 2 + 4)];
      pollfds := new Slot[maxSockets + (extraPipes * 2 + 4)];
      active, pending := 2, map[];
      fdList := [Entry(priRd, Pipe, false, 0), Entry(dataRd, Pipe, false, 1)];
      new;
      pipes[0], pipes[1], pipes[2], pipes[3] := priRd, priWr, dataRd, dataWr;
      pollfds[0] := Slot(priRd, Flags(true, false), pollfds[0].revents);
      pollfds[1] := Slot(dataRd, Flags(true, false), pollfds[1].revents);
      InitialLists(priRd, priWr, dataRd, dataWr);
      assert PipeFds() == [priRd, priWr, dataRd, dataWr];
      assert Polled(WorkerState()) == [priRd, dataRd];
    }

    // -------------------------------------------------------------------------------------------
    // Worker handlers
    // -------------------------------------------------------------------------------------------

    /** Lines 510-557. */
    method HandleAddRequest(r: Request)
      requires r.Add? && active < pollfds.Length
      modifies this`active, this`fdList, pollfds
      ensures WorkerState() == HandleAdd(old(WorkerState()), r)
      ensures active == old(active) + 1 && fdList == old(fdList) + [Entry(r.fd, r.kind, r.canSend, old(active))]
      ensures pollfds[old(active)].fd == r.fd && pollfds[old(active)].revents == old(pollfds[active].revents)
      ensures pollfds[old(active)].events.pollIn == r.pollIn && !pollfds[old(active)].events.pollOut
      ensures forall i :: 0 <= i < pollfds.Length && i != old(active) ==> pollfds[i] == old(pollfds[i])
    {
      AddWrites(WorkerState(), r);
      var n := active;
      active := active + 1;
      pollfds[n] := pollfds[n].(fd := r.fd, events := Flags(r.pollIn, false));
      fdList := fdList + [Entry(r.fd, r.kind, r.canSend, n)];
    }

    /** Lines 558-636: search from slot 1, close the gap, then drop the list entry. */
    method HandleDeleteRequest(fd: int)
      requires 2 <= active <= pollfds.Length
      modifies this`active, this`fdList, pollfds
      ensures WorkerState() == HandleDelete(old(WorkerState()), fd)
    {
      if fd == pollfds[0].fd || fd == pollfds[1].fd {
        active := 0;
        return;
      }
      var i := FindSlot(fd);
      if i < active {
        CloseGapFrom(i);
        DropListEntry(fd);
      }
    }

    /** Lines 579-585. */
    method FindSlot(fd: int) returns (i: nat)
      requires 2 <= active <= pollfds.Length
      ensures fd in Polled(WorkerState())[1..] <==> i < active
      ensures i < active ==> i == 1 + IndexOf(Polled(WorkerState())[1..], fd)
    {
      ghost var polled := Polled(WorkerState());
      i := 1;
      while i < active && pollfds[i].fd != fd
        invariant 1 <= i <= active
        invariant forall k :: 1 <= k < i ==> polled[k] != fd
      {
        i := i + 1;
      }
      if i < active {
        assert polled[1..][i - 1] == fd;
        FirstMatch(polled[1..], fd, i - 1);
      }
    }

    /** Lines 607-620. */
    method DropListEntry(fd: int)
      modifies this`fdList
      ensures fdList == DropEntry(old(fdList), fd)
    {
      var p := 0;
      while p < |fdList| && fdList[p].fd != fd
        invariant 0 <= p <= |fdList|
        invariant forall k :: 0 <= k < p ==> Names(fdList)[k] != fd
      {
        p := p + 1;
      }
      if p < |fdList| {
        assert Names(fdList)[p] == fd;
        FirstMatch(Names(fdList), fd, p);
        fdList := fdList[..p] + fdList[p + 1..];
      }
    }

    /** Lines 590-600: the in-place shift. */
    method CloseGapFrom(i: nat)
      requires i < active <= pollfds.Length
      modifies this`active, pollfds
      ensures active == old(active) - 1
      ensures pollfds[..] == CloseGap(old(pollfds[..]), i, old(active))
    {
      ghost var before := pollfds[..];
      var n, k := active, i + 1;
      while k < n
        invariant i + 1 <= k <= n
        invariant forall j :: i <= j < k - 1 ==> pollfds[j] == before[j + 1]
        invariant forall j :: 0 <= j < i || k - 1 <= j < pollfds.Length ==> pollfds[j] == before[j]
      {
        pollfds[k - 1] := pollfds[k];
        k := k + 1;
      }
      active := n - 1;
    }

    /** Lines 675-709: park the packet, find the entry, arm the slot it refers to. */
    method StoreData(fd: int, packet: Packet)
      requires Consistent(WorkerState()) && fd in Names(fdList)
      modifies this`pending, pollfds
      ensures WorkerState() == Sends.HandleData(old(WorkerState()), fd, packet)
      ensures pending == old(pending)[fd := packet]
      ensures var s := fdList[IndexOf(Names(fdList), fd)].slot;
              && pollfds[s] == old(pollfds[s]).(events := Flags(old(pollfds[s]).events.pollIn, true))
              && forall i :: 0 <= i < pollfds.Length && i != s ==> pollfds[i] == old(pollfds[i])
    {
      pending := pending[fd := packet];
      var p := 0;
      while fdList[p].fd != fd
        invariant 0 <= p <= IndexOf(Names(fdList), fd)
        invariant forall k :: 0 <= k < p ==> Names(fdList)[k] != fd
        decreases |fdList| - p
      {
        assert Names(fdList)[p] != fd;
        p := p + 1;
      }
      assert Names(fdList)[p] == fd;
      FirstMatch(Names(fdList), fd, p);
      var s := fdList[p].slot;
      pollfds[s] := pollfds[s].(events := pollfds[s].events.(pollOut := true));
    }

    /** Lines 406-464 for the entry at position i; a failed assertion is reported as `aborted`. */
    method VisitEntry(i: nat) returns (aborted: bool, sent: Option<Packet>)
      requires Consistent(WorkerState()) && i < |fdList|
      modifies this`pending, pollfds
      ensures var y := Sends.HandleVisit(Sends.World(old(WorkerState()), [], false), fdList[i]);
              && aborted == y.aborted && WorkerState() == y.w
              && y.log == if sent.Some? then [Sends.Sent(fdList[i].fd, sent.value)] else []
      ensures var s := fdList[i].slot; var key := old(pollfds[s]).fd;
              var due := old(pollfds[s]).revents.pollOut && old(pollfds[s]).events.pollOut;
              && (aborted <==> due && key !in old(pending))
              && sent == (if due && key in old(pending) && fdList[i].canSend then Some(old(pending)[key]) else None)
              && pending == (if due then old(pending) - {key} else old(pending))
              && pollfds[s] == (if due && !aborted
                                then old(pollfds[s]).(events := Flags(old(pollfds[s]).events.pollIn, false))
                                else old(pollfds[s]))
              && forall k :: 0 <= k < pollfds.Length && k != s ==> pollfds[k] == old(pollfds[k])
    {
      aborted, sent := false, None;
      var s := fdList[i].slot;
      if pollfds[s].revents.pollOut && pollfds[s].events.pollOut {
        var key := pollfds[s].fd;
        if key !in pending {
          assert pending - {key} == pending;
          return true, None;
        }
        if fdList[i].canSend {
          sent := Some(pending[key]);
        }
        pending := pending - {key};
        pollfds[s] := pollfds[s].(events := pollfds[s].events.(pollOut := false));
      }
    }

    // -------------------------------------------------------------------------------------------
    // Manager requests
    // -------------------------------------------------------------------------------------------

    method AddSocket(fd: int, pollIn: bool, canSend: bool) returns (ret: int)
      requires Valid() && fd !in Names(fdList)
      modifies this`numSockets, this`active, this`fdList, pollfds
      ensures Valid() && View() == ManagerAdd(old(View()), fd, maxSockets)
      ensures ret == if old(numSockets) == maxSockets then -1 else fd
      ensures WorkerState() == if old(numSockets) == maxSockets then old(WorkerState())
                               else HandleAdd(old(WorkerState()), Add(fd, Socket, pollIn, canSend))
      ensures PipeFds() == old(PipeFds())
    {
      if numSockets == maxSockets {
        return -1;
      }
      Occupancy();
      var r := Add(fd, Socket, pollIn, canSend);
      AddSocketKeepsPipes(WorkerState(), r, PipeFds());
      numSockets := numSockets + 1;
      HandleAddRequest(r);
      ret := fd;
    }

    /**
     DELETE_FD of a socket. The worker deletes whatever carries that number, a pipe's read end
     included: then pipes_arr lists a pipe nobody polls, or the worker stops. Array and list stay
     matched exactly when it is no pipe, and the counter too exactly when it is a socket of this thread.
     */
    method DeleteSocket(fd: int) returns (ret: int)
      requires Valid()
      modifies this`numSockets, this`active, this`fdList, pollfds
      ensures WorkerState() == HandleDelete(old(WorkerState()), fd) && ret == -1
      ensures numSockets == (if old(numSockets) == 0 then 65535 else old(numSockets) - 1)
      ensures Shape() <==> fd !in old(FdsOf(fdList, Pipe))
      ensures Shape() ==> View() == ManagerDelete(old(View()), fd)
      ensures Valid() <==> fd in old(FdsOf(fdList, Socket))
    {
      DeleteByNumber(WorkerState(), fd, PipeFds());
      HandleDeleteRequest(fd);
      numSockets := if numSockets == 0 then 65535 else numSockets - 1;
      ret := -1;
    }

    method PushPair(rd: int, wr: int)
      requires numPipes + 1 < pipes.Length
      modifies this`numPipes, pipes
      ensures numPipes == old(numPipes) + 2
      ensures PipeFds() == old(PipeFds()) + [rd, wr]
    {
      pipes[numPipes] := rd;
      pipes[numPipes + 1] := wr;
      numPipes := numPipes + 2;
    }

    /** rd and wr are what pipe(2) would return. */
    method AddPipe(rd: int, wr: int, canSend: bool) returns (ret: int)
      requires Valid() && rd != wr && rd !in PipeFds() && wr !in PipeFds() && rd !in Names(fdList)
      modifies this`numPipes, this`active, this`fdList, pollfds, pipes
      ensures Valid() && View() == old(View())
      ensures old(numPipes) >= maxPipes ==> ret == -1 && PipeFds() == old(PipeFds())
      ensures old(numPipes) < maxPipes ==> ret == wr && PipeFds() == old(PipeFds()) + [rd, wr]
      ensures WorkerState() == if old(numPipes) >= maxPipes then old(WorkerState())
                               else HandleAdd(old(WorkerState()), Add(rd, Pipe, true, canSend))
    {
      if numPipes >= maxPipes {
        return -1;
      }
      Occupancy();
      ghost var fds := PipeFds();
      PushPair(rd, wr);
      AddReadEnd(rd, wr, canSend, fds);
      ret := wr;
    }

    /** The worker learns the read end of a pair the manager appended to fds. */
    method AddReadEnd(rd: int, wr: int, canSend: bool, ghost fds: seq<int>)
      requires PipesOk(WorkerState(), fds) && active < pollfds.Length
      requires rd != wr && rd !in fds && wr !in fds && rd !in Names(fdList)
      modifies this`active, this`fdList, pollfds
      ensures PipesOk(WorkerState(), fds + [rd, wr])
      ensures FdsOf(fdList, Socket) == old(FdsOf(fdList, Socket))
      ensures WorkerState() == HandleAdd(old(WorkerState()), Add(rd, Pipe, true, canSend))
    {
      var r := Add(rd, Pipe, true, canSend);
      AddPipeKeepsPipes(WorkerState(), r, fds, wr);
      HandleAddRequest(r);
    }

    /**
     DELETE_FD of a pipe by either end. The first two pipes stop the worker. For a descriptor that is
     no end of this thread's pipes nothing is written, and the call is left waiting for an answer to a
     request it never made.
     */
    method DeletePipe(fd: int) returns (ret: int, unanswered: bool)
      requires Valid()
      modifies this`numPipes, this`active, this`fdList, pollfds, pipes
      ensures ret == -1 && 4 <= numPipes <= pipes.Length
      ensures unanswered <==> fd !in old(PipeFds())
      ensures unanswered ==> WorkerState() == old(WorkerState()) && PipeFds() == old(PipeFds())
      ensures fd in old(pipes[..4]) ==> !Running(WorkerState()) && PipeFds() == old(PipeFds())
      ensures fd !in old(pipes[..4]) ==> Valid() && View() == old(View())
      ensures fd !in old(pipes[..4]) && !unanswered ==>
                PipeFds() == RemovePair(old(PipeFds()), PairIndex(old(PipeFds()), fd))
      ensures !unanswered ==>
                WorkerState() == HandleDelete(old(WorkerState()), old(PipeFds())[PairIndex(old(PipeFds()), fd)])
    {
      ret, unanswered := -1, false;
      assert PipeFds()[..4] == pipes[..4] == [pipes[0], pipes[1], pipes[2], pipes[3]];
      AdminIndex(PipeFds(), fd);
      if fd == pipes[0] || fd == pipes[1] {
        StopWorker(pipes[0]);
      } else if fd == pipes[2] || fd == pipes[3] {
        StopWorker(pipes[2]);
      } else {
        unanswered := DeleteAddOnPipe(fd);
      }
    }

    method DeleteAddOnPipe(fd: int) returns (unanswered: bool)
      requires Valid() && fd !in PipeFds()[..4]
      modifies this`numPipes, this`active, this`fdList, pollfds, pipes
      ensures Valid() && View() == old(View()) && (unanswered <==> fd !in old(PipeFds()))
      ensures unanswered ==> WorkerState() == old(WorkerState()) && PipeFds() == old(PipeFds())
      ensures !unanswered ==>
                && PipeFds() == RemovePair(old(PipeFds()), PairIndex(old(PipeFds()), fd))
                && WorkerState() == HandleDelete(old(WorkerState()), old(PipeFds())[PairIndex(old(PipeFds()), fd)])
    {
      var i := FindPipe(fd);
      unanswered := i == numPipes;
      if !unanswered {
        PairBeyondAdmin(PipeFds(), fd);
        RemovePipe(if i % 2 == 1 then i - 1 else i);
      }
    }

    /** Deleting the read end of the primary or the data pipe ends the polling loop. */
    method StopWorker(fd: int)
      requires Consistent(WorkerState()) && (fd == fdList[0].fd || fd == fdList[1].fd)
      modifies this`active, this`fdList, pollfds
      ensures !Running(WorkerState()) && WorkerState() == HandleDelete(old(WorkerState()), fd)
    {
      ghost var w := WorkerState();
      assert Polled(w)[0] == Names(fdList)[0] && Polled(w)[1] == Names(fdList)[1];
      HandleDeleteRequest(fd);
    }

    /** Lines 278-285. */
    method FindPipe(fd: int) returns (i: nat)
      requires numPipes <= pipes.Length
      ensures i < numPipes <==> fd in PipeFds()
      ensures i <= numPipes && (i < numPipes ==> i == IndexOf(PipeFds(), fd))
    {
      i := 0;
      while i < numPipes && pipes[i] != fd
        invariant 0 <= i <= numPipes
        invariant forall k :: 0 <= k < i ==> PipeFds()[k] != fd
      {
        i := i + 1;
      }
      if i < numPipes {
        assert PipeFds()[i] == fd;
        FirstMatch(PipeFds(), fd, i);
      }
    }

    method RemovePipe(d: nat)
      requires Valid() && 4 <= d && d + 1 < numPipes && d % 2 == 0
      modifies this`numPipes, this`active, this`fdList, pollfds, pipes
      ensures Valid() && View() == old(View())
      ensures PipeFds() == RemovePair(old(PipeFds()), d)
      ensures WorkerState() == HandleDelete(old(WorkerState()), old(PipeFds())[d])
    {
      ghost var fds := PipeFds();
      DeleteReadEnd(d);
      ghost var w := WorkerState();
      ClosePair(d);
      assert WorkerState() == w && PipeFds() == RemovePair(fds, d);
    }

    /** The worker forgets the read end of the pair at d. */
    method DeleteReadEnd(d: nat)
      requires 4 <= d && d + 1 < numPipes <= pipes.Length && d % 2 == 0 && PipesOk(WorkerState(), PipeFds())
      modifies this`active, this`fdList, pollfds
      ensures PipesOk(WorkerState(), RemovePair(PipeFds(), d))
      ensures FdsOf(fdList, Socket) == old(FdsOf(fdList, Socket))
      ensures WorkerState() == HandleDelete(old(WorkerState()), pipes[d])
    {
      DeletePipeKeepsPipes(WorkerState(), d, PipeFds());
      HandleDeleteRequest(pipes[d]);
    }

    /** Lines 353-357: the pairs behind position d move down by two. */
    method ClosePair(d: nat)
      requires d + 1 < numPipes <= pipes.Length
      modifies this`numPipes, pipes
      ensures numPipes == old(numPipes) - 2
      ensures PipeFds() == RemovePair(old(PipeFds()), d)
    {
      ghost var before := pipes[..];
      var n, j := numPipes, d + 2;
      while j < n
        invariant d + 2 <= j <= n
        invariant forall k :: d <= k < j - 2 ==> pipes[k] == before[k + 2]
        invariant forall k :: 0 <= k < d || j - 2 <= k < pipes.Length ==> pipes[k] == before[k]
      {
        pipes[j - 2] := pipes[j];
        j := j + 1;
      }
      numPipes := n - 2;
      assert pipes[..n - 2] == before[..d] + before[d + 2..n];
      assert before[..n][..d] == before[..d] && before[..n][d + 2..] == before[d + 2..n];
    }
  }

  lemma AdminIndex(s: seq<int>, fd: int)
    requires NoDup(s) && 4 <= |s|
    ensures fd == s[0] || fd == s[1] ==> PairIndex(s, fd) == 0
    ensures fd == s[2] || fd == s[3] ==> PairIndex(s, fd) == 2
  {
    if fd in s {
      var i := IndexOf(s, fd);
      assert forall k :: 0 <= k < 4 && s[k] == fd ==> k == i;
    }
  }

  lemma PairBeyondAdmin(s: seq<int>, fd: int)
    requires |s| % 2 == 0 && 4 <= |s| && fd in s && fd !in s[..4]
    ensures 4 <= PairIndex(s, fd) && PairIndex(s, fd) % 2 == 0 && PairIndex(s, fd) + 1 < |s|
  {
    var i := IndexOf(s, fd);
    assert forall k :: 0 <= k < 4 ==> s[..4][k] == s[k];
  }
}
