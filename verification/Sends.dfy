/**
 Outgoing packets of one polling worker (src/cc_pollthr_mgr.c): the data-pipe handler parks a packet
 and arms POLLOUT, a later visit of the entry sends it. The log records what happened to which
 descriptor, so that the promises below are about observable history only.
 */
module Sends {
  import opened Lists
  import opened Worker

  datatype Action =
    | Manage(request: Request)
    | Store(fd: int, packet: Packet)       // one message read from the data pipe
    | Poll(revents: seq<Flags>)            // poll() reports arbitrary readiness
    | Visit(position: nat)                 // POLLOUT half of poll_fd_process for one entry

  datatype Event =
    | Added(fd: int)
    | Stored(fd: int, packet: Packet)
    | Sent(fd: int, packet: Packet)

  /** `aborted` is set by the assertions at lines 435, 518 and 697. */
  datatype World = World(w: State, log: seq<Event>, aborted: bool)

  function Arm(slots: seq<Slot>, i: nat, on: bool): (r: seq<Slot>)
    requires i < |slots|
    ensures |r| == |slots| && r[i].fd == slots[i].fd && r[i].revents == slots[i].revents
    ensures r[i].events.pollOut == on && r[i].events.pollIn == slots[i].events.pollIn
    ensures forall k :: 0 <= k < |slots| && k != i ==> r[k] == slots[k]
  {
    slots[i := slots[i].(events := slots[i].events.(pollOut := on))]
  }

  /** pollthr_data_pipe_process_func: the newest packet replaces a parked one. */
  function HandleData(w: State, fd: int, packet: Packet): State
    requires Consistent(w) && fd in Names(w.fdList)
  {
    var e := w.fdList[IndexOf(Names(w.fdList), fd)];
    w.(pending := w.pending[fd := packet], slots := Arm(w.slots, e.slot, true))
  }

  function SetRevents(slots: seq<Slot>, active: nat, rs: seq<Flags>): (r: seq<Slot>)
    requires active <= |slots|
    ensures |r| == |slots|
    ensures forall k :: 0 <= k < |slots| ==> r[k].fd == slots[k].fd && r[k].events == slots[k].events
    ensures forall k :: 0 <= k < |slots| ==>
              r[k].revents == if k < active && k < |rs| then rs[k] else slots[k].revents
  {
    seq(|slots|, k requires 0 <= k < |slots| =>
      if k < active && k < |rs| then slots[k].(revents := rs[k]) else slots[k])
  }

  /** poll_fd_process, lines 406-464: the packet is looked up by the slot's fd, sent on the entry's. */
  function HandleVisit(x: World, e: Entry): World
    requires e.slot < |x.w.slots|
  {
    var s := x.w.slots[e.slot];
    if !(s.revents.pollOut && s.events.pollOut) then x
    else if s.fd !in x.w.pending then x.(aborted := true)
    else
      var w' := x.w.(pending := x.w.pending - {s.fd}, slots := Arm(x.w.slots, e.slot, false));
      x.(w := w', log := if e.canSend then x.log + [Sent(e.fd, x.w.pending[s.fd])] else x.log)
  }

  function Step(x: World, a: Action): World
    requires Live(x) ==> Consistent(x.w)
  {
    if !Live(x) then x else
      match a
      case Manage(r) =>
        if r.Delete? then x.(w := HandleDelete(x.w, r.fd))
        else if r.fd in Names(x.w.fdList) then x.(aborted := true)
        else x.(w := HandleAdd(x.w, r), log := x.log + [Added(r.fd)])
      case Store(fd, p) =>
        if fd in Names(x.w.fdList) then x.(w := HandleData(x.w, fd, p), log := x.log + [Stored(fd, p)])
        else x.(aborted := true)
      case Poll(rs) => x.(w := x.w.(slots := SetRevents(x.w.slots, x.w.active, rs)))
      case Visit(i) => if i < |x.w.fdList| then HandleVisit(x, x.w.fdList[i]) else x
  }

  predicate Live(x: World) {
    !x.aborted && Running(x.w)
  }

  ghost predicate Sane(x: World) {
    Live(x) ==> Consistent(x.w)
  }

  lemma StepKeepsSane(x: World, a: Action)
    requires Sane(x)
    ensures Sane(Step(x, a))
  {
    if Live(x) && Live(Step(x, a)) {
      var w, w' := x.w, Step(x, a).w;
      match a
      case Manage(Delete(fd)) => DeleteKeepsConsistent(w, fd);
      case Manage(r) => AddKeepsConsistent(w, r);
      case _ =>
        assert forall i :: 0 <= i < w.active ==> w'.slots[i].fd == w.slots[i].fd;
        assert Polled(w') == Polled(w);
    }
  }

  ghost function Run(x: World, acts: seq<Action>): (y: World)
    requires Sane(x)
    ensures Sane(y)
    decreases |acts|
  {
    if acts == [] then x else
      StepKeepsSane(x, acts[0]);
      Run(Step(x, acts[0]), acts[1..])
  }

  /** What the callers must respect: fresh adds, last-in first-out deletes, packets for listed fds. */
  ghost predicate Disciplined(x: World, a: Action)
    requires Sane(x)
  {
    Live(x) ==>
      match a
      case Manage(Add(fd, _, _, _)) => fd !in Names(x.w.fdList)
      case Manage(Delete(fd)) => LastOutAt(x.w, Delete(fd)) && fd !in Names(x.w.fdList)[..2]
      case Store(fd, _) => fd in Names(x.w.fdList)
      case _ => true
  }

  ghost predicate DisciplinedRun(x: World, acts: seq<Action>)
    requires Sane(x)
    decreases |acts|
  {
    acts == [] || (Disciplined(x, acts[0]) &&
                   (StepKeepsSane(x, acts[0]); DisciplinedRun(Step(x, acts[0]), acts[1..])))
  }

  // ---------------------------------------------------------------------------------------------
  // What a faithful log looks like
  // ---------------------------------------------------------------------------------------------

  ghost function LastAbout(log: seq<Event>, fd: int): Option<Event> {
    if log == [] then None
    else if log[|log| - 1].fd == fd then Some(log[|log| - 1])
    else LastAbout(log[..|log| - 1], fd)
  }

  /** Each send is directly preceded, among the events of its descriptor, by the store of its packet. */
  ghost predicate Faithful(log: seq<Event>) {
    forall j :: 0 <= j < |log| && log[j].Sent? ==>
      LastAbout(log[..j], log[j].fd) == Some(Stored(log[j].fd, log[j].packet))
  }

  /** Every send so far was faithful, and POLLOUT is armed only for a parked packet. */
  ghost predicate Settled(x: World) {
    && Live(x) && Consistent(x.w) && Faithful(x.log)
    && forall i :: 0 <= i < x.w.active && x.w.slots[i].events.pollOut ==> Parked(x, x.w.slots[i].fd)
  }

  ghost predicate Inv(x: World) {
    Settled(x) && NoDrift(x.w)
  }

  ghost predicate Parked(x: World, fd: int) {
    fd in x.w.pending && LastAbout(x.log, fd) == Some(Stored(fd, x.w.pending[fd]))
  }

  lemma LastAboutAppend(log: seq<Event>, e: Event)
    ensures LastAbout(log + [e], e.fd) == Some(e)
    ensures forall fd :: fd != e.fd ==> LastAbout(log + [e], fd) == LastAbout(log, fd)
  {
    assert (log + [e])[..|log|] == log;
  }

  lemma FaithfulAppend(log: seq<Event>, e: Event)
    requires Faithful(log)
    requires e.Sent? ==> LastAbout(log, e.fd) == Some(Stored(e.fd, e.packet))
    ensures Faithful(log + [e])
  {
    var l := log + [e];
    forall j | 0 <= j < |l| && l[j].Sent?
      ensures LastAbout(l[..j], l[j].fd) == Some(Stored(l[j].fd, l[j].packet))
    {
      assert l[..j] == log[..j];
      assert log[..|log|] == log;
    }
  }

  lemma AddKeepsInv(x: World, r: Request)
    requires Inv(x) && r.Add? && r.fd !in Names(x.w.fdList)
    ensures Inv(Step(x, Manage(r)))
  {
    var y := Step(x, Manage(r));
    AddKeepsConsistent(x.w, r);
    LastAboutAppend(x.log, Added(r.fd));
    FaithfulAppend(x.log, Added(r.fd));
    forall i | 0 <= i < y.w.active && y.w.slots[i].events.pollOut
      ensures Parked(y, y.w.slots[i].fd)
    {
      assert i < x.w.active && Polled(x.w)[i] == x.w.slots[i].fd;
      assert Parked(x, x.w.slots[i].fd);
    }
  }

  /** Flags travel with their slots, so a delete anywhere behind the pipes keeps all but the positions. */
  lemma DeleteKeepsSettled(x: World, fd: int)
    requires Settled(x) && fd !in Names(x.w.fdList)[..2]
    ensures Settled(Step(x, Manage(Delete(fd))))
    ensures Running(HandleDelete(x.w, fd))
  {
    assert Polled(x.w)[0] == Names(x.w.fdList)[..2][0] && Polled(x.w)[1] == Names(x.w.fdList)[..2][1];
    assert x.w.slots[0].fd == Polled(x.w)[0] && x.w.slots[1].fd == Polled(x.w)[1];
    DeleteKeepsConsistent(x.w, fd);
    if fd in Names(x.w.fdList) {
      var y := Step(x, Manage(Delete(fd)));
      forall i | 0 <= i < y.w.active && y.w.slots[i].events.pollOut
        ensures Parked(y, y.w.slots[i].fd)
      {
        SlotsTravel(x.w, fd, i);
        var j := if i < IndexOf(Names(x.w.fdList), fd) then i else i + 1;
        assert Parked(x, x.w.slots[j].fd);
      }
    }
  }

  lemma DeleteKeepsInv(x: World, fd: int)
    requires Inv(x) && Disciplined(x, Manage(Delete(fd)))
    ensures Inv(Step(x, Manage(Delete(fd))))
  {
    DeleteKeepsSettled(x, fd);
    RequestKeepsNoDriftIff(x.w, Delete(fd));
  }

  lemma StoreKeepsInv(x: World, fd: int, p: Packet)
    requires Inv(x) && fd in Names(x.w.fdList)
    ensures Inv(Step(x, Store(fd, p)))
  {
    var y := Step(x, Store(fd, p));
    StepKeepsSane(x, Store(fd, p));
    LastAboutAppend(x.log, Stored(fd, p));
    FaithfulAppend(x.log, Stored(fd, p));
    var k := IndexOf(Names(x.w.fdList), fd);
    assert Polled(x.w)[k] == fd;
    forall i | 0 <= i < y.w.active && y.w.slots[i].events.pollOut
      ensures Parked(y, y.w.slots[i].fd)
    {
      if i != k {
        assert Polled(x.w)[i] != Polled(x.w)[k];
        assert Parked(x, x.w.slots[i].fd);
      }
    }
  }

  lemma VisitKeepsInv(x: World, k: nat)
    requires Inv(x)
    ensures Inv(Step(x, Visit(k)))
  {
    var y := Step(x, Visit(k));
    if y != x {
      var e := x.w.fdList[k];
      assert Polled(x.w)[k] == Names(x.w.fdList)[k] == e.fd;
      assert Parked(x, e.fd);
      StepKeepsSane(x, Visit(k));
      LastAboutAppend(x.log, Sent(e.fd, x.w.pending[e.fd]));
      FaithfulAppend(x.log, Sent(e.fd, x.w.pending[e.fd]));
      forall i | 0 <= i < y.w.active && y.w.slots[i].events.pollOut
        ensures Parked(y, y.w.slots[i].fd)
      {
        assert Polled(x.w)[i] != Polled(x.w)[k];
        assert Parked(x, x.w.slots[i].fd);
      }
    }
  }

  lemma StepKeepsInv(x: World, a: Action)
    requires Inv(x) && Disciplined(x, a)
    ensures Inv(Step(x, a))
  {
    match a
    case Manage(Delete(fd)) => DeleteKeepsInv(x, fd);
    case Manage(r) => AddKeepsInv(x, r);
    case Store(fd, p) => StoreKeepsInv(x, fd, p);
    case Poll(_) =>
      StepKeepsSane(x, a);
      forall i | 0 <= i < x.w.active && Step(x, a).w.slots[i].events.pollOut
        ensures Parked(Step(x, a), Step(x, a).w.slots[i].fd)
      {
        assert Parked(x, x.w.slots[i].fd);
      }
    case Visit(i) => VisitKeepsInv(x, i);
  }

  function Boot(memory: seq<Slot>, primary: int, data: int): World {
    World(Start(memory, primary, data), [], false)
  }

  lemma BootInv(memory: seq<Slot>, primary: int, data: int)
    requires primary != data
    ensures Inv(Boot(memory, primary, data))
  {
    StartConsistent(memory, primary, data);
  }

  /** No assertion fails and every send is faithful, over every disciplined run. */
  lemma {:induction false} DisciplinedRunKeepsInv(x: World, acts: seq<Action>)
    requires Inv(x) && DisciplinedRun(x, acts)
    ensures Inv(Run(x, acts))
    decreases |acts|
  {
    if acts != [] {
      StepKeepsInv(x, acts[0]);
      DisciplinedRunKeepsInv(Step(x, acts[0]), acts[1..]);
    }
  }

  // ---------------------------------------------------------------------------------------------
  // Consequences for the packets of one descriptor since its latest ADD
  // ---------------------------------------------------------------------------------------------

  /** Packets stored for fd since it was last added. */
  ghost function StoredSince(log: seq<Event>, fd: int): seq<Packet> {
    if log == [] then [] else
      var e, rest := log[|log| - 1], log[..|log| - 1];
      if e == Added(fd) then []
      else if e.Stored? && e.fd == fd then StoredSince(rest, fd) + [e.packet]
      else StoredSince(rest, fd)
  }

  ghost function SentSince(log: seq<Event>, fd: int): seq<Packet> {
    if log == [] then [] else
      var e, rest := log[|log| - 1], log[..|log| - 1];
      if e == Added(fd) then []
      else if e.Sent? && e.fd == fd then SentSince(rest, fd) + [e.packet]
      else SentSince(rest, fd)
  }

  /** s arises from t by dropping elements: in order, and no element of t is used twice. */
  ghost predicate Subsequence(s: seq<Packet>, t: seq<Packet>) {
    if s == [] then true
    else if t == [] then false
    else if s[|s| - 1] == t[|t| - 1] && Subsequence(s[..|s| - 1], t[..|t| - 1]) then true
    else Subsequence(s, t[..|t| - 1])
  }

  lemma {:induction false} SentIsSubsequenceOfStored(log: seq<Event>, fd: int)
    requires Faithful(log)
    ensures Subsequence(SentSince(log, fd), StoredSince(log, fd))
    ensures LastAbout(log, fd).Some? && LastAbout(log, fd).value.Stored? ==>
              var t := StoredSince(log, fd);
              && t != [] && t[|t| - 1] == LastAbout(log, fd).value.packet
              && Subsequence(SentSince(log, fd), t[..|t| - 1])
  {
    if log != [] {
      var n := |log| - 1;
      var rest := log[..n];
      assert forall j :: 0 <= j < n ==> rest[..j] == log[..j];
      SentIsSubsequenceOfStored(rest, fd);
      var s, t := SentSince(log, fd), StoredSince(log, fd);
      if log[n].fd == fd {
        match log[n]
        case Stored(_, p) => assert t[..|t| - 1] == StoredSince(rest, fd);
        case Sent(_, p) => assert s[..|s| - 1] == SentSince(rest, fd);
        case Added(_) =>
      }
    }
  }

  /** The whole promise, from the start of the worker. */
  lemma DisciplinedSends(memory: seq<Slot>, primary: int, data: int, acts: seq<Action>, fd: int)
    requires primary != data
    requires Sane(Boot(memory, primary, data)) && DisciplinedRun(Boot(memory, primary, data), acts)
    ensures var y := Run(Boot(memory, primary, data), acts);
            !y.aborted && Subsequence(SentSince(y.log, fd), StoredSince(y.log, fd))
  {
    BootInv(memory, primary, data);
    DisciplinedRunKeepsInv(Boot(memory, primary, data), acts);
    SentIsSubsequenceOfStored(Run(Boot(memory, primary, data), acts).log, fd);
  }

  // ---------------------------------------------------------------------------------------------
  // The discipline is necessary
  // ---------------------------------------------------------------------------------------------

  /** No disciplined continuation can trip an assertion. */
  ghost predicate NeverAborts(x: World)
    requires Sane(x)
  {
    forall acts :: DisciplinedRun(x, acts) ==> !Run(x, acts).aborted
  }

  /** Nor can one send a packet on a descriptor other than the one it was stored for. */
  ghost predicate SafeFrom(x: World)
    requires Sane(x)
  {
    NeverAborts(x) && forall acts :: DisciplinedRun(x, acts) ==> Faithful(Run(x, acts).log)
  }

  function Everything(n: nat): seq<Flags> {
    seq(n, _ => Flags(true, true))
  }

  function SendAt(fd: int, packet: Packet, active: nat, p: nat): seq<Action> {
    [Store(fd, packet), Poll(Everything(active)), Visit(p)]
  }

  /**
   A drifted entry that refers to the polled slot of another descriptor: storing a packet for it and
   letting poll() report that slot writable sends the other descriptor's packet, or aborts.
   */
  lemma DriftedSend(x: World, p: nat, packet: Packet) returns (y: World)
    requires Live(x) && Consistent(x.w) && p < |x.w.fdList|
    requires p < x.w.fdList[p].slot < x.w.active
    ensures var acts := SendAt(x.w.fdList[p].fd, packet, x.w.active, p);
            DisciplinedRun(x, acts) && y == Run(x, acts)
    ensures var e := x.w.fdList[p]; var other := x.w.slots[e.slot].fd;
            && other != e.fd && other in Names(x.w.fdList)
            && (y.aborted <==> other !in x.w.pending)
            && (!y.aborted ==>
                  && other !in y.w.pending && Live(y) && y.w.fdList == x.w.fdList
                  && y.w.active == x.w.active && y.w.slots[e.slot].fd == other
                  && (e.canSend ==> y.log == x.log + [Stored(e.fd, packet)] + [Sent(e.fd, x.w.pending[other])]))
  {
    var e := x.w.fdList[p];
    var other := x.w.slots[e.slot].fd;
    assert Names(x.w.fdList)[p] == e.fd && Polled(x.w)[e.slot] == other;
    assert Names(x.w.fdList)[e.slot] == other != e.fd;
    IndexUnique(Names(x.w.fdList), e.fd, p);
    var a0, a1, a2 := Store(e.fd, packet), Poll(Everything(x.w.active)), Visit(p);
    var x1 := Step(x, a0);
    StepKeepsSane(x, a0);
    var x2 := Step(x1, a1);
    StepKeepsSane(x1, a1);
    y := Step(x2, a2);
    StepKeepsSane(x2, a2);
    assert x2.w.slots[e.slot].revents.pollOut && x2.w.slots[e.slot].events.pollOut;
    ThreeSteps(x, a0, a1, a2);
  }

  lemma ThreeSteps(x: World, a0: Action, a1: Action, a2: Action)
    requires Sane(x) && Sane(Step(x, a0)) && Sane(Step(Step(x, a0), a1))
    requires Disciplined(x, a0) && Disciplined(Step(x, a0), a1) && Disciplined(Step(Step(x, a0), a1), a2)
    ensures DisciplinedRun(x, [a0, a1, a2])
    ensures Run(x, [a0, a1, a2]) == Step(Step(Step(x, a0), a1), a2)
  {
    var x1 := Step(x, a0);
    var x2 := Step(x1, a1);
    assert [a0, a1, a2][1..] == [a1, a2] && [a1, a2][1..] == [a2] && [a2][1..] == [];
    StepKeepsSane(x2, a2);
    assert Run(x2, [a2]) == Step(x2, a2) && DisciplinedRun(x2, [a2]);
    assert Run(x1, [a1, a2]) == Step(x2, a2) && DisciplinedRun(x1, [a1, a2]);
  }

  lemma {:induction false} RunConcat(x: World, a: seq<Action>, b: seq<Action>)
    requires Sane(x)
    ensures Run(x, a + b) == Run(Run(x, a), b)
    ensures DisciplinedRun(x, a) && DisciplinedRun(Run(x, a), b) ==> DisciplinedRun(x, a + b)
    decreases |a|
  {
    if a == [] {
      assert a + b == b;
    } else {
      StepKeepsSane(x, a[0]);
      assert (a + b)[1..] == a[1..] + b;
      RunConcat(Step(x, a[0]), a[1..], b);
    }
  }

  lemma DriftAborts(x: World, p: nat)
    requires Live(x) && Consistent(x.w) && p < |x.w.fdList|
    requires p < x.w.fdList[p].slot < x.w.active
    ensures !NeverAborts(x)
  {
    var acts := SendAt(x.w.fdList[p].fd, [], x.w.active, p);
    var y := DriftedSend(x, p, []);
    if !y.aborted {
      var z := DriftedSend(y, p, []);
      RunConcat(x, acts, acts);
      assert DisciplinedRun(x, acts + acts) && Run(x, acts + acts).aborted;
    }
  }

  /** The other failure of a drifted entry: a packet stored for one connection leaves on another. */
  lemma Misdelivery(x: World, p: nat, pk: Packet, pk2: Packet) returns (y: World)
    requires Live(x) && Consistent(x.w) && p < |x.w.fdList|
    requires p < x.w.fdList[p].slot < x.w.active && x.w.fdList[p].canSend
    ensures var e := x.w.fdList[p]; var other := x.w.slots[e.slot].fd;
            var acts := [Store(other, pk)] + SendAt(e.fd, pk2, x.w.active, p);
            && other != e.fd && DisciplinedRun(x, acts) && y == Run(x, acts)
            && y.log == x.log + [Stored(other, pk)] + [Stored(e.fd, pk2)] + [Sent(e.fd, pk)]
    ensures pk != pk2 ==> !Faithful(y.log)
  {
    var e := x.w.fdList[p];
    var other := x.w.slots[e.slot].fd;
    assert Polled(x.w)[e.slot] == other && Names(x.w.fdList)[e.slot] == other;
    var a := Store(other, pk);
    var x1 := Step(x, a);
    StepKeepsSane(x, a);
    y := DriftedSend(x1, p, pk2);
    OneStep(x, a);
    RunConcat(x, [a], SendAt(e.fd, pk2, x.w.active, p));
    NotItsPacket(x1.log, e.fd, pk2, pk);
  }

  /** A send of anything but the packet stored last is not faithful. */
  lemma NotItsPacket(log: seq<Event>, fd: int, stored: Packet, sent: Packet)
    ensures stored != sent ==> !Faithful(log + [Stored(fd, stored)] + [Sent(fd, sent)])
  {
    var before := log + [Stored(fd, stored)];
    var l := before + [Sent(fd, sent)];
    LastAboutAppend(log, Stored(fd, stored));
    assert l[..|before|] == before && l[|before|] == Sent(fd, sent);
  }

  lemma OneStep(x: World, a: Action)
    requires Sane(x) && Disciplined(x, a)
    ensures DisciplinedRun(x, [a]) && Run(x, [a]) == Step(x, a)
  {
    StepKeepsSane(x, a);
    assert [a][1..] == [];
  }

  /**
   After a disciplined past, a delete leaves the worker safe exactly when it takes the last entry;
   otherwise an assertion can fail, and if the entry behind can send, packets can be misdelivered.
   */
  lemma DeleteIsSafeIffLast(x: World, fd: int)
    requires Inv(x) && fd in Names(x.w.fdList) && fd !in Names(x.w.fdList)[..2]
    ensures var y, p := Step(x, Manage(Delete(fd))), IndexOf(Names(x.w.fdList), fd);
            && Sane(y)
            && (NeverAborts(y) <==> p == |x.w.fdList| - 1)
            && (SafeFrom(y) <==> p == |x.w.fdList| - 1)
            && (p < |x.w.fdList| - 1 && x.w.fdList[p + 1].canSend ==>
                  exists acts :: DisciplinedRun(y, acts) && !Faithful(Run(y, acts).log))
  {
    var a := Manage(Delete(fd));
    var y := Step(x, a);
    var p := IndexOf(Names(x.w.fdList), fd);
    StepKeepsSane(x, a);
    if p == |x.w.fdList| - 1 {
      StepKeepsInv(x, a);
      forall acts | DisciplinedRun(y, acts) ensures !Run(y, acts).aborted && Faithful(Run(y, acts).log) {
        DisciplinedRunKeepsInv(y, acts);
      }
    } else {
      LateDeleteAborts(x, fd, p);
      if x.w.fdList[p + 1].canSend {
        LateDeleteMisdelivers(x, fd, p);
      }
    }
  }

  /** A late delete and one more add: the entry behind refers to the polled slot of its successor. */
  lemma LateDelete(x: World, fd: int, p: nat) returns (b: Action, z: World)
    requires Inv(x) && fd in Names(x.w.fdList) && fd !in Names(x.w.fdList)[..2]
    requires p == IndexOf(Names(x.w.fdList), fd) < |x.w.fdList| - 1
    ensures Sane(Step(x, Manage(Delete(fd)))) && DisciplinedRun(Step(x, Manage(Delete(fd))), [b])
    ensures z == Run(Step(x, Manage(Delete(fd))), [b]) && Live(z) && Consistent(z.w)
    ensures p < |z.w.fdList| && z.w.fdList[p] == x.w.fdList[p + 1] && p < z.w.fdList[p].slot < z.w.active
  {
    var y := Step(x, Manage(Delete(fd)));
    StepKeepsSane(x, Manage(Delete(fd)));
    assert Polled(x.w)[0] == Names(x.w.fdList)[..2][0] && Polled(x.w)[1] == Names(x.w.fdList)[..2][1];
    assert x.w.slots[0].fd == Polled(x.w)[0] && x.w.slots[1].fd == Polled(x.w)[1];
    DeletePosition(x.w, fd);
    assert y.w.fdList[p] == x.w.fdList[p + 1];
    b := Manage(Add(Above(Names(y.w.fdList)), Socket, true, true));
    z := Step(y, b);
    StepKeepsSane(y, b);
    OneStep(y, b);
  }

  lemma LateDeleteAborts(x: World, fd: int, p: nat)
    requires Inv(x) && fd in Names(x.w.fdList) && fd !in Names(x.w.fdList)[..2]
    requires p == IndexOf(Names(x.w.fdList), fd) < |x.w.fdList| - 1
    ensures Sane(Step(x, Manage(Delete(fd)))) && !NeverAborts(Step(x, Manage(Delete(fd))))
  {
    var y := Step(x, Manage(Delete(fd)));
    var b, z := LateDelete(x, fd, p);
    DriftAborts(z, p);
    var acts :| DisciplinedRun(z, acts) && Run(z, acts).aborted;
    RunConcat(y, [b], acts);
    assert DisciplinedRun(y, [b] + acts) && Run(y, [b] + acts).aborted;
  }

  lemma LateDeleteMisdelivers(x: World, fd: int, p: nat)
    requires Inv(x) && fd in Names(x.w.fdList) && fd !in Names(x.w.fdList)[..2]
    requires p == IndexOf(Names(x.w.fdList), fd) < |x.w.fdList| - 1 && x.w.fdList[p + 1].canSend
    ensures var y := Step(x, Manage(Delete(fd)));
            Sane(y) && exists acts :: DisciplinedRun(y, acts) && !Faithful(Run(y, acts).log)
  {
    var y := Step(x, Manage(Delete(fd)));
    var b, z := LateDelete(x, fd, p);
    var end := Misdelivery(z, p, [1], []);
    var e := z.w.fdList[p];
    var acts := [Store(z.w.slots[e.slot].fd, [1])] + SendAt(e.fd, [], z.w.active, p);
    RunConcat(y, [b], acts);
    assert DisciplinedRun(y, [b] + acts) && !Faithful(Run(y, [b] + acts).log);
  }

  // ---------------------------------------------------------------------------------------------
  // Nothing is sent unless poll() reports it
  // ---------------------------------------------------------------------------------------------

  /** A slot that poll() reports not writable is left alone by the visit, packet and flags included. */
  lemma NotWritableNotSent(x: World, rs: seq<Flags>, i: nat)
    requires Live(x) && Consistent(x.w) && i < |x.w.fdList|
    requires x.w.fdList[i].slot < x.w.active && x.w.fdList[i].slot < |rs| && !rs[x.w.fdList[i].slot].pollOut
    ensures Sane(Step(x, Poll(rs)))
    ensures var y := Step(Step(x, Poll(rs)), Visit(i));
            && y == Step(x, Poll(rs)) && y.log == x.log && !y.aborted && y.w.pending == x.w.pending
            && forall k :: 0 <= k < |x.w.slots| ==> y.w.slots[k].events == x.w.slots[k].events
  {
    StepKeepsSane(x, Poll(rs));
  }

  /** A visit after poll(): what it takes for a send, what is sent, and what is left. */
  lemma PollThenVisit(x: World, rs: seq<Flags>, i: nat)
    requires Live(x) && Consistent(x.w) && i < |x.w.fdList|
    requires x.w.fdList[i].slot < x.w.active && x.w.fdList[i].slot < |rs|
    ensures Sane(Step(x, Poll(rs)))
    ensures var y := Step(Step(x, Poll(rs)), Visit(i));
            var e, q := x.w.fdList[i], x.w.fdList[i].slot;
            var due := rs[q].pollOut && x.w.slots[q].events.pollOut;
            var key := x.w.slots[q].fd;
            && (y.aborted <==> due && key !in x.w.pending)
            && (y.log != x.log <==> due && key in x.w.pending && e.canSend)
            && (y.log != x.log ==> y.log == x.log + [Sent(e.fd, x.w.pending[key])])
            && y.w.pending == (if due then x.w.pending - {key} else x.w.pending)
            && y.w.fdList == x.w.fdList && y.w.active == x.w.active && |y.w.slots| == |x.w.slots|
            && (forall k :: 0 <= k < |x.w.slots| ==>
                  && y.w.slots[k].fd == x.w.slots[k].fd
                  && y.w.slots[k].events.pollIn == x.w.slots[k].events.pollIn
                  && y.w.slots[k].events.pollOut ==
                     (x.w.slots[k].events.pollOut && !(k == q && due && !y.aborted)))
  {
    StepKeepsSane(x, Poll(rs));
    var z := Step(x, Poll(rs));
    assert z.w.slots[x.w.fdList[i].slot].revents == rs[x.w.fdList[i].slot];
    assert x.w.slots[x.w.fdList[i].slot].fd !in x.w.pending ==>
             x.w.pending - {x.w.slots[x.w.fdList[i].slot].fd} == x.w.pending;
  }

  lemma RunLast(x: World, acts: seq<Action>)
    requires Sane(x) && acts != []
    ensures Run(x, acts) == Step(Run(x, acts[..|acts| - 1]), acts[|acts| - 1])
  {
    var n := |acts| - 1;
    assert acts == acts[..n] + [acts[n]];
    RunConcat(x, acts[..n], [acts[n]]);
    var y := Run(x, acts[..n]);
    StepKeepsSane(y, acts[n]);
    assert [acts[n]][1..] == [];
  }

  /**
   What poll() last said about output for the contents of cell q, from the history alone: a delete moves
   later cells down by one, an add takes a cell as it is found, and before any poll() it is the memory.
   */
  ghost function Reported(x: World, acts: seq<Action>, q: nat): bool
    requires Sane(x)
    decreases |acts|
  {
    if acts == [] then q < |x.w.slots| && x.w.slots[q].revents.pollOut
    else
      var n := |acts| - 1;
      var y := Run(x, acts[..n]);
      if !Live(y) then Reported(x, acts[..n], q)
      else match acts[n]
        case Poll(rs) => if q < y.w.active && q < |rs| then rs[q].pollOut else Reported(x, acts[..n], q)
        case Manage(Delete(fd)) =>
          var names := Names(y.w.fdList);
          if fd in names[2..] && IndexOf(names, fd) <= q < y.w.active - 1
          then Reported(x, acts[..n], q + 1) else Reported(x, acts[..n], q)
        case _ => Reported(x, acts[..n], q)
  }

  ghost function Flag(w: State, q: nat): bool {
    q < |w.slots| && w.slots[q].revents.pollOut
  }

  /** A listed descriptor that is not among the first two is deleted at its position. */
  lemma DeleteBehindPipes(w: State, fd: int)
    requires Consistent(w) && fd in Names(w.fdList)[2..]
    ensures var p := IndexOf(Names(w.fdList), fd);
            && 2 <= p < |w.fdList| == w.active
            && HandleDelete(w, fd) ==
               State(CloseGap(w.slots, p, w.active), w.active - 1, RemoveAt(w.fdList, p), w.pending)
  {
    var names := Names(w.fdList);
    var i := IndexOf(names[2..], fd);
    assert names[2 + i] == fd;
    IndexUnique(names, fd, 2 + i);
    assert Polled(w)[0] == names[0] && Polled(w)[1] == names[1];
    DeleteClosesBoth(w, fd);
    assert |names| == |Polled(w)|;
  }

  lemma GapMovesFlags(w: State, p: nat, q: nat)
    requires p < w.active <= |w.slots| && p < |w.fdList|
    ensures Flag(State(CloseGap(w.slots, p, w.active), w.active - 1, RemoveAt(w.fdList, p), w.pending), q)
         == if p <= q < w.active - 1 then Flag(w, q + 1) else Flag(w, q)
  {
  }

  lemma DeleteMovesFlags(w: State, fd: int, q: nat)
    requires Consistent(w)
    ensures var names := Names(w.fdList);
            Flag(HandleDelete(w, fd), q) ==
            if fd in names[2..] && IndexOf(names, fd) <= q < w.active - 1 then Flag(w, q + 1) else Flag(w, q)
  {
    if fd in Names(w.fdList)[2..] {
      DeleteBehindPipes(w, fd);
      GapMovesFlags(w, IndexOf(Names(w.fdList), fd), q);
    } else {
      DeleteElsewhere(w, fd);
    }
  }

  lemma StepFlags(x: World, a: Action, q: nat)
    requires Live(x) && Consistent(x.w)
    ensures Flag(Step(x, a).w, q) ==
            match a
            case Poll(rs) => if q < x.w.active && q < |rs| then q < |x.w.slots| && rs[q].pollOut else Flag(x.w, q)
            case Manage(Delete(fd)) =>
              (var names := Names(x.w.fdList);
               if fd in names[2..] && IndexOf(names, fd) <= q < x.w.active - 1 then Flag(x.w, q + 1) else Flag(x.w, q))
            case _ => Flag(x.w, q)
  {
    match a
    case Manage(Delete(fd)) => DeleteMovesFlags(x.w, fd, q);
    case Manage(r) => AddWrites(x.w, r);
    case _ =>
  }

  /** The flag a visit tests is what poll() last said, over every run. */
  lemma {:induction false} FlagsAreReported(x: World, acts: seq<Action>, q: nat)
    requires Sane(x)
    ensures Flag(Run(x, acts).w, q) == Reported(x, acts, q)
    decreases |acts|
  {
    if acts != [] {
      var n := |acts| - 1;
      var y := Run(x, acts[..n]);
      RunLast(x, acts);
      FlagsAreReported(x, acts[..n], q);
      FlagsAreReported(x, acts[..n], q + 1);
      if Live(y) {
        StepFlags(y, acts[n], q);
      }
    }
  }

  /** Only a visit logs a send, and only of the entry it visits, whose slot is flagged. */
  lemma SendNeedsFlag(x: World, a: Action)
    requires Live(x) && Consistent(x.w)
    requires |Step(x, a).log| > |x.log| && Step(x, a).log[|x.log|].Sent?
    ensures a.Visit? && a.position < |x.w.fdList|
    ensures var e := x.w.fdList[a.position];
            Step(x, a).log[|x.log|].fd == e.fd && e.canSend && Flag(x.w, e.slot) && x.w.slots[e.slot].events.pollOut
  {
  }

  /** Every send of every run, the one by which a run grows: poll() last reported its slot writable. */
  lemma EverySendWasReported(x: World, acts: seq<Action>, a: Action)
    requires Sane(x)
    requires var y := Run(x, acts); |Step(y, a).log| > |y.log| && Step(y, a).log[|y.log|].Sent?
    ensures var y := Run(x, acts);
            && a.Visit? && a.position < |y.w.fdList|
            && Step(y, a).log[|y.log|].fd == y.w.fdList[a.position].fd
            && Reported(x, acts, y.w.fdList[a.position].slot)
  {
    var y := Run(x, acts);
    SendNeedsFlag(y, a);
    FlagsAreReported(x, acts, y.w.fdList[a.position].slot);
  }

  // ---------------------------------------------------------------------------------------------
  // Memory that was never polled
  // ---------------------------------------------------------------------------------------------

  ghost predicate Polls(acts: seq<Action>) {
    exists i :: 0 <= i < |acts| && acts[i].Poll?
  }

  ghost predicate SentAny(log: seq<Event>) {
    exists i :: 0 <= i < |log| && log[i].Sent?
  }

  /** No run sends before its first poll(). */
  ghost predicate NeverUnpolled(x: World)
    requires Sane(x)
  {
    forall acts :: SentAny(Run(x, acts).log) ==> Polls(acts)
  }

  /** The cells behind the two pipes carry no flag left over from other uses of the memory. */
  ghost predicate CleanFrom(slots: seq<Slot>, n: nat) {
    forall q :: n <= q < |slots| ==> !slots[q].revents.pollOut
  }

  lemma {:induction false} UnpolledIsUnflagged(x: World, acts: seq<Action>, q: nat)
    requires Sane(x) && CleanFrom(x.w.slots, 2) && !Polls(acts) && q >= 2
    ensures !Reported(x, acts, q)
    decreases |acts|
  {
    if acts != [] {
      var n := |acts| - 1;
      assert !Polls(acts[..n]) by {
        assert forall i :: 0 <= i < n ==> acts[..n][i] == acts[i];
      }
      assert !acts[n].Poll?;
      UnpolledIsUnflagged(x, acts[..n], q);
      UnpolledIsUnflagged(x, acts[..n], q + 1);
    }
  }

  lemma StepLogs(x: World, a: Action)
    requires Sane(x)
    ensures |Step(x, a).log| <= |x.log| + 1 && |x.log| <= |Step(x, a).log| && Step(x, a).log[..|x.log|] == x.log
  {
  }

  lemma {:induction false} CleanMemoryWaits(x: World, acts: seq<Action>)
    requires Sane(x) && CleanFrom(x.w.slots, 2) && !Polls(acts) && !SentAny(x.log) && PipesDoNotSend(x.w)
    ensures !SentAny(Run(x, acts).log) && PipesDoNotSend(Run(x, acts).w)
    decreases |acts|
  {
    if acts != [] {
      var n := |acts| - 1;
      var y := Run(x, acts[..n]);
      assert !Polls(acts[..n]) by {
        assert forall i :: 0 <= i < n ==> acts[..n][i] == acts[i];
      }
      CleanMemoryWaits(x, acts[..n]);
      RunLast(x, acts);
      StepKeepsPipesSilent(y, acts[n]);
      StepLogs(y, acts[n]);
      var log := Step(y, acts[n]).log;
      if |log| > |y.log| && log[|y.log|].Sent? {
        EverySendWasReported(x, acts[..n], acts[n]);
        SendNeedsFlag(y, acts[n]);
        UnpolledIsUnflagged(x, acts[..n], y.w.fdList[acts[n].position].slot);
      }
      forall i | 0 <= i < |log| ensures !log[i].Sent? {
        if i < |y.log| {
          assert log[..|y.log|][i] == log[i];
        }
      }
    }
  }

  ghost predicate PipesDoNotSend(w: State) {
    forall i :: 0 <= i < 2 && i < |w.fdList| ==> !w.fdList[i].canSend
  }

  lemma StepKeepsPipesSilent(x: World, a: Action)
    requires Sane(x) && PipesDoNotSend(x.w)
    ensures PipesDoNotSend(Step(x, a).w)
  {
    if Live(x) && a.Manage? && a.request.Delete? {
      var w, fd := x.w, a.request.fd;
      if fd in Names(w.fdList)[2..] {
        DeleteBehindPipes(w, fd);
      } else {
        DeleteElsewhere(w, fd);
      }
    }
  }

  /** n more sockets, without any poll(): the cells behind them are as they were in memory. */
  lemma {:induction false} GrowQuietly(x: World, n: nat) returns (acts: seq<Action>)
    requires Live(x) && Consistent(x.w) && NoDrift(x.w) && x.w.active + n <= |x.w.slots|
    ensures !Polls(acts)
    ensures var y := Run(x, acts);
            && Live(y) && Consistent(y.w) && NoDrift(y.w) && y.w.active == x.w.active + n
            && |y.w.slots| == |x.w.slots| && (forall q :: 0 <= q < |x.w.slots| ==> y.w.slots[q].revents == x.w.slots[q].revents)
            && (n > 0 ==> y.w.fdList[y.w.active - 1].canSend)
  {
    acts := [];
    if n > 0 {
      var before := GrowQuietly(x, n - 1);
      var y := Run(x, before);
      var r := Add(Above(Names(y.w.fdList)), Socket, true, true);
      acts := before + [Manage(r)];
      assert acts[..|acts| - 1] == before;
      RunLast(x, acts);
      AddKeepsConsistent(y.w, r);
      AddWrites(y.w, r);
      assert |Names(y.w.fdList)| == |Polled(y.w)|;
    }
  }

  lemma StoreAndVisit(x: World) returns (acts: seq<Action>)
    requires Live(x) && Consistent(x.w) && NoDrift(x.w) && x.w.active > 2
    requires x.w.fdList[x.w.active - 1].canSend && x.w.slots[x.w.active - 1].revents.pollOut
    ensures !Polls(acts) && SentAny(Run(x, acts).log)
  {
    var q := x.w.active - 1;
    var fd := x.w.fdList[q].fd;
    assert Names(x.w.fdList)[q] == fd == Polled(x.w)[q] == x.w.slots[q].fd;
    IndexUnique(Names(x.w.fdList), fd, q);
    acts := [Store(fd, []), Visit(q)];
    var y := Step(x, Store(fd, []));
    StepKeepsSane(x, Store(fd, []));
    RunLast(x, acts);
    assert acts[..1] == [Store(fd, [])] && [Store(fd, [])][1..] == [];
    assert Run(x, acts[..1]) == y;
    var log := Step(y, Visit(q)).log;
    assert log[|log| - 1] == Sent(fd, []);
  }

  /**
   A worker never sends before its first poll() exactly when the memory of its array is clean, because an
   add takes its cell as it is found.
   */
  lemma NeverUnpolledIff(memory: seq<Slot>, primary: int, data: int)
    requires primary != data
    ensures Sane(Boot(memory, primary, data))
    ensures NeverUnpolled(Boot(memory, primary, data)) <==> CleanFrom(memory, 2)
  {
    var x := Boot(memory, primary, data);
    BootInv(memory, primary, data);
    BootMemory(memory, primary, data);
    if CleanFrom(memory, 2) {
      forall acts | SentAny(Run(x, acts).log) ensures Polls(acts) {
        if !Polls(acts) {
          CleanMemoryWaits(x, acts);
        }
      }
    } else {
      var q :| 2 <= q < |memory| && memory[q].revents.pollOut;
      var a := GrowQuietly(x, q - 1);
      var b := StoreAndVisit(Run(x, a));
      RunConcat(x, a, b);
      assert !Polls(a + b);
      assert SentAny(Run(x, a + b).log);
    }
  }

  lemma BootMemory(memory: seq<Slot>, primary: int, data: int)
    requires primary != data
    ensures var x := Boot(memory, primary, data);
            && PipesDoNotSend(x.w) && x.w.active == 2 && !SentAny(x.log)
            && (CleanFrom(memory, 2) ==> CleanFrom(x.w.slots, 2))
            && (|memory| > 2 ==> |x.w.slots| == |memory| && forall q :: 2 <= q < |memory| ==> x.w.slots[q] == memory[q])
  {
  }

  // ---------------------------------------------------------------------------------------------
  // Input is asked for as requested, and heard by its own entry
  // ---------------------------------------------------------------------------------------------

  /** The latest effective add of every descriptor, from the history of the run. */
  ghost function AddsOf(x: World, origin: map<int, Request>, acts: seq<Action>): map<int, Request>
    requires Sane(x)
    decreases |acts|
  {
    if acts == [] then origin else
      var n := |acts| - 1;
      var y, before := Run(x, acts[..n]), AddsOf(x, origin, acts[..n]);
      match acts[n]
      case Manage(Add(fd, kind, pollIn, canSend)) =>
        if Live(y) && fd !in Names(y.w.fdList) then before[fd := Add(fd, kind, pollIn, canSend)] else before
      case _ => before
  }

  /** Parking, arming, polling and visiting change no interest in input. */
  lemma OtherAsAdded(x: World, origin: map<int, Request>, a: Action)
    requires Live(x) && Consistent(x.w) && AsAdded(x.w, origin) && !a.Manage?
    ensures AsAdded(Step(x, a).w, origin)
  {
    var w, w' := x.w, Step(x, a).w;
    assert w'.fdList == w.fdList && |w'.slots| == |w.slots|;
    forall i | 0 <= i < |w.fdList|
      ensures w'.slots[i].fd == w.slots[i].fd && w'.slots[i].events.pollIn == w.slots[i].events.pollIn
    {
    }
  }

  /** Over every run each slot asks for input as the latest add of its descriptor did. */
  lemma {:induction false} RunAsAdded(x: World, origin: map<int, Request>, acts: seq<Action>)
    requires Live(x) && Consistent(x.w) && AsAdded(x.w, origin) && Live(Run(x, acts))
    ensures AsAdded(Run(x, acts).w, AddsOf(x, origin, acts))
    decreases |acts|
  {
    if acts != [] {
      var n := |acts| - 1;
      var y, before := Run(x, acts[..n]), AddsOf(x, origin, acts[..n]);
      RunLast(x, acts);
      RunAsAdded(x, origin, acts[..n]);
      match acts[n]
      case Manage(Delete(fd)) => DeleteAsAdded(y.w, before, fd);
      case Manage(r) => AddAsAdded(y.w, before, r);
      case _ => OtherAsAdded(y, before, acts[n]);
    }
  }

  /** poll_fd_process, lines 395-405: the entry's input function is called. */
  predicate Hears(w: State, i: nat)
    requires i < |w.fdList| && w.fdList[i].slot < |w.slots|
  {
    var s := w.slots[w.fdList[i].slot];
    s.revents.pollIn && s.events.pollIn
  }

  /** Without drift, input reported for a descriptor is heard by its entry exactly when its add asked for it. */
  lemma InputIsHeard(x: World, origin: map<int, Request>, acts: seq<Action>, rs: seq<Flags>, i: nat)
    requires Live(x) && Consistent(x.w) && AsAdded(x.w, origin) && Live(Run(x, acts))
    requires NoDrift(Run(x, acts).w) && i < |Run(x, acts).w.fdList| && i < |rs|
    ensures var y := Run(x, acts); var w := Step(y, Poll(rs)).w; var fd := y.w.fdList[i].fd;
            && i < |w.fdList| && w.fdList[i].slot < |w.slots| && fd in AddsOf(x, origin, acts)
            && AddsOf(x, origin, acts)[fd].Add?
            && (Hears(w, i) <==> rs[i].pollIn && AddsOf(x, origin, acts)[fd].pollIn)
  {
    RunAsAdded(x, origin, acts);
    var y := Run(x, acts);
    assert |Names(y.w.fdList)| == |Polled(y.w)|;
  }
}
