/**
 The polling worker of one poll thread (src/cc_pollthr_mgr.c): the effect of each handler on the
 thread-private data. `slots` is the whole memory of pollfd_arr, of which the first `active` entries
 are polled; an entry of `fdList` refers to its slot by the index it was given when it was added.
 */
module Worker {
  import opened Lists

  datatype Kind = Pipe | Socket

  /** The two poll flags the worker looks at, in either `events` or `revents`. */
  datatype Flags = Flags(pollIn: bool, pollOut: bool)

  datatype Slot = Slot(fd: int, events: Flags, revents: Flags)

  /** `canSend` says whether a pollout function was registered with the descriptor. */
  datatype Entry = Entry(fd: int, kind: Kind, canSend: bool, slot: nat)

  newtype Byte = x: int | 0 <= x < 256
  type Packet = seq<Byte>

  datatype State = State(slots: seq<Slot>, active: nat, fdList: seq<Entry>, pending: map<int, Packet>)

  datatype Request =
    | Add(fd: int, kind: Kind, pollIn: bool, canSend: bool)
    | Delete(fd: int)

  function Names(l: seq<Entry>): (r: seq<int>)
    ensures |r| == |l|
  {
    seq(|l|, i requires 0 <= i < |l| => l[i].fd)
  }

  /** The descriptors handed to poll(), in slot order. */
  function Polled(w: State): (r: seq<int>)
    requires w.active <= |w.slots|
    ensures |r| == w.active
  {
    seq(w.active, i requires 0 <= i < w.active => w.slots[i].fd)
  }

  // ---------------------------------------------------------------------------------------------
  // Handlers
  // ---------------------------------------------------------------------------------------------

  /** Store into slot n of the array memory; slot |slots| models memory not looked at before. */
  function Put(slots: seq<Slot>, n: nat, v: Slot): (r: seq<Slot>)
    requires n <= |slots|
    ensures |slots| <= |r| && n < |r| && r[n] == v
    ensures forall i :: 0 <= i < |slots| && i != n ==> r[i] == slots[i]
  {
    if n < |slots| then slots[n := v] else slots + [v]
  }

  /** ADD_FD: `revents` of the new slot is whatever the memory held; POLLOUT starts cleared. */
  function HandleAdd(w: State, r: Request): State
    requires r.Add? && w.active <= |w.slots|
  {
    var stale := if w.active < |w.slots| then w.slots[w.active].revents else Flags(false, false);
    State(Put(w.slots, w.active, Slot(r.fd, Flags(r.pollIn, false), stale)),
          w.active + 1,
          w.fdList + [Entry(r.fd, r.kind, r.canSend, w.active)],
          w.pending)
  }

  /** The new slot asks for input as requested and never for output; nothing else is written. */
  lemma AddWrites(w: State, r: Request)
    requires r.Add? && w.active <= |w.slots|
    ensures var w' := HandleAdd(w, r);
            && w'.active == w.active + 1 <= |w'.slots| && |w.slots| <= |w'.slots| && w'.pending == w.pending
            && w'.slots[w.active].fd == r.fd
            && w'.slots[w.active].events.pollIn == r.pollIn && !w'.slots[w.active].events.pollOut
            && (w.active < |w.slots| ==> w'.slots[w.active].revents == w.slots[w.active].revents)
            && (forall i :: 0 <= i < |w.slots| && i != w.active ==> w'.slots[i] == w.slots[i])
            && w'.fdList == w.fdList + [Entry(r.fd, r.kind, r.canSend, w.active)]
  {
  }

  /** Slots i+1..n move down by one; slot n-1 keeps its old contents. */
  function CloseGap(slots: seq<Slot>, i: nat, n: nat): (r: seq<Slot>)
    requires i < n <= |slots|
    ensures |r| == |slots|
    ensures forall k :: 0 <= k < |slots| ==> r[k] == if i <= k < n - 1 then slots[k + 1] else slots[k]
  {
    slots[..i] + slots[i + 1..n] + slots[n - 1..]
  }

  function DropEntry(l: seq<Entry>, fd: int): seq<Entry> {
    if fd in Names(l) then RemoveAt(l, IndexOf(Names(l), fd)) else l
  }

  /** DELETE_FD: deleting a descriptor of slot 0 or 1 stops the worker, a missing one is ignored. */
  function HandleDelete(w: State, fd: int): State
    requires w.active <= |w.slots|
  {
    if (|w.slots| > 0 && fd == w.slots[0].fd) || (|w.slots| > 1 && fd == w.slots[1].fd) then
      w.(active := 0)
    else if w.active > 0 && fd in Polled(w)[1..] then
      var i := 1 + IndexOf(Polled(w)[1..], fd);
      State(CloseGap(w.slots, i, w.active), w.active - 1, DropEntry(w.fdList, fd), w.pending)
    else
      w
  }

  /** The worker leaves its loop once nothing is polled. */
  predicate Running(w: State) {
    w.active > 0
  }

  function Start(memory: seq<Slot>, primary: int, data: int): State {
    var idle := State(memory, 0, [], map[]);
    HandleAdd(HandleAdd(idle, Add(primary, Pipe, true, false)), Add(data, Pipe, true, false))
  }

  // ---------------------------------------------------------------------------------------------
  // fd_list and pollfd_arr agree
  // ---------------------------------------------------------------------------------------------

  /** Same distinct descriptors in the same order; the two administrative entries own slots 0 and 1. */
  ghost predicate Consistent(w: State) {
    && 2 <= w.active <= |w.slots|
    && Polled(w) == Names(w.fdList)
    && NoDup(Names(w.fdList))
    && (forall i :: 0 <= i < |w.fdList| ==> i <= w.fdList[i].slot < |w.slots|)
    && w.fdList[0].slot == 0 && w.fdList[1].slot == 1
  }

  lemma StartConsistent(memory: seq<Slot>, primary: int, data: int)
    requires primary != data
    ensures Consistent(Start(memory, primary, data))
    ensures Names(Start(memory, primary, data).fdList) == [primary, data]
  {
  }

  lemma AddKeepsConsistent(w: State, r: Request)
    requires Consistent(w) && r.Add? && r.fd !in Names(w.fdList)
    ensures Consistent(HandleAdd(w, r))
    ensures Names(HandleAdd(w, r).fdList) == Names(w.fdList) + [r.fd]
  {
    var w' := HandleAdd(w, r);
    assert Names(w'.fdList) == Names(w.fdList) + [r.fd];
    assert forall i :: 0 <= i < w.active ==> w'.slots[i].fd == Polled(w)[i];
    assert Polled(w') == Polled(w) + [r.fd];
  }

  /** Where a registered descriptor that is not administrative sits, in both lists. */
  lemma DeletePosition(w: State, fd: int)
    requires Consistent(w) && fd in Names(w.fdList)
    requires fd != w.slots[0].fd && fd != w.slots[1].fd
    ensures 2 <= IndexOf(Names(w.fdList), fd)
    ensures fd in Polled(w)[1..]
    ensures 1 + IndexOf(Polled(w)[1..], fd) == IndexOf(Names(w.fdList), fd)
  {
    var p := IndexOf(Names(w.fdList), fd);
    assert Polled(w)[0] == w.slots[0].fd && Polled(w)[1] == w.slots[1].fd;
    assert Polled(w)[1..][p - 1] == fd;
    IndexUnique(Polled(w)[1..], fd, p - 1);
  }

  lemma NamesRemoveAt(l: seq<Entry>, p: nat)
    requires p < |l|
    ensures Names(RemoveAt(l, p)) == RemoveAt(Names(l), p)
  {
  }

  lemma PolledCloseGap(w: State, p: nat)
    requires p < w.active <= |w.slots|
    ensures Polled(State(CloseGap(w.slots, p, w.active), w.active - 1, w.fdList, w.pending)) == RemoveAt(Polled(w), p)
  {
  }

  /** Both lists lose exactly the entry at the descriptor's position. */
  lemma DeleteClosesBoth(w: State, fd: int)
    requires Consistent(w) && fd in Names(w.fdList) && Running(HandleDelete(w, fd))
    ensures var p := IndexOf(Names(w.fdList), fd);
            && 2 <= p < |w.fdList|
            && HandleDelete(w, fd) ==
               State(CloseGap(w.slots, p, w.active), w.active - 1, RemoveAt(w.fdList, p), w.pending)
  {
    DeletePosition(w, fd);
  }

  lemma DeleteKeepsConsistent(w: State, fd: int)
    requires Consistent(w) && Running(HandleDelete(w, fd))
    ensures Consistent(HandleDelete(w, fd))
    ensures Names(HandleDelete(w, fd).fdList) == Remove(Names(w.fdList), fd)
  {
    if fd in Names(w.fdList) {
      DeleteClosesBoth(w, fd);
      RemoveKeeps(Names(w.fdList), fd);
      var w', p := HandleDelete(w, fd), IndexOf(Names(w.fdList), fd);
      NamesRemoveAt(w.fdList, p);
      PolledCloseGap(w, p);
      forall i | 0 <= i < |w'.fdList| ensures i <= w'.fdList[i].slot < |w'.slots| {
        assert w'.fdList[i] == w.fdList[if i < p then i else i + 1];
      }
    }
  }

  /** A delete of anything but a listed descriptor behind the pipes: the worker stops, or nothing happens. */
  lemma DeleteElsewhere(w: State, fd: int)
    requires Consistent(w) && fd !in Names(w.fdList)[2..]
    ensures HandleDelete(w, fd) == if fd in Names(w.fdList) then w.(active := 0) else w
  {
    var names := Names(w.fdList);
    assert Polled(w)[0] == names[0] && Polled(w)[1] == names[1];
    assert names == [names[0], names[1]] + names[2..];
    assert fd in Polled(w)[1..] ==> fd in names;
  }

  // ---------------------------------------------------------------------------------------------
  // Request histories and slot drift
  // ---------------------------------------------------------------------------------------------

  /** One request. Adding a listed descriptor trips the assertion at line 518 and is no step. */
  function Apply(w: State, r: Request): State
    requires w.active <= |w.slots|
  {
    if !Running(w) then w
    else if r.Delete? then HandleDelete(w, r.fd)
    else if r.fd in Names(w.fdList) then w
    else HandleAdd(w, r)
  }

  function Replay(w0: State, rs: seq<Request>): (w: State)
    requires w0.active <= |w0.slots|
    ensures w.active <= |w.slots|
  {
    if rs == [] then w0 else Apply(Replay(w0, rs[..|rs| - 1]), rs[|rs| - 1])
  }

  /** After every completed request of every history the two lists agree. */
  lemma {:induction false} HistoryKeepsConsistent(w0: State, rs: seq<Request>)
    requires Consistent(w0) && Running(Replay(w0, rs))
    ensures Consistent(Replay(w0, rs))
  {
    if rs != [] {
      var n := |rs| - 1;
      var w := Replay(w0, rs[..n]);
      HistoryKeepsConsistent(w0, rs[..n]);
      match rs[n]
      case Delete(fd) => DeleteKeepsConsistent(w, fd);
      case Add(fd, _, _, _) => if fd !in Names(w.fdList) { AddKeepsConsistent(w, rs[n]); }
    }
  }

  /**
   How many entries ahead of fd were deleted since fd was last added: counted from the history of
   lists alone, without looking at any slot.
   */
  ghost function EarlierDeletes(w0: State, rs: seq<Request>, fd: int): nat
    requires w0.active <= |w0.slots|
  {
    if rs == [] then 0 else
      var n := |rs| - 1;
      var names := Names(Replay(w0, rs[..n]).fdList);
      match rs[n]
      case Add(f, _, _, _) =>
        if f == fd && fd !in names then 0 else EarlierDeletes(w0, rs[..n], fd)
      case Delete(f) =>
        if f in names && fd in names && IndexOf(names, f) < IndexOf(names, fd)
        then 1 + EarlierDeletes(w0, rs[..n], fd)
        else EarlierDeletes(w0, rs[..n], fd)
  }

  /** Every entry still owns the slot at its own position. */
  ghost predicate NoDrift(w: State) {
    forall i :: 0 <= i < |w.fdList| ==> w.fdList[i].slot == i
  }

  /** Compaction moves the slot of a later entry together with it, flags included. */
  lemma SlotsTravel(w: State, f: int, i: nat)
    requires Consistent(w) && f in Names(w.fdList) && Running(HandleDelete(w, f)) && i < w.active - 1
    ensures var j := if i < IndexOf(Names(w.fdList), f) then i else i + 1;
            && HandleDelete(w, f).active == w.active - 1 == |HandleDelete(w, f).fdList|
            && HandleDelete(w, f).fdList[i] == w.fdList[j] && HandleDelete(w, f).slots[i] == w.slots[j]
  {
    DeleteClosesBoth(w, f);
  }

  /** Where the entry at position i stood before a delete. */
  lemma BeforeDelete(w: State, f: int, i: nat) returns (j: nat)
    requires Consistent(w) && Running(HandleDelete(w, f)) && i < |HandleDelete(w, f).fdList|
    ensures j < |w.fdList| && HandleDelete(w, f).fdList[i] == w.fdList[j]
    ensures var names := Names(w.fdList);
            && names[j] == w.fdList[j].fd && IndexOf(names, names[j]) == j
            && j == i + if f in names && IndexOf(names, f) < j then 1 else 0
  {
    var names := Names(w.fdList);
    j := i;
    if f in names {
      DeleteClosesBoth(w, f);
      j := if i < IndexOf(names, f) then i else i + 1;
    }
    IndexUnique(names, names[j], j);
  }

  /** The slot reference equals the list position plus the earlier deletes, for every history. */
  lemma {:induction false} SlotIsPositionPlusDrift(w0: State, rs: seq<Request>, i: nat)
    requires Consistent(w0) && NoDrift(w0) && Running(Replay(w0, rs))
    requires i < |Replay(w0, rs).fdList|
    ensures var e := Replay(w0, rs).fdList[i]; e.slot == i + EarlierDeletes(w0, rs, e.fd)
  {
    if rs != [] {
      var n := |rs| - 1;
      var w, w' := Replay(w0, rs[..n]), Replay(w0, rs);
      var fd, names := w'.fdList[i].fd, Names(w.fdList);
      HistoryKeepsConsistent(w0, rs[..n]);
      match rs[n]
      case Add(f, _, _, _) =>
        if f in names || i < |w.fdList| {
          assert names[i] == fd;
          SlotIsPositionPlusDrift(w0, rs[..n], i);
        } else {
          assert fd == f;
        }
      case Delete(f) =>
        var j := BeforeDelete(w, f, i);
        SlotIsPositionPlusDrift(w0, rs[..n], j);
    }
  }

  /** The entry at position i refers to a polled slot that holds its own descriptor. */
  predicate OwnsSlot(w: State, i: nat)
    requires w.active <= |w.slots| && i < |w.fdList|
  {
    w.fdList[i].slot < w.active && w.slots[w.fdList[i].slot].fd == w.fdList[i].fd
  }

  lemma OwnSlotIffInPlace(w: State, i: nat)
    requires Consistent(w) && i < |w.fdList|
    ensures OwnsSlot(w, i) <==> w.fdList[i].slot == i
    ensures i < 2 ==> OwnsSlot(w, i)
  {
    var e := w.fdList[i];
    assert Polled(w)[i] == Names(w.fdList)[i] == e.fd;
    if e.slot < w.active {
      assert Polled(w)[e.slot] == w.slots[e.slot].fd;
    }
  }

  /** An entry owns its slot exactly when it has not drifted; the administrative two never drift. */
  lemma OwnSlotIffNoDrift(w0: State, rs: seq<Request>, i: nat)
    requires Consistent(w0) && NoDrift(w0) && Running(Replay(w0, rs))
    requires i < |Replay(w0, rs).fdList|
    ensures OwnsSlot(Replay(w0, rs), i) <==> EarlierDeletes(w0, rs, Replay(w0, rs).fdList[i].fd) == 0
    ensures i < 2 ==> OwnsSlot(Replay(w0, rs), i)
  {
    SlotIsPositionPlusDrift(w0, rs, i);
    HistoryKeepsConsistent(w0, rs);
    OwnSlotIffInPlace(Replay(w0, rs), i);
  }

  /** Every delete that took effect removed the most recently added descriptor still listed. */
  ghost predicate LastOut(w0: State, rs: seq<Request>)
    requires w0.active <= |w0.slots|
  {
    var n := |rs| - 1;
    rs == [] || (LastOutAt(Replay(w0, rs[..n]), rs[n]) && LastOut(w0, rs[..n]))
  }

  ghost predicate LastOutAt(w: State, r: Request) {
    var names := Names(w.fdList);
    r.Delete? && r.fd in names ==> IndexOf(names, r.fd) == |names| - 1
  }

  /** No entry has drifted after any prefix of the history. */
  ghost predicate NeverDrifts(w0: State, rs: seq<Request>)
    requires w0.active <= |w0.slots|
  {
    NoDrift(Replay(w0, rs)) && (rs == [] || NeverDrifts(w0, rs[..|rs| - 1]))
  }

  lemma RequestKeepsNoDriftIff(w: State, r: Request)
    requires Consistent(w) && NoDrift(w) && Running(Apply(w, r))
    ensures NoDrift(Apply(w, r)) <==> LastOutAt(w, r)
  {
    if r.Delete? && r.fd in Names(w.fdList) {
      DeletePosition(w, r.fd);
      var p := IndexOf(Names(w.fdList), r.fd);
      if p < |w.fdList| - 1 {
        assert Apply(w, r).fdList[p] == w.fdList[p + 1];
      }
    }
  }

  /** A history is free of drift throughout exactly when deletes happen in reverse order of adds. */
  lemma {:induction false} NeverDriftsIffLastOut(w0: State, rs: seq<Request>)
    requires Consistent(w0) && NoDrift(w0) && Running(Replay(w0, rs))
    ensures NeverDrifts(w0, rs) <==> LastOut(w0, rs)
  {
    if rs != [] {
      var n := |rs| - 1;
      var w := Replay(w0, rs[..n]);
      NeverDriftsIffLastOut(w0, rs[..n]);
      HistoryKeepsConsistent(w0, rs[..n]);
      if NoDrift(w) {
        RequestKeepsNoDriftIff(w, rs[n]);
      }
    }
  }

  // ---------------------------------------------------------------------------------------------
  // Entries keep what they were added with
  // ---------------------------------------------------------------------------------------------

  /** Entry by entry: kind, send function and interest in input are those of the request it came from. */
  ghost predicate AsAdded(w: State, origin: map<int, Request>) {
    && |w.fdList| <= |w.slots|
    && forall i :: 0 <= i < |w.fdList| ==>
         && w.fdList[i].fd in origin && origin[w.fdList[i].fd].Add?
         && var r := origin[w.fdList[i].fd];
            && w.fdList[i].kind == r.kind && w.fdList[i].canSend == r.canSend
            && w.slots[i].fd == r.fd == w.fdList[i].fd && w.slots[i].events.pollIn == r.pollIn
  }

  /** The latest effective add of every descriptor, from the history of requests. */
  ghost function LatestAdds(w0: State, origin: map<int, Request>, rs: seq<Request>): map<int, Request>
    requires w0.active <= |w0.slots|
  {
    if rs == [] then origin else
      var n := |rs| - 1;
      var w := Replay(w0, rs[..n]);
      var before := LatestAdds(w0, origin, rs[..n]);
      if rs[n].Add? && Running(w) && rs[n].fd !in Names(w.fdList) then before[rs[n].fd := rs[n]] else before
  }

  lemma StartAsAdded(memory: seq<Slot>, primary: int, data: int)
    requires primary != data
    ensures AsAdded(Start(memory, primary, data),
                    map[primary := Add(primary, Pipe, true, false), data := Add(data, Pipe, true, false)])
    ensures !Start(memory, primary, data).slots[0].events.pollOut && !Start(memory, primary, data).slots[1].events.pollOut
    ensures Start(memory, primary, data).pending == map[]
  {
  }

  lemma AddAsAdded(w: State, origin: map<int, Request>, r: Request)
    requires Consistent(w) && AsAdded(w, origin) && r.Add? && r.fd !in Names(w.fdList)
    ensures AsAdded(HandleAdd(w, r), origin[r.fd := r])
  {
    AddWrites(w, r);
    AddKeepsConsistent(w, r);
    var w' := HandleAdd(w, r);
    assert |w.fdList| == |Names(w.fdList)| == |Polled(w)| == w.active;
    forall i | 0 <= i < |w.fdList| ensures w'.fdList[i] == w.fdList[i] && w.fdList[i].fd != r.fd {
      assert Names(w.fdList)[i] == w.fdList[i].fd;
    }
  }

  lemma DeleteAsAdded(w: State, origin: map<int, Request>, fd: int)
    requires Consistent(w) && AsAdded(w, origin) && Running(HandleDelete(w, fd))
    ensures AsAdded(HandleDelete(w, fd), origin)
  {
    if fd in Names(w.fdList) {
      DeleteClosesBoth(w, fd);
      var w' := HandleDelete(w, fd);
      assert |w.fdList| == |Names(w.fdList)| == |Polled(w)| == w.active;
      forall i | 0 <= i < |w'.fdList|
        ensures var j := if i < IndexOf(Names(w.fdList), fd) then i else i + 1;
                w'.fdList[i] == w.fdList[j] && w'.slots[i] == w.slots[j]
      {
        SlotsTravel(w, fd, i);
      }
    } else {
      DeleteElsewhere(w, fd);
    }
  }

  /** After every history each slot asks for input as the latest add of its descriptor did. */
  lemma {:induction false} HistoryAsAdded(w0: State, origin: map<int, Request>, rs: seq<Request>)
    requires Consistent(w0) && AsAdded(w0, origin) && Running(Replay(w0, rs))
    ensures AsAdded(Replay(w0, rs), LatestAdds(w0, origin, rs))
  {
    if rs != [] {
      var n := |rs| - 1;
      var w, before := Replay(w0, rs[..n]), LatestAdds(w0, origin, rs[..n]);
      HistoryAsAdded(w0, origin, rs[..n]);
      HistoryKeepsConsistent(w0, rs[..n]);
      match rs[n]
      case Delete(fd) => DeleteAsAdded(w, before, fd);
      case Add(fd, _, _, _) => if fd !in Names(w.fdList) { AddAsAdded(w, before, rs[n]); }
    }
  }
}
