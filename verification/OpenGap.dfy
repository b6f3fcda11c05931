/**
 The two halves of an open (src/cc_of_util.c:1031-1096): the tables are filled and unlocked at line 1068,
 the worker is told only at line 1092. Any other calls may fall between the two.
 */
module OpenGap {
  import opened Lists
  import opened PollThread
  import opened Tables
  import opened Pool
  import opened Lifecycle
  import Runs

  /** Up to the unlock: the socket is registered with thread k, whose worker has not heard of it. */
  function BeginOpen(role: Role, st: State, s: Fd, d: DevKey, proto: Proto, k: MgrId, key: ChanKey): State {
    st.(t := AddSocket(role, st.t, s, d, proto, k, key).0)
  }

  predicate HasRoom(st: State, k: MgrId) {
    k in st.mgrs && st.mgrs[k].numSockets != MAX_PER_THREAD_RWSOCKETS
  }

  /** The request to the worker; None is the assertion at line 518 of src/cc_pollthr_mgr.c. */
  function FinishOpen(st: State, s: Fd, k: MgrId): Option<State> {
    if !HasRoom(st, k) then Some(st)
    else if s in st.mgrs[k].watched then None
    else Some(st.(mgrs := st.mgrs[k := ManagerAdd(st.mgrs[k], s, MAX_PER_THREAD_RWSOCKETS)]))
  }

  function After(role: Role, st: State, acts: seq<Runs.Action>): State {
    if acts == [] then st else Runs.Step(role, After(role, st, acts[..|acts| - 1]), acts[|acts| - 1])
  }

  /** s stays registered throughout: no close of it falls into the gap. */
  predicate Kept(role: Role, st: State, acts: seq<Runs.Action>, s: Fd) {
    s in After(role, st, acts).t.ofrw && (acts == [] || Kept(role, st, acts[..|acts| - 1], s))
  }

  // ---------------------------------------------------------------------------------------------
  // Workers and tables agree, up to one socket
  // ---------------------------------------------------------------------------------------------

  ghost predicate PoolMatches(st: State) {
    && NoDup(st.pool) && (forall m :: m in st.pool <==> m in st.mgrs)
    && (forall s :: s in st.t.ofrw ==> st.t.ofrw[s].mgr in st.mgrs)
  }

  /** Every worker polls the registered sockets of its manager, except those in `missing`. */
  ghost predicate AgreeBut(st: State, missing: set<int>) {
    && PoolMatches(st)
    && forall m :: m in st.mgrs ==>
         NoDup(st.mgrs[m].watched) && Elems(st.mgrs[m].watched) == Group(st.t, m) - missing
  }

  ghost predicate Agree(st: State) {
    AgreeBut(st, {})
  }

  /** Counters and pool order play no part, so they may be wrong in the gap. */
  lemma InvAgrees(st: State)
    requires Inv(st)
    ensures Agree(st)
  {
    forall m | m in st.mgrs ensures Elems(st.mgrs[m].watched) == Group(st.t, m) - {} {
      assert Counts(st.t, m, st.mgrs[m]);
    }
  }

  lemma GoneIsNotMissing(st: State, s: int)
    requires AgreeBut(st, {s}) && s !in st.t.ofrw
    ensures Agree(st)
  {
    forall m | m in st.mgrs ensures Group(st.t, m) - {s} == Group(st.t, m) - {} {
    }
  }

  lemma SameRows(st: State, st': State, missing: set<int>)
    requires AgreeBut(st, missing) && st'.t.ofrw == st.t.ofrw && st'.pool == st.pool && st'.mgrs == st.mgrs
    ensures AgreeBut(st', missing)
  {
    forall m | m in st.mgrs ensures Group(st'.t, m) == Group(st.t, m) {
    }
  }

  // ---------------------------------------------------------------------------------------------
  // Other calls in the gap
  // ---------------------------------------------------------------------------------------------

  lemma ResortMatches(pool: seq<MgrId>, mgrs: Managers, m: MgrId)
    requires NoDup(pool) && m in pool
    ensures var p := InsertSorted(Remove(pool, m), mgrs, m); NoDup(p) && forall x :: x in p <==> x in pool
  {
    RemoveKeeps(pool, m);
    InsertKeepsNoDup(Remove(pool, m), mgrs, m);
    forall x ensures x in InsertSorted(Remove(pool, m), mgrs, m) <==> x in pool {
      InsertKeepsMembers(Remove(pool, m), mgrs, m, x);
    }
  }

  lemma CloseParts(st: State, s: Fd, m: MgrId)
    requires s in st.t.ofrw && m == st.t.ofrw[s].mgr && m in st.mgrs && m in st.pool
    ensures var mgrs', st' := st.mgrs[m := ManagerDelete(st.mgrs[m], s)], Close(st, s).0;
            && st'.t.ofrw == st.t.ofrw - {s} && st'.mgrs == mgrs'
            && st'.pool == if |st.pool| == 1 then st.pool else InsertSorted(Remove(st.pool, m), mgrs', m)
  {
  }

  lemma CloseShape(st: State, s: Fd)
    requires PoolMatches(st) && s in st.t.ofrw
    ensures var m := st.t.ofrw[s].mgr; var st' := Close(st, s).0;
            && PoolMatches(st') && st'.t.ofrw == st.t.ofrw - {s}
            && m in st.mgrs && st'.mgrs == st.mgrs[m := ManagerDelete(st.mgrs[m], s)]
  {
    var m := st.t.ofrw[s].mgr;
    CloseParts(st, s, m);
    ResortMatches(st.pool, st.mgrs[m := ManagerDelete(st.mgrs[m], s)], m);
    var st' := Close(st, s).0;
    assert forall x :: x in st'.pool <==> x in st.pool;
  }

  lemma GroupLoses(t: Tables, t': Tables, s: int, m: MgrId)
    requires t'.ofrw == t.ofrw - {s}
    ensures Group(t', m) == Group(t, m) - {s}
  {
  }

  lemma CloseKeepsAgree(st: State, s: Fd, missing: set<int>)
    requires AgreeBut(st, missing)
    ensures AgreeBut(Close(st, s).0, missing)
  {
    if s in st.t.ofrw {
      var st', k := Close(st, s).0, st.t.ofrw[s].mgr;
      CloseShape(st, s);
      forall m | m in st'.mgrs
        ensures NoDup(st'.mgrs[m].watched) && Elems(st'.mgrs[m].watched) == Group(st'.t, m) - missing
      {
        GroupLoses(st.t, st'.t, s, m);
        if m == k {
          ElemsRemove(st.mgrs[m].watched, s);
        } else {
          assert s !in Group(st.t, m);
        }
      }
    }
  }

  lemma {:induction false} ClosesKeepAgree(st: State, l: seq<Fd>, missing: set<int>)
    requires AgreeBut(st, missing)
    ensures AgreeBut(CloseAll(st, l), missing)
    decreases |l|
  {
    if l != [] {
      CloseKeepsAgree(st, l[0], missing);
      ClosesKeepAgree(Close(st, l[0]).0, l[1..], missing);
    }
  }

  lemma SpawnAgrees(st: State, m: MgrId, missing: set<int>)
    requires AgreeBut(st, missing) && m !in st.mgrs
    ensures AgreeBut(Spawn(st, m), missing)
  {
    var st' := Spawn(st, m);
    assert forall s: int :: s in st.t.ofrw ==> st.t.ofrw[s].mgr in st.mgrs;
    assert Group(st.t, m) == {};
    forall k | k in st'.mgrs ensures NoDup(st'.mgrs[k].watched) && Elems(st'.mgrs[k].watched) == Group(st'.t, k) - missing {
    }
  }

  /** The walk never stops at a thread that would refuse. */
  lemma FoundTakesOne(st: State)
    requires PoolMatches(st) && Find(st.pool, st.mgrs).Some?
    ensures HasRoom(st, Find(st.pool, st.mgrs).value)
  {
    WalkPasses(st.pool, st.mgrs, 0);
    assert st.pool[Walk(st.pool, st.mgrs, 0)] in st.pool;
  }

  lemma FindOrCreateAgrees(st: State, m: MgrId, spawnOk: bool, missing: set<int>)
    requires AgreeBut(st, missing) && m !in st.mgrs
    ensures var (st1, found) := FindOrCreate(st, m, spawnOk);
            AgreeBut(st1, missing) && st1.t == st.t && (found.Some? ==> HasRoom(st1, found.value))
  {
    if Find(st.pool, st.mgrs).Some? {
      FoundTakesOne(st);
    } else {
      SpawnAgrees(st, m, missing);
    }
  }

  lemma GroupGains(t: Tables, t': Tables, s: int, k: MgrId, m: MgrId)
    requires s !in t.ofrw && s in t'.ofrw && t'.ofrw == t.ofrw[s := t'.ofrw[s]] && t'.ofrw[s].mgr == k
    ensures Group(t', m) == if m == k then Group(t, m) + {s} else Group(t, m)
    ensures s !in Group(t, m)
  {
  }

  /** Table and worker gain s together. */
  lemma BothGain(st: State, t': Tables, s: Fd, k: MgrId, missing: set<int>)
    requires AgreeBut(st, missing) && HasRoom(st, k) && s !in missing
    requires s !in st.t.ofrw && s in t'.ofrw && t'.ofrw == st.t.ofrw[s := t'.ofrw[s]] && t'.ofrw[s].mgr == k
    ensures AgreeBut(State(t', st.pool, st.mgrs[k := ManagerAdd(st.mgrs[k], s, MAX_PER_THREAD_RWSOCKETS)]), missing)
  {
    var mgrs' := st.mgrs[k := ManagerAdd(st.mgrs[k], s, MAX_PER_THREAD_RWSOCKETS)];
    forall m | m in mgrs' ensures NoDup(mgrs'[m].watched) && Elems(mgrs'[m].watched) == Group(t', m) - missing {
      GroupGains(st.t, t', s, k, m);
      ElemsAppend(st.mgrs[m].watched, s);
      assert s !in Elems(st.mgrs[m].watched);
    }
  }

  lemma OpenKeepsAgree(role: Role, st: State, c: Runs.Action, missing: set<int>)
    requires AgreeBut(st, missing) && c.DoOpen? && Runs.Allowed(st, c) && c.s !in missing
    ensures AgreeBut(Runs.Step(role, st, c), missing)
  {
    FindOrCreateAgrees(st, c.m, c.spawnOk, missing);
    var (st1, found) := FindOrCreate(st, c.m, c.spawnOk);
    if found.Some? {
      var t' := AddSocket(role, st.t, c.s, c.d, c.proto, found.value, c.key).0;
      if c.d in st.t.ofdev {
        BothGain(st1, t', c.s, found.value, missing);
      } else {
        assert t'.ofrw == st.t.ofrw;
        SameRows(st1, st1.(t := t'), missing);
      }
    }
  }

  lemma StepKeepsAgree(role: Role, st: State, c: Runs.Action, missing: set<int>)
    requires AgreeBut(st, missing) && (c.DoOpen? ==> c.s !in missing)
    ensures AgreeBut(Runs.Step(role, st, c), missing)
  {
    if Runs.Allowed(st, c) {
      var st' := Runs.Step(role, st, c);
      match c
      case DoRegister(d) => SameRows(st, st', missing);
      case DoOpen(_, _, _, _, _, _) => OpenKeepsAgree(role, st, c, missing);
      case DoRename(_, _, _) => SameRows(st, st', missing);
      case DoClose(s) => CloseKeepsAgree(st, s, missing);
      case DoDestroy(key) => if key in st.t.ofchannel { CloseKeepsAgree(st, st.t.ofchannel[key].sock, missing); }
      case DoDrain(d) => if d in st.t.ofdev { ClosesKeepAgree(st, st.t.ofdev[d], missing); }
      case DoFree(d) =>
        if d in st.t.ofdev { ClosesKeepAgree(st, st.t.ofdev[d], missing); }
        SameRows(Drain(st, d), st', missing);
    }
  }

  // ---------------------------------------------------------------------------------------------
  // The gap
  // ---------------------------------------------------------------------------------------------

  lemma BeginAgreesBut(role: Role, st: State, s: Fd, d: DevKey, proto: Proto, k: MgrId, key: ChanKey)
    requires Agree(st) && s !in st.t.ofrw && d in st.t.ofdev && k in st.mgrs
    ensures var st1 := BeginOpen(role, st, s, d, proto, k, key);
            AgreeBut(st1, {s}) && s in st1.t.ofrw && st1.t.ofrw[s].mgr == k
  {
    var st1 := BeginOpen(role, st, s, d, proto, k, key);
    forall m | m in st1.mgrs
      ensures Elems(st1.mgrs[m].watched) == Group(st1.t, m) - {s}
    {
      GroupGains(st.t, st1.t, s, k, m);
    }
  }

  lemma {:induction false} ManagersStay(role: Role, st: State, acts: seq<Runs.Action>)
    ensures After(role, st, acts).mgrs.Keys >= st.mgrs.Keys
  {
    if acts != [] {
      ManagersStay(role, st, acts[..|acts| - 1]);
      StepKeepsManagers(role, After(role, st, acts[..|acts| - 1]), acts[|acts| - 1]);
    }
  }

  lemma {:induction false} ClosesKeepManagers(st: State, l: seq<Fd>)
    ensures CloseAll(st, l).mgrs.Keys == st.mgrs.Keys
    ensures forall s :: s in CloseAll(st, l).t.ofrw ==> s in st.t.ofrw && CloseAll(st, l).t.ofrw[s] == st.t.ofrw[s]
    decreases |l|
  {
    if l != [] {
      ClosesKeepManagers(Close(st, l[0]).0, l[1..]);
    }
  }

  lemma StepKeepsManagers(role: Role, st: State, c: Runs.Action)
    ensures Runs.Step(role, st, c).mgrs.Keys >= st.mgrs.Keys
    ensures forall s :: s in st.t.ofrw && s in Runs.Step(role, st, c).t.ofrw ==>
              Runs.Step(role, st, c).t.ofrw[s] == st.t.ofrw[s]
  {
    match c
    case DoDrain(d) => if d in st.t.ofdev { ClosesKeepManagers(st, st.t.ofdev[d]); }
    case DoFree(d) => if d in st.t.ofdev { ClosesKeepManagers(st, st.t.ofdev[d]); }
    case _ =>
  }

  /** While s is kept, it alone is missing, and from the thread it names; once gone, nothing is. */
  lemma {:induction false} GapInvariant(role: Role, st: State, acts: seq<Runs.Action>, s: Fd)
    requires AgreeBut(st, {s}) && s in st.t.ofrw
    ensures var st' := After(role, st, acts);
            if Kept(role, st, acts, s) then AgreeBut(st', {s}) && st'.t.ofrw[s].mgr == st.t.ofrw[s].mgr else Agree(st')
  {
    if acts != [] {
      var n := |acts| - 1;
      var mid, c := After(role, st, acts[..n]), acts[n];
      GapInvariant(role, st, acts[..n], s);
      StepKeepsManagers(role, mid, c);
      if Kept(role, st, acts[..n], s) {
        RegisteredIsNotOpened(role, mid, c, s);
        if s !in After(role, st, acts).t.ofrw {
          GoneIsNotMissing(After(role, st, acts), s);
        }
      } else {
        StepKeepsAgree(role, mid, c, {});
      }
    }
  }

  lemma RegisteredIsNotOpened(role: Role, st: State, c: Runs.Action, s: Fd)
    requires AgreeBut(st, {s}) && s in st.t.ofrw
    ensures AgreeBut(Runs.Step(role, st, c), {s})
  {
    if Runs.Allowed(st, c) {
      StepKeepsAgree(role, st, c, {s});
    }
  }

  /** Finishing in a state where only s is missing. */
  lemma FinishOfKept(st: State, s: Fd, k: MgrId)
    requires AgreeBut(st, {s}) && s in st.t.ofrw && st.t.ofrw[s].mgr == k
    ensures FinishOpen(st, s, k).Some? && (Agree(FinishOpen(st, s, k).value) <==> HasRoom(st, k))
  {
    assert s in Group(st.t, k) && s !in Elems(st.mgrs[k].watched);
    var st' := FinishOpen(st, s, k).value;
    if HasRoom(st, k) {
      forall m | m in st'.mgrs
        ensures NoDup(st'.mgrs[m].watched) && Elems(st'.mgrs[m].watched) == Group(st'.t, m) - {}
      {
        ElemsAppend(st.mgrs[m].watched, s);
        assert m != k ==> s !in Group(st.t, m);
      }
    } else {
      assert Elems(st'.mgrs[k].watched) != Group(st'.t, k) - {};
    }
  }

  /** Finishing after s was closed: nothing was missing, so anything added is too much. */
  lemma FinishOfGone(st: State, s: Fd, k: MgrId)
    requires Agree(st) && k in st.mgrs
    ensures var r := FinishOpen(st, s, k);
            && (r.Some? && Agree(r.value) <==> !HasRoom(st, k))
            && (HasRoom(st, k) && r.Some? ==> s in r.value.mgrs[k].watched && s !in Group(r.value.t, k))
  {
    var r := FinishOpen(st, s, k);
    if HasRoom(st, k) && r.Some? {
      ElemsAppend(st.mgrs[k].watched, s);
      assert s !in Elems(st.mgrs[k].watched) && s !in Group(st.t, k);
      assert s in Elems(r.value.mgrs[k].watched);
    }
  }

  /**
   Whatever calls fall between the two halves of an open, workers and tables agree afterwards exactly when
   the socket was kept and its thread still has room, or it was closed and the thread has none left. If
   it was closed and there is room, the worker polls a descriptor no table names with that thread, or
   its assertion fails because the number was opened there again.
   */
  lemma GapAgreesIff(role: Role, st: State, s: Fd, d: DevKey, proto: Proto, k: MgrId, key: ChanKey,
                     acts: seq<Runs.Action>)
    requires Agree(st) && s !in st.t.ofrw && d in st.t.ofdev && k in st.mgrs
    ensures var st1 := BeginOpen(role, st, s, d, proto, k, key);
            var st2 := After(role, st1, acts);
            var r := FinishOpen(st2, s, k);
            && (r.Some? && Agree(r.value) <==> (Kept(role, st1, acts, s) <==> HasRoom(st2, k)))
            && (!Kept(role, st1, acts, s) && HasRoom(st2, k) ==>
                  r.None? || (s in r.value.mgrs[k].watched && s !in Group(r.value.t, k)))
  {
    var st1 := BeginOpen(role, st, s, d, proto, k, key);
    BeginAgreesBut(role, st, s, d, proto, k, key);
    GapInvariant(role, st1, acts, s);
    ManagersStay(role, st1, acts);
    if Kept(role, st1, acts, s) {
      FinishOfKept(After(role, st1, acts), s, k);
    } else {
      FinishOfGone(After(role, st1, acts), s, k);
    }
  }
}
