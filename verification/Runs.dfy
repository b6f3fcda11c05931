/**
 Whole runs of library calls, one at a time: what every reachable state satisfies, and how many poll
 threads a run can ever need.
 */
module Runs {
  import opened Lists
  import opened PollThread
  import opened Tables
  import opened Pool
  import opened Lifecycle

  /** Fields s, m and spawnOk of an open are the kernel's choices. */
  datatype Action =
    | DoRegister(d: DevKey)
    | DoOpen(s: Fd, d: DevKey, proto: Proto, key: ChanKey, m: MgrId, spawnOk: bool)
    | DoRename(dp: U64, aux: U8, chosen: ChanKey)
    | DoClose(s: Fd)
    | DoDestroy(key: ChanKey)
    | DoDrain(d: DevKey)
    | DoFree(d: DevKey)

  /**
   What the library expects: a device key is not registered again while it has sockets, the kernel
   hands out only descriptors and memory that are not in use, and a renamed id is a dummy id.
   */
  predicate Allowed(st: State, a: Action) {
    match a
    case DoRegister(d) => MayRegister(st.t, d)
    case DoOpen(s, _, _, _, m, _) => s !in st.t.ofrw && m !in st.mgrs
    case DoRename(dp, aux, chosen) => MayRename(st.t, dp, aux, chosen)
    case _ => true
  }

  /** An action that breaks an expectation is not part of any run; it is a no-step here. */
  function Step(role: Role, st: State, a: Action): State {
    if !Allowed(st, a) then st else
      match a
      case DoRegister(d) => st.(t := Register(st.t, d))
      case DoOpen(s, d, proto, key, m, spawnOk) => Open(role, st, s, d, proto, key, m, spawnOk).0
      case DoRename(dp, aux, chosen) => st.(t := Rename(st.t, dp, aux, chosen).0)
      case DoClose(s) => Close(st, s).0
      case DoDestroy(key) => Destroy(st, key).0
      case DoDrain(d) => Drain(st, d)
      case DoFree(d) => FreeDevice(st, d)
  }

  function Run(role: Role, m: MgrId, acts: seq<Action>): State {
    if acts == [] then Init(m) else Step(role, Run(role, m, acts[..|acts| - 1]), acts[|acts| - 1])
  }

  lemma StepKeepsInv(role: Role, st: State, a: Action)
    requires Inv(st)
    ensures Inv(Step(role, st, a))
  {
    if Allowed(st, a) {
      match a
      case DoRegister(d) =>
        RegisterKeepsInvIff(st.t, d);
        PoolInvSeesSocketsOnly(st, Register(st.t, d));
      case DoOpen(s, d, proto, key, m, spawnOk) => OpenKeepsInv(role, st, s, d, proto, key, m, spawnOk);
      case DoRename(dp, aux, chosen) =>
        RenameKeepsInvIff(st.t, dp, aux, chosen);
        PoolInvSeesSocketsOnly(st, Rename(st.t, dp, aux, chosen).0);
      case DoClose(s) => if s in st.t.ofrw { CloseStaysInv(st, s); }
      case DoDestroy(key) => if key in st.t.ofchannel { CloseStaysInv(st, st.t.ofchannel[key].sock); }
      case DoDrain(d) => if d in st.t.ofdev { DrainKeepsInv(st, d); }
      case DoFree(d) =>
        if d in st.t.ofdev {
          FreeDeviceKeepsInv(st, d);
        } else {
          assert st.t.ofdev - {d} == st.t.ofdev;
        }
    }
  }

  /** Tables, pool order, counters and workers agree after every run. */
  lemma {:induction false} RunKeepsInv(role: Role, m: MgrId, acts: seq<Action>)
    ensures Inv(Run(role, m, acts))
  {
    if acts == [] {
      InitInv(m);
    } else {
      RunKeepsInv(role, m, acts[..|acts| - 1]);
      StepKeepsInv(role, Run(role, m, acts[..|acts| - 1]), acts[|acts| - 1]);
    }
  }

  // ---------------------------------------------------------------------------------------------
  // Packing bound
  // ---------------------------------------------------------------------------------------------

  ghost function GroupsOf(t: Tables, ms: seq<MgrId>): set<int> {
    set s: int | s in t.ofrw && t.ofrw[s].mgr in ms
  }

  lemma GroupsSplit(t: Tables, ms: seq<MgrId>, m: MgrId)
    requires m !in ms
    ensures GroupsOf(t, ms + [m]) == GroupsOf(t, ms) + Group(t, m)
    ensures |GroupsOf(t, ms + [m])| == |GroupsOf(t, ms)| + |Group(t, m)|
  {
    assert GroupsOf(t, ms + [m]) == GroupsOf(t, ms) + Group(t, m);
    assert GroupsOf(t, ms) !! Group(t, m);
  }

  /** Full threads are disjoint groups of MAX sockets each. */
  lemma {:induction false} FullGroups(st: State, ms: seq<MgrId>)
    requires Inv(st) && NoDup(ms)
    requires forall i :: 0 <= i < |ms| ==> ms[i] in st.mgrs && Avail(st.mgrs, ms[i]) == 0
    ensures |GroupsOf(st.t, ms)| == MAX_PER_THREAD_RWSOCKETS * |ms|
  {
    if ms == [] {
      assert GroupsOf(st.t, ms) == {};
    } else {
      var n := |ms| - 1;
      FullGroups(st, ms[..n]);
      Conservation(st, ms[n]);
      assert ms == ms[..n] + [ms[n]];
      GroupsSplit(st.t, ms[..n], ms[n]);
    }
  }

  function Live(st: State): nat {
    |st.t.ofrw|
  }

  lemma FullPool(st: State)
    requires Inv(st) && Find(st.pool, st.mgrs).None?
    ensures forall m :: m in st.mgrs ==> st.mgrs[m].numSockets == MAX_PER_THREAD_RWSOCKETS
    ensures Live(st) >= MAX_PER_THREAD_RWSOCKETS * |st.pool|
  {
    RoomyPool(st);
    FindIsTightest(st.pool, st.mgrs);
    assert forall i :: 0 <= i < |st.pool| ==> st.pool[i] in st.pool;
    forall m | m in st.mgrs ensures st.mgrs[m].numSockets == MAX_PER_THREAD_RWSOCKETS {
      assert m in st.pool;
      var i :| 0 <= i < |st.pool| && st.pool[i] == m;
      assert Avail(st.mgrs, st.pool[i]) == 0;
    }
    FullGroups(st, st.pool);
    SubsetCardinality(GroupsOf(st.t, st.pool), st.t.ofrw.Keys);
  }

  lemma SubsetCardinality(a: set<int>, b: set<int>)
    requires a <= b
    ensures |a| <= |b|
  {
    assert b == a + (b - a);
  }

  /** The largest number of registered sockets at any point of the run. */
  function Peak(role: Role, m: MgrId, acts: seq<Action>): nat {
    var now := Live(Run(role, m, acts));
    if acts == [] then now else
      var before := Peak(role, m, acts[..|acts| - 1]);
      if before < now then now else before
  }

  lemma StepGrowsPool(role: Role, st: State, a: Action)
    requires Inv(st)
    ensures |Step(role, st, a).pool| <= |st.pool| ||
            (|Step(role, st, a).pool| == |st.pool| + 1 && Find(st.pool, st.mgrs).None? && a.DoOpen?)
  {
    if Allowed(st, a) {
      match a
      case DoClose(s) => if s in st.t.ofrw { CloseStaysInv(st, s); }
      case DoDestroy(key) => if key in st.t.ofchannel { CloseStaysInv(st, st.t.ofchannel[key].sock); }
      case DoDrain(d) => if d in st.t.ofdev { DrainKeepsInv(st, d); }
      case DoFree(d) => if d in st.t.ofdev { FreeDeviceKeepsInv(st, d); }
      case _ =>
    }
  }

  /** A call creates a thread only when every existing one is full, and then creates one. */
  lemma SpawnOnlyWhenFull(role: Role, st: State, a: Action)
    requires Inv(st) && |Step(role, st, a).pool| > |st.pool|
    ensures forall m :: m in st.mgrs ==> st.mgrs[m].numSockets == MAX_PER_THREAD_RWSOCKETS
    ensures Live(st) >= MAX_PER_THREAD_RWSOCKETS * |st.pool| && |Step(role, st, a).pool| == |st.pool| + 1
    ensures a.DoOpen? && Step(role, st, a).mgrs.Keys == st.mgrs.Keys + {a.m}
  {
    StepGrowsPool(role, st, a);
    FullPool(st);
  }

  lemma {:induction false} PeakCoversPool(role: Role, m: MgrId, acts: seq<Action>)
    ensures MAX_PER_THREAD_RWSOCKETS * (|Run(role, m, acts).pool| - 1) <= Peak(role, m, acts)
    ensures Live(Run(role, m, acts)) <= Peak(role, m, acts)
  {
    if acts != [] {
      var n := |acts| - 1;
      var st := Run(role, m, acts[..n]);
      PeakCoversPool(role, m, acts[..n]);
      RunKeepsInv(role, m, acts[..n]);
      StepGrowsPool(role, st, acts[n]);
      if |Run(role, m, acts).pool| > |st.pool| {
        SpawnOnlyWhenFull(role, st, acts[n]);
      }
    }
  }

  /** Threads never outnumber one plus the peak of live sockets divided by the capacity of a thread. */
  lemma PackingBound(role: Role, m: MgrId, acts: seq<Action>)
    ensures |Run(role, m, acts).pool| <= 1 + Peak(role, m, acts) / MAX_PER_THREAD_RWSOCKETS
  {
    PeakCoversPool(role, m, acts);
  }

  // ---------------------------------------------------------------------------------------------
  // What follows for the caller
  // ---------------------------------------------------------------------------------------------

  /** In every reachable state two channel ids never lead a send to the same socket by direct lookup. */
  lemma SendsAreDistinguished(role: Role, m: MgrId, acts: seq<Action>, k: ChanKey, l: ChanKey)
    requires var t := Run(role, m, acts).t; k in t.ofchannel && l in t.ofchannel && k != l
    ensures var t := Run(role, m, acts).t;
            var a, b := SendTarget(t, k.dpId, k.auxId), SendTarget(t, l.dpId, l.auxId);
            a.Some? && b.Some? && a.value.0 != b.value.0
            && a.value.1 in Run(role, m, acts).mgrs && a.value.0 in Run(role, m, acts).mgrs[a.value.1].watched
  {
    RunKeepsInv(role, m, acts);
    var st := Run(role, m, acts);
    assert ChanKey(k.dpId, k.auxId) == k && ChanKey(l.dpId, l.auxId) == l;
    var s := st.t.ofchannel[k].sock;
    var g := st.t.ofrw[s].mgr;
    assert s in Group(st.t, g);
    assert Counts(st.t, g, st.mgrs[g]);
    assert s in Elems(st.mgrs[g].watched);
  }

  /** Draining ends in every reachable state, for every registered device. */
  lemma ReachableDrainEnds(role: Role, m: MgrId, acts: seq<Action>, d: DevKey)
    requires d in Run(role, m, acts).t.ofdev
    ensures var t := Run(role, m, acts).t;
            DrainCursor(t, t.ofdev[d], |t.ofdev[d]|) == Some(Without(t, d))
  {
    RunKeepsInv(role, m, acts);
    var t := Run(role, m, acts).t;
    InvMakesDrainable(t, d);
    DrainEnds(t, t.ofdev[d]);
    DrainIsExact(t, d);
  }
}
