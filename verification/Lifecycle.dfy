/**
 Tables and thread pool together, one operation at a time (src/cc_of_util.c, src/cc_of_lib.c,
 src/cc_tcp_conn.c): opening and closing sockets, destroying channels and draining devices.
 */
module Lifecycle {
  import opened Lists
  import opened PollThread
  import opened Tables
  import opened Pool

  datatype State = State(t: Tables, pool: seq<MgrId>, mgrs: Managers)

  // ---------------------------------------------------------------------------------------------
  // Operations
  // ---------------------------------------------------------------------------------------------

  /** cc_create_rw_pollthr_safe: the new, empty thread goes to the front. */
  function Spawn(st: State, m: MgrId): State {
    st.(pool := [m] + st.pool, mgrs := st.mgrs[m := Manager(0, [])])
  }

  /** cc_find_or_create_rw_pollthr_safe; `m` is the identity a created manager gets. */
  function FindOrCreate(st: State, m: MgrId, spawnOk: bool): (State, Option<MgrId>) {
    match Find(st.pool, st.mgrs)
    case Some(k) => (st, Some(k))
    case None => if spawnOk then (Spawn(st, m), Some(m)) else (st, None)
  }

  /**
   cc_add_sockfd_rw_pollthr_safe. After a failed table update the clean-up asks for a delete with a
   message that says ADD and is refused, so nothing more happens.
   */
  function Open(role: Role, st: State, s: Fd, d: DevKey, proto: Proto, key: ChanKey,
                m: MgrId, spawnOk: bool): (State, Status) {
    var (st1, found) := FindOrCreate(st, m, spawnOk);
    if found.None? || found.value !in st1.mgrs then (st1, EMISC)
    else
      var k := found.value;
      var (t', status) := AddSocket(role, st1.t, s, d, proto, k, key);
      if status != OK then (st1.(t := t'), status)
      else (st1.(t := t', mgrs := st1.mgrs[k := ManagerAdd(st1.mgrs[k], s, MAX_PER_THREAD_RWSOCKETS)]), OK)
  }

  /** tcp_close up to close(2): the thread first, then its place in the pool, then the tables. */
  function Close(st: State, s: Fd): (State, Status) {
    if s !in st.t.ofrw then (st, EHTBL)
    else
      var m := st.t.ofrw[s].mgr;
      if m !in st.mgrs then (st, EMISC)
      else
        var mgrs' := st.mgrs[m := ManagerDelete(st.mgrs[m], s)];
        if |st.pool| == 1 then (State(DelSocket(st.t, s), st.pool, mgrs'), OK)
        else if m !in st.pool then (st.(mgrs := mgrs'), EMISC)
        else (State(DelSocket(st.t, s), InsertSorted(Remove(st.pool, m), mgrs', m), mgrs'), OK)
  }

  function CloseAll(st: State, l: seq<Fd>): State
    decreases |l|
  {
    if l == [] then st else CloseAll(Close(st, l[0]).0, l[1..])
  }

  /** cc_of_destroy_channel: direct lookup only. */
  function Destroy(st: State, key: ChanKey): (State, Status) {
    if key !in st.t.ofchannel then (st, EINVAL)
    else if st.t.ofchannel[key].sock !in st.t.ofrw then (st, EINVAL)
    else Close(st, st.t.ofchannel[key].sock)
  }

  /** cc_of_dev_free_lockfree. */
  function Drain(st: State, d: DevKey): State {
    if d in st.t.ofdev then CloseAll(st, st.t.ofdev[d]) else st
  }

  // ---------------------------------------------------------------------------------------------
  // Invariant and conservation
  // ---------------------------------------------------------------------------------------------

  /** The registered sockets that name manager m. */
  ghost function Group(t: Tables, m: MgrId): set<int> {
    set s: int | s in t.ofrw && t.ofrw[s].mgr == m
  }

  /** A manager's counter, its worker's list and the socket table tell the same story. */
  ghost predicate Counts(t: Tables, m: MgrId, mgr: Manager) {
    && mgr.numSockets == |mgr.watched| <= MAX_PER_THREAD_RWSOCKETS
    && NoDup(mgr.watched) && Elems(mgr.watched) == Group(t, m)
  }

  ghost predicate PoolInv(st: State) {
    && st.pool != [] && NoDup(st.pool) && Sorted(st.pool, st.mgrs)
    && (forall m :: m in st.pool <==> m in st.mgrs)
    && (forall m :: m in st.mgrs ==> Counts(st.t, m, st.mgrs[m]))
    && (forall s :: s in st.t.ofrw ==> st.t.ofrw[s].mgr in st.mgrs)
  }

  ghost predicate Inv(st: State) {
    TablesInv(st.t) && PoolInv(st)
  }

  /** cc_of_lib_init creates one empty thread. */
  function Init(m: MgrId): State {
    State(EMPTY, [m], map[m := Manager(0, [])])
  }

  lemma InitInv(m: MgrId)
    ensures Inv(Init(m))
  {
  }

  /** Counter == registered sockets naming the manager == sockets its worker polls <= capacity. */
  lemma Conservation(st: State, m: MgrId)
    requires Inv(st) && m in st.mgrs
    ensures st.mgrs[m].numSockets == |Group(st.t, m)| == |st.mgrs[m].watched| <= MAX_PER_THREAD_RWSOCKETS
  {
    assert Counts(st.t, m, st.mgrs[m]);
    Cardinality(st.mgrs[m].watched);
  }

  lemma RoomyPool(st: State)
    requires Inv(st)
    ensures Roomy(st.mgrs)
  {
    forall m | m in st.mgrs ensures st.mgrs[m].numSockets <= MAX_PER_THREAD_RWSOCKETS {
      assert Counts(st.t, m, st.mgrs[m]);
    }
  }

  // ---------------------------------------------------------------------------------------------
  // Opening
  // ---------------------------------------------------------------------------------------------

  lemma SpawnKeepsInv(st: State, m: MgrId)
    requires Inv(st) && m !in st.mgrs && Find(st.pool, st.mgrs).None?
    ensures Inv(Spawn(st, m)) && Find(Spawn(st, m).pool, Spawn(st, m).mgrs) == Some(m)
  {
    RoomyPool(st);
    FindIsTightest(st.pool, st.mgrs);
    PrependKeepsSorted(st.pool, st.mgrs, m);
    var st' := Spawn(st, m);
    assert Group(st.t, m) == {};
    assert Counts(st'.t, m, st'.mgrs[m]);
  }

  lemma FindOrCreateKeepsInv(st: State, m: MgrId, spawnOk: bool)
    requires Inv(st) && m !in st.mgrs
    ensures var (st1, found) := FindOrCreate(st, m, spawnOk);
            && Inv(st1) && st1.t == st.t
            && (found.Some? ==> found.value in st1.mgrs && Find(st1.pool, st1.mgrs) == found)
  {
    if Find(st.pool, st.mgrs).None? {
      SpawnKeepsInv(st, m);
    } else {
      assert Find(st.pool, st.mgrs).value in st.pool;
    }
  }

  lemma FillKeepsCounts(t: Tables, t': Tables, s: Fd, k: MgrId, m: MgrId, mgr: Manager)
    requires Counts(t, m, mgr) && s !in t.ofrw && s in t'.ofrw && t'.ofrw == t.ofrw[s := t'.ofrw[s]]
    requires t'.ofrw[s].mgr == k && (m == k ==> mgr.numSockets < MAX_PER_THREAD_RWSOCKETS)
    ensures Counts(t', m, if m == k then ManagerAdd(mgr, s, MAX_PER_THREAD_RWSOCKETS) else mgr)
  {
    if m == k {
      assert s !in Group(t, m);
      assert Group(t', m) == Group(t, m) + {s};
      ElemsAppend(mgr.watched, s);
      assert s !in Elems(mgr.watched);
    } else {
      assert Group(t', m) == Group(t, m);
    }
  }

  /** Registering s with the chosen manager k in both places at once. */
  lemma FillKeepsPoolInv(st: State, t': Tables, s: Fd, k: MgrId)
    requires Inv(st) && s !in st.t.ofrw && s in t'.ofrw && t'.ofrw == st.t.ofrw[s := t'.ofrw[s]]
    requires Find(st.pool, st.mgrs) == Some(k) && k in st.mgrs && t'.ofrw[s].mgr == k
    ensures PoolInv(State(t', st.pool, st.mgrs[k := ManagerAdd(st.mgrs[k], s, MAX_PER_THREAD_RWSOCKETS)]))
  {
    RoomyPool(st);
    FindIsTightest(st.pool, st.mgrs);
    var mgr' := ManagerAdd(st.mgrs[k], s, MAX_PER_THREAD_RWSOCKETS);
    FillKeepsSorted(st.pool, st.mgrs, k, mgr');
    forall m | m in st.mgrs ensures Counts(t', m, st.mgrs[k := mgr'][m]) {
      FillKeepsCounts(st.t, t', s, k, m, st.mgrs[m]);
    }
  }

  /** Opening a socket the kernel just handed out keeps everything; it fails exactly when the device is unknown or
      no thread has room and none can be created. */
  lemma OpenKeepsInv(role: Role, st: State, s: Fd, d: DevKey, proto: Proto, key: ChanKey, m: MgrId, spawnOk: bool)
    requires Inv(st) && s !in st.t.ofrw && m !in st.mgrs
    ensures Inv(Open(role, st, s, d, proto, key, m, spawnOk).0)
    ensures Open(role, st, s, d, proto, key, m, spawnOk).1 == OK
            <==> d in st.t.ofdev && (spawnOk || Find(st.pool, st.mgrs).Some?)
  {
    FindOrCreateKeepsInv(st, m, spawnOk);
    var (st1, found) := FindOrCreate(st, m, spawnOk);
    if found.Some? {
      AddKeepsInv(role, st.t, s, d, proto, found.value, key);
      if d in st.t.ofdev {
        FillKeepsPoolInv(st1, AddSocket(role, st.t, s, d, proto, found.value, key).0, s, found.value);
      } else {
        FailedAddIsInert(role, st.t, s, d, proto, found.value, key);
      }
    }
  }

  /** Thread m polls s as well, last of all, and counts one more; every other thread is as it was. */
  ghost predicate Watched(mgrs: Managers, mgrs': Managers, m: MgrId, s: Fd) {
    && m in mgrs && mgrs'.Keys == mgrs.Keys && mgrs'[m].watched == mgrs[m].watched + [s]
    && mgrs'[m].numSockets == mgrs[m].numSockets + 1 <= MAX_PER_THREAD_RWSOCKETS
    && forall k :: k in mgrs && k != m ==> mgrs'[k] == mgrs[k]
  }

  /** The thread an open goes to: of those with room one with the least, else a new one in front. */
  ghost predicate Chosen(st: State, st1: State, m: MgrId, k: MgrId) {
    if exists x :: x in st.mgrs && st.mgrs[x].numSockets < MAX_PER_THREAD_RWSOCKETS
    then && st1 == st && k in st.mgrs && st.mgrs[k].numSockets < MAX_PER_THREAD_RWSOCKETS
         && forall x :: x in st.mgrs && st.mgrs[x].numSockets < MAX_PER_THREAD_RWSOCKETS ==>
              st.mgrs[x].numSockets <= st.mgrs[k].numSockets
    else k == m && st1.t == st.t && st1.pool == [m] + st.pool && st1.mgrs == st.mgrs[m := Manager(0, [])]
  }

  lemma FindIsChosen(st: State, m: MgrId)
    requires Inv(st)
    ensures var (st1, found) := FindOrCreate(st, m, true); found.Some? && Chosen(st, st1, m, found.value)
    ensures Find(st.pool, st.mgrs).Some? <==> exists x :: x in st.mgrs && st.mgrs[x].numSockets < MAX_PER_THREAD_RWSOCKETS
  {
    RoomyPool(st);
    FindIsTightest(st.pool, st.mgrs);
    forall x | x in st.mgrs ensures exists i :: 0 <= i < |st.pool| && st.pool[i] == x {
      assert x in st.pool;
    }
    if Find(st.pool, st.mgrs).Some? {
      var k := Find(st.pool, st.mgrs).value;
      assert k in st.pool;
      forall x | x in st.mgrs && st.mgrs[x].numSockets < MAX_PER_THREAD_RWSOCKETS
        ensures st.mgrs[x].numSockets <= st.mgrs[k].numSockets
      {
        var i :| 0 <= i < |st.pool| && st.pool[i] == x;
        assert Avail(st.mgrs, st.pool[i]) > 0;
      }
    } else {
      forall x | x in st.mgrs ensures st.mgrs[x].numSockets == MAX_PER_THREAD_RWSOCKETS {
        var i :| 0 <= i < |st.pool| && st.pool[i] == x;
        assert Avail(st.mgrs, st.pool[i]) == 0;
      }
    }
  }

  /**
   A successful open: the thread chosen, the row and the id stored, the worker told; a Controller binds
   the socket number, a Switch the id it was given. A refused one says why.
   */
  lemma OpenOutcome(role: Role, st: State, s: Fd, d: DevKey, proto: Proto, key: ChanKey, m: MgrId, spawnOk: bool)
    requires Inv(st) && s !in st.t.ofrw && m !in st.mgrs
    ensures var (st', status) := Open(role, st, s, d, proto, key, m, spawnOk);
            var room := exists x :: x in st.mgrs && st.mgrs[x].numSockets < MAX_PER_THREAD_RWSOCKETS;
            var bound := match role case Controller => ChanKey(s, s % 256) case Switch => key;
            && status == (if !room && !spawnOk then EMISC else if d !in st.t.ofdev then EINVAL else OK)
            && (status == OK ==> exists st1: State, k: MgrId ::
                  && Chosen(st, st1, m, k) && st'.pool == st1.pool && Watched(st1.mgrs, st'.mgrs, k, s)
                  && SocketAdded(st.t, st'.t, s, RwInfo(Down, d, proto, k), bound)
                  && SendTarget(st'.t, bound.dpId, bound.auxId) == Some((s, k)))
  {
    FindIsChosen(st, m);
    FindOrCreateKeepsInv(st, m, spawnOk);
    var (st1, found) := FindOrCreate(st, m, spawnOk);
    if found.Some? {
      AddBinds(role, st.t, s, d, proto, found.value, key);
      if d in st.t.ofdev {
        FoundCounts(st1, found.value);
        OpenWatches(role, st, s, d, proto, key, m, spawnOk, st1, found.value);
      }
    }
  }

  lemma FoundCounts(st: State, k: MgrId)
    requires Inv(st) && Find(st.pool, st.mgrs) == Some(k)
    ensures k in st.mgrs && st.mgrs[k].numSockets < MAX_PER_THREAD_RWSOCKETS
  {
    RoomyPool(st);
    FindIsTightest(st.pool, st.mgrs);
    assert k in st.pool;
  }

  lemma OpenWatches(role: Role, st: State, s: Fd, d: DevKey, proto: Proto, key: ChanKey, m: MgrId, spawnOk: bool,
                    st1: State, k: MgrId)
    requires FindOrCreate(st, m, spawnOk) == (st1, Some(k)) && k in st1.mgrs && d in st.t.ofdev && st1.t == st.t
    requires st1.mgrs[k].numSockets < MAX_PER_THREAD_RWSOCKETS
    ensures var (st', status) := Open(role, st, s, d, proto, key, m, spawnOk);
            && status == OK && st'.pool == st1.pool && Watched(st1.mgrs, st'.mgrs, k, s)
            && st'.t == AddSocket(role, st.t, s, d, proto, k, key).0
  {
  }

  /** A failed open changes no table and no existing counter; at most one empty thread appears. */
  lemma FailedOpenIsInert(role: Role, st: State, s: Fd, d: DevKey, proto: Proto, key: ChanKey, m: MgrId, spawnOk: bool)
    requires Inv(st) && s !in st.t.ofrw && m !in st.mgrs
    requires Open(role, st, s, d, proto, key, m, spawnOk).1 != OK
    ensures var st' := Open(role, st, s, d, proto, key, m, spawnOk).0;
            st' == st || (Find(st.pool, st.mgrs).None? && st' == Spawn(st, m))
  {
    FindOrCreateKeepsInv(st, m, spawnOk);
    var (st1, found) := FindOrCreate(st, m, spawnOk);
    if found.Some? {
      FailedAddIsInert(role, st.t, s, d, proto, found.value, key);
    }
  }

  // ---------------------------------------------------------------------------------------------
  // Closing
  // ---------------------------------------------------------------------------------------------

  lemma DeleteKeepsCounts(st: State, s: Fd, m: MgrId)
    requires Inv(st) && s in st.t.ofrw && m in st.mgrs
    ensures var k := st.t.ofrw[s].mgr; var t' := DelSocket(st.t, s);
            && k in st.mgrs
            && Counts(t', m, if m == k then ManagerDelete(st.mgrs[k], s) else st.mgrs[m])
  {
    var k := st.t.ofrw[s].mgr;
    var t' := DelSocket(st.t, s);
    assert Counts(st.t, m, st.mgrs[m]);
    if m == k {
      assert Group(t', m) == Group(st.t, m) - {s};
      assert s in Group(st.t, k) && s in Elems(st.mgrs[k].watched);
      ElemsRemove(st.mgrs[k].watched, s);
    } else {
      assert Group(t', m) == Group(st.t, m);
    }
  }

  /** Thread m polls s no longer and counts one less; every other thread is as it was. */
  ghost predicate Unwatched(mgrs: Managers, mgrs': Managers, m: MgrId, s: Fd) {
    && m in mgrs && mgrs'.Keys == mgrs.Keys
    && s in mgrs[m].watched && mgrs'[m].watched == Remove(mgrs[m].watched, s)
    && mgrs'[m].numSockets == mgrs[m].numSockets - 1
    && forall k :: k in mgrs && k != m ==> mgrs'[k] == mgrs[k]
  }

  /** Closing what is not registered changes nothing. */
  lemma CloseUnknown(st: State, s: Fd)
    requires s !in st.t.ofrw
    ensures Close(st, s) == (st, EHTBL)
  {
  }

  lemma CloseStaysInv(st: State, s: Fd)
    requires Inv(st) && s in st.t.ofrw
    ensures var (st', status) := Close(st, s);
            && status == OK && Inv(st') && st'.t == DelSocket(st.t, s)
            && |st'.pool| == |st.pool| && st'.mgrs.Keys == st.mgrs.Keys
  {
    var m := st.t.ofrw[s].mgr;
    var mgr' := ManagerDelete(st.mgrs[m], s);
    var st' := Close(st, s).0;
    DelKeepsInv(st.t, s);
    OthersStaySorted(st.pool, st.mgrs, m, mgr');
    ResortKeeps(st.pool, st.mgrs[m := mgr'], m);
    if |st.pool| == 1 {
      assert Sorted(st'.pool, st'.mgrs);
    }
    forall k | k in st'.mgrs ensures Counts(st'.t, k, st'.mgrs[k]) {
      DeleteKeepsCounts(st, s, k);
    }
  }

  lemma CloseUnwatches(st: State, s: Fd)
    requires Inv(st) && s in st.t.ofrw
    ensures Unwatched(st.mgrs, Close(st, s).0.mgrs, st.t.ofrw[s].mgr, s)
  {
    var m := st.t.ofrw[s].mgr;
    assert Counts(st.t, m, st.mgrs[m]) && s in Group(st.t, m) && s in Elems(st.mgrs[m].watched);
  }

  /** Closing a registered socket succeeds, keeps the invariant, and takes exactly it from tables and thread. */
  lemma CloseKeepsInv(st: State, s: Fd)
    requires Inv(st) && s in st.t.ofrw
    ensures var (st', status) := Close(st, s);
            && status == OK && Inv(st') && SocketGone(st.t, st'.t, s)
            && Unwatched(st.mgrs, st'.mgrs, st.t.ofrw[s].mgr, s)
            && |st'.pool| == |st.pool| && forall m :: m in st'.pool <==> m in st.pool
    ensures forall k :: k in st.t.ofchannel && st.t.ofchannel[k].sock != s ==>
              && SendTarget(st.t, k.dpId, k.auxId).Some?
              && SendTarget(Close(st, s).0.t, k.dpId, k.auxId) == SendTarget(st.t, k.dpId, k.auxId)
  {
    CloseStaysInv(st, s);
    CloseUnwatches(st, s);
    DelTakesOnly(st.t, s);
  }

  /** An unknown id is refused and nothing happens; a known one goes, and its socket with it. */
  lemma DestroyOutcome(st: State, key: ChanKey)
    requires Inv(st)
    ensures var (st', status) := Destroy(st, key);
            if key !in st.t.ofchannel then st' == st && status == EINVAL
            else && status == OK && key !in st'.t.ofchannel
                 && var s := st.t.ofchannel[key].sock;
                    && SocketGone(st.t, st'.t, s) && Unwatched(st.mgrs, st'.mgrs, st.t.ofrw[s].mgr, s)
  {
    if key in st.t.ofchannel {
      CloseKeepsInv(st, st.t.ofchannel[key].sock);
    }
  }

  /** Draining: the tables lose exactly the device's sockets and channels, the pool keeps its threads. */
  lemma {:induction false} DrainKeepsInv(st: State, d: DevKey)
    requires Inv(st) && d in st.t.ofdev
    ensures Inv(Drain(st, d)) && Drain(st, d).t == Without(st.t, d)
    ensures |Drain(st, d).pool| == |st.pool| && Drain(st, d).mgrs.Keys == st.mgrs.Keys
    decreases |st.t.ofdev[d]|
  {
    DrainIsExact(st.t, d);
    if st.t.ofdev[d] != [] {
      var s := st.t.ofdev[d][0];
      DrainStep(st.t, d);
      CloseStaysInv(st, s);
      DrainKeepsInv(Close(st, s).0, d);
    }
  }

  /** cc_of_dev_free also forgets the drained device. */
  function FreeDevice(st: State, d: DevKey): State {
    var st' := Drain(st, d);
    st'.(t := st'.t.(ofdev := st'.t.ofdev - {d}))
  }

  lemma FreeDeviceKeepsInv(st: State, d: DevKey)
    requires Inv(st) && d in st.t.ofdev
    ensures Inv(FreeDevice(st, d))
    ensures FreeDevice(st, d).t == Without(st.t, d).(ofdev := st.t.ofdev - {d})
    ensures |FreeDevice(st, d).pool| == |st.pool|
  {
    DrainKeepsInv(st, d);
    var st' := Drain(st, d);
    ForgetKeepsInv(st'.t, d);
    PoolInvSeesSocketsOnly(st', st'.t.(ofdev := st'.t.ofdev - {d}));
    assert Without(st.t, d).ofdev - {d} == st.t.ofdev - {d};
  }

  lemma PoolInvSeesSocketsOnly(st: State, t': Tables)
    requires PoolInv(st) && t'.ofrw == st.t.ofrw
    ensures PoolInv(st.(t := t'))
  {
    forall m | m in st.mgrs ensures Counts(t', m, st.mgrs[m]) {
      assert Counts(st.t, m, st.mgrs[m]);
      assert Group(t', m) == Group(st.t, m);
    }
  }

  // ---------------------------------------------------------------------------------------------
  // Open followed by close
  // ---------------------------------------------------------------------------------------------

  /**
   Open followed by close, wherever the open ends up. The threads are those the open chose from, an
   added one included; devices and sockets are as before; the channels are exactly when the key was
   unbound, and the pool order exactly when no thread before the chosen one had equally much room. A
   created thread is first, so its open and close never disturb the order. A refused open leaves the
   close nothing to do.
   */
  lemma OpenThenCloseRestoresIff(role: Role, st: State, s: Fd, d: DevKey, proto: Proto, key: ChanKey, m: MgrId, spawnOk: bool)
    requires Inv(st) && s !in st.t.ofrw && m !in st.mgrs
    ensures var st' := Close(Open(role, st, s, d, proto, key, m, spawnOk).0, s).0;
            var made := Find(st.pool, st.mgrs).None? && spawnOk;
            var succeeds := d in st.t.ofdev && (spawnOk || Find(st.pool, st.mgrs).Some?);
            var base := if made then Spawn(st, m) else st;
            && st'.mgrs == base.mgrs && st'.t.ofdev == st.t.ofdev && st'.t.ofrw == st.t.ofrw
            && (st'.t == st.t <==> !succeeds || ChannelFor(role, s, key) !in st.t.ofchannel)
            && (made ==> st'.pool == [m] + st.pool)
            && (!made ==>
                  (st'.pool == st.pool <==>
                     !succeeds || var i := Walk(st.pool, st.mgrs, 0);
                                  i == 0 || Avail(st.mgrs, st.pool[i - 1]) > Avail(st.mgrs, st.pool[i])))
  {
    OpenKeepsInv(role, st, s, d, proto, key, m, spawnOk);
    if Open(role, st, s, d, proto, key, m, spawnOk).1 != OK {
      FailedOpenIsInert(role, st, s, d, proto, key, m, spawnOk);
    } else if Find(st.pool, st.mgrs).None? {
      SpawnKeepsInv(st, m);
      CreatedIsFirst(st, m);
      OpenAfterSpawn(role, st, s, d, proto, key, m);
      UndoneOnExisting(role, Spawn(st, m), s, d, proto, key, m, spawnOk);
    } else {
      UndoneOnExisting(role, st, s, d, proto, key, m, spawnOk);
    }
  }

  lemma CreatedIsFirst(st: State, m: MgrId)
    requires Inv(st) && m !in st.mgrs && Find(st.pool, st.mgrs).None?
    ensures Walk(Spawn(st, m).pool, Spawn(st, m).mgrs, 0) == 0
  {
    var st' := Spawn(st, m);
    RoomyPool(st);
    FindIsTightest(st.pool, st.mgrs);
    assert |st'.pool| > 1 ==> st'.pool[1] == st.pool[0] && st.pool[0] in st.pool;
  }

  /** An open that creates its thread is an open on the pool with that thread in it. */
  lemma OpenAfterSpawn(role: Role, st: State, s: Fd, d: DevKey, proto: Proto, key: ChanKey, m: MgrId)
    requires Inv(st) && m !in st.mgrs && Find(st.pool, st.mgrs).None?
    ensures Open(role, st, s, d, proto, key, m, true) == Open(role, Spawn(st, m), s, d, proto, key, m, true)
  {
    SpawnKeepsInv(st, m);
  }

  /** The case of a thread that was there already. */
  lemma UndoneOnExisting(role: Role, st: State, s: Fd, d: DevKey, proto: Proto, key: ChanKey, m: MgrId, spawnOk: bool)
    requires Inv(st) && s !in st.t.ofrw && d in st.t.ofdev && Find(st.pool, st.mgrs).Some?
    ensures var st' := Close(Open(role, st, s, d, proto, key, m, spawnOk).0, s).0;
            var i := Walk(st.pool, st.mgrs, 0);
            && st'.mgrs == st.mgrs && st'.t.ofdev == st.t.ofdev && st'.t.ofrw == st.t.ofrw
            && (st'.t == st.t <==> ChannelFor(role, s, key) !in st.t.ofchannel)
            && (st'.pool == st.pool <==> i == 0 || Avail(st.mgrs, st.pool[i - 1]) > Avail(st.mgrs, st.pool[i]))
  {
    var k := FoundIsThere(st);
    ClosedAgain(role, st, s, d, proto, key, m, spawnOk, k);
    AddThenDelRestores(role, st.t, s, d, proto, k, key);
  }

  lemma FoundIsThere(st: State) returns (k: MgrId)
    requires Inv(st) && Find(st.pool, st.mgrs).Some?
    ensures Find(st.pool, st.mgrs) == Some(k) && k in st.pool && k in st.mgrs
    ensures var i := Walk(st.pool, st.mgrs, 0);
            InsertSorted(Remove(st.pool, k), st.mgrs, k) == st.pool
            <==> i == 0 || Avail(st.mgrs, st.pool[i - 1]) > Avail(st.mgrs, st.pool[i])
  {
    var i := Walk(st.pool, st.mgrs, 0);
    k := st.pool[i];
    ResortRestoresIff(st.pool, st.mgrs, i);
  }

  lemma ClosedAgain(role: Role, st: State, s: Fd, d: DevKey, proto: Proto, key: ChanKey, m: MgrId, spawnOk: bool, k: MgrId)
    requires Inv(st) && s !in st.t.ofrw && d in st.t.ofdev
    requires Find(st.pool, st.mgrs) == Some(k) && k in st.mgrs && k in st.pool
    ensures Close(Open(role, st, s, d, proto, key, m, spawnOk).0, s).0 ==
            State(DelSocket(AddSocket(role, st.t, s, d, proto, k, key).0, s),
                  InsertSorted(Remove(st.pool, k), st.mgrs, k), st.mgrs)
  {
    AddThenDelRestores(role, st.t, s, d, proto, k, key);
    OpenOnExisting(role, st, s, d, proto, key, m, spawnOk, k);
    ManagerRestored(st, s, k);
    CloseUndoesFill(State(AddSocket(role, st.t, s, d, proto, k, key).0, st.pool, st.mgrs), s, k);
  }

  lemma OpenOnExisting(role: Role, st: State, s: Fd, d: DevKey, proto: Proto, key: ChanKey, m: MgrId, spawnOk: bool, k: MgrId)
    requires d in st.t.ofdev && Find(st.pool, st.mgrs) == Some(k) && k in st.mgrs
    ensures Open(role, st, s, d, proto, key, m, spawnOk).0 ==
            State(AddSocket(role, st.t, s, d, proto, k, key).0, st.pool,
                  st.mgrs[k := ManagerAdd(st.mgrs[k], s, MAX_PER_THREAD_RWSOCKETS)])
  {
  }

  /** Close after the chosen manager took s: the counters are back, only the list may be re-ordered. */
  lemma CloseUndoesFill(st: State, s: Fd, k: MgrId)
    requires s in st.t.ofrw && st.t.ofrw[s].mgr == k && k in st.mgrs && k in st.pool
    requires ManagerDelete(ManagerAdd(st.mgrs[k], s, MAX_PER_THREAD_RWSOCKETS), s) == st.mgrs[k]
    ensures var filled := st.(mgrs := st.mgrs[k := ManagerAdd(st.mgrs[k], s, MAX_PER_THREAD_RWSOCKETS)]);
            Close(filled, s).0 ==
            State(DelSocket(st.t, s), InsertSorted(Remove(st.pool, k), st.mgrs, k), st.mgrs)
  {
    var mgr1 := ManagerAdd(st.mgrs[k], s, MAX_PER_THREAD_RWSOCKETS);
    assert st.mgrs[k := mgr1][k := st.mgrs[k]] == st.mgrs;
    if |st.pool| == 1 {
      assert st.pool == [k] && Remove(st.pool, k) == [];
    }
  }

  lemma ManagerRestored(st: State, s: Fd, k: MgrId)
    requires Inv(st) && s !in st.t.ofrw && Find(st.pool, st.mgrs) == Some(k) && k in st.mgrs
    ensures ManagerDelete(ManagerAdd(st.mgrs[k], s, MAX_PER_THREAD_RWSOCKETS), s) == st.mgrs[k]
  {
    RoomyPool(st);
    FindIsTightest(st.pool, st.mgrs);
    assert Counts(st.t, k, st.mgrs[k]);
    assert s !in Group(st.t, k) && s !in Elems(st.mgrs[k].watched);
    RemoveLast(st.mgrs[k].watched, s);
  }
}
