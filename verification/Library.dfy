/**
 cc_of_global and the calls that update it in place (src/cc_of_util.c, src/cc_of_lib.c,
 src/cc_tcp_conn.c). Walks over a hash table pick the next key freely, so every promise holds for any
 iteration order.
 */
module Library {
  import opened Lists
  import opened PollThread
  import opened Tables
  import opened Pool
  import opened Lifecycle

  lemma InsertPointUnique(pool: seq<MgrId>, mgrs: Managers, m: MgrId, k: nat)
    requires k <= |pool| && forall i :: 0 <= i < k ==> Avail(mgrs, pool[i]) > Avail(mgrs, m)
    requires k < |pool| ==> Avail(mgrs, pool[k]) <= Avail(mgrs, m)
    ensures k == InsertPoint(pool, mgrs, m)
  {
    if pool != [] && k > 0 {
      InsertPointUnique(pool[1..], mgrs, m, k - 1);
    }
  }

  class Global {
    const role: Role
    var ofdev: map<DevKey, seq<Fd>>
    var ofrw: map<Fd, RwInfo>
    var ofchannel: map<ChanKey, ChanInfo>
    var pool: seq<MgrId>
    var mgrs: Managers

    ghost function Snapshot(): State
      reads this
    {
      State(Tables(ofdev, ofrw, ofchannel), pool, mgrs)
    }

    /** cc_of_lib_init. */
    constructor (role: Role, m: MgrId)
      ensures this.role == role && Snapshot() == Lifecycle.Init(m)
      ensures ofdev == map[] && ofrw == map[] && ofchannel == map[]
      ensures pool == [m] && mgrs == map[m := Manager(0, [])]
    {
      this.role := role;
      ofdev, ofrw, ofchannel := map[], map[], map[];
      pool := [m];
      mgrs := map[m := Manager(0, [])];
    }

    // -------------------------------------------------------------------------------------------
    // Thread pool
    // -------------------------------------------------------------------------------------------

    method CreateThread(m: MgrId, spawnOk: bool) returns (made: Option<MgrId>)
      modifies `pool, `mgrs
      ensures made == if spawnOk then Some(m) else None
      ensures Snapshot() == if spawnOk then Spawn(old(Snapshot()), m) else old(Snapshot())
    {
      made := None;
      if spawnOk {
        mgrs := mgrs[m := Manager(0, [])];
        pool := [m] + pool;
        made := Some(m);
      }
    }

    method FindOrCreateThread(m: MgrId, spawnOk: bool) returns (found: Option<MgrId>)
      modifies `pool, `mgrs
      ensures (Snapshot(), found) == FindOrCreate(old(Snapshot()), m, spawnOk)
      ensures old(Inv(Snapshot())) && found.Some? ==> Chosen(old(Snapshot()), Snapshot(), m, found.value)
      ensures found.None? ==> !spawnOk && Snapshot() == old(Snapshot())
    {
      if Inv(Snapshot()) {
        FindIsChosen(Snapshot(), m);
      }
      if |pool| == 0 || Avail(mgrs, pool[0]) == 0 {
        found := CreateThread(m, spawnOk);
        return;
      }
      var elem := 0;
      while elem + 1 < |pool| && Avail(mgrs, pool[elem + 1]) != 0
        invariant 0 <= elem < |pool|
        invariant Walk(pool, mgrs, elem) == Walk(pool, mgrs, 0)
        decreases |pool| - elem
      {
        elem := elem + 1;
      }
      found := Some(pool[elem]);
    }

    /** g_list_insert_sorted with the availability comparison. */
    method InsertManager(m: MgrId)
      modifies `pool
      ensures pool == InsertSorted(old(pool), mgrs, m)
    {
      var k := 0;
      while k < |pool| && Avail(mgrs, pool[k]) > Avail(mgrs, m)
        invariant 0 <= k <= |pool|
        invariant forall i :: 0 <= i < k ==> Avail(mgrs, pool[i]) > Avail(mgrs, m)
      {
        k := k + 1;
      }
      InsertPointUnique(pool, mgrs, m, k);
      pool := pool[..k] + [m] + pool[k..];
    }

    /** g_list_find and g_list_delete_link. */
    method UnlinkManager(m: MgrId) returns (found: bool)
      modifies `pool
      ensures found <==> m in old(pool)
      ensures pool == Remove(old(pool), m)
    {
      var k := 0;
      while k < |pool| && pool[k] != m
        invariant 0 <= k <= |pool|
        invariant forall i :: 0 <= i < k ==> pool[i] != m
      {
        k := k + 1;
      }
      found := k < |pool|;
      if found {
        FirstMatch(pool, m, k);
        pool := pool[..k] + pool[k + 1..];
      }
    }

    // -------------------------------------------------------------------------------------------
    // Table helpers
    // -------------------------------------------------------------------------------------------

    /** g_hash_table_foreach_remove over the channels. */
    method DelChannelsOf(s: int)
      modifies `ofchannel
      ensures ofchannel == DelChannels(old(ofchannel), s)
      ensures forall k :: k in ofchannel <==> k in old(ofchannel) && old(ofchannel)[k].sock != s
      ensures forall k :: k in ofchannel ==> ofchannel[k] == old(ofchannel)[k]
    {
      ghost var before := ofchannel;
      var todo := ofchannel.Keys;
      while todo != {}
        invariant todo <= before.Keys
        invariant ofchannel == map k | k in before && (k in todo || before[k].sock != s) :: before[k]
        decreases todo
      {
        var k :| k in todo;
        todo := todo - {k};
        if ofchannel[k].sock == s {
          ofchannel := ofchannel - {k};
        }
      }
    }

    /** Reverse lookup: which channel does this socket carry? */
    method FindChannelKey(s: Fd) returns (r: Option<ChanKey>)
      ensures r.Some? ==> r.value in ofchannel && ofchannel[r.value].sock == s
      ensures r.None? <==> forall k :: k in ofchannel ==> ofchannel[k].sock != s
      ensures ChannelsMatch(Snapshot().t) ==>
                forall k :: k in ofchannel && ofchannel[k].sock == s ==> r == Some(k)
    {
      var todo := ofchannel.Keys;
      while todo != {}
        invariant todo <= ofchannel.Keys
        invariant forall k :: k in ofchannel && ofchannel[k].sock == s ==> k in todo
        decreases todo
      {
        var k :| k in todo;
        if ofchannel[k].sock == s {
          return Some(k);
        }
        todo := todo - {k};
      }
      r := None;
    }

    /** del_ofdev_rwsocket_lockfree. */
    method DelDeviceSocket(d: DevKey, s: Fd)
      modifies `ofdev
      ensures ofdev == if d in old(ofdev) then old(ofdev)[d := Remove(old(ofdev)[d], s)] else old(ofdev)
    {
      if d !in ofdev {
        return;
      }
      var l, k := ofdev[d], 0;
      while k < |l| && l[k] != s
        invariant 0 <= k <= |l|
        invariant forall i :: 0 <= i < k ==> l[i] != s
      {
        k := k + 1;
      }
      if k < |l| {
        FirstMatch(l, s, k);
        ofdev := ofdev[d := l[..k] + l[k + 1..]];
      }
    }

    /**
     cc_of_dev_register: a bad version is refused; a listen socket that cannot be opened is reported
     although the table entry stays. A key that is registered again while it has sockets loses them
     from its list, and that alone breaks the invariant.
     */
    method RegisterDevice(d: DevKey, versionOk: bool, listenOk: bool) returns (status: Status)
      modifies `ofdev
      ensures old(Inv(Snapshot())) ==>
                (Inv(Snapshot()) <==> !versionOk || MayRegister(old(Snapshot().t), d))
      ensures Snapshot().t == if versionOk then Register(old(Snapshot().t), d) else old(Snapshot().t)
      ensures versionOk ==> ofdev.Keys == old(ofdev.Keys) + {d} && ofdev[d] == []
      ensures versionOk ==> forall e :: e in old(ofdev) && e != d ==> ofdev[e] == old(ofdev)[e]
      ensures !versionOk ==> ofdev == old(ofdev)
      ensures status == if !versionOk then EINVAL else if role == Controller && !listenOk then EMISC else OK
    {
      if !versionOk {
        return EINVAL;
      }
      RegisterAddsOne(Snapshot().t, d);
      if Inv(Snapshot()) {
        RegisterKeepsInvIff(Snapshot().t, d);
        PoolInvSeesSocketsOnly(Snapshot(), Register(Snapshot().t, d));
      }
      ofdev := ofdev[d := []];
      status := if role == Controller && !listenOk then EMISC else OK;
    }

    // -------------------------------------------------------------------------------------------
    // Opening and closing
    // -------------------------------------------------------------------------------------------

    /** atomic_add_upd_htbls_with_rwsocket_lockfree. */
    method AddToTables(s: Fd, d: DevKey, proto: Proto, m: MgrId, key: ChanKey) returns (status: Status)
      modifies `ofdev, `ofrw, `ofchannel
      ensures (Snapshot().t, status) == AddSocket(role, old(Snapshot().t), s, d, proto, m, key)
      ensures d in old(ofdev) ==>
                && status == OK
                && SocketAdded(old(Snapshot().t), Snapshot().t, s, RwInfo(Down, d, proto, m),
                               match role case Controller => ChanKey(s, s % 256) case Switch => key)
      ensures d !in old(ofdev) ==>
                status == EINVAL && ofrw == old(ofrw) - {s} && ofdev == old(ofdev) && ofchannel == old(ofchannel)
    {
      AddBinds(role, Snapshot().t, s, d, proto, m, key);
      ofrw := ofrw[s := RwInfo(Down, d, proto, m)];
      if d !in ofdev {
        ofrw := ofrw - {s};
        return EINVAL;
      }
      ofdev := ofdev[d := ofdev[d] + [s]];
      var k := if role == Controller then DummyKey(s) else key;
      ofchannel := ofchannel[k := ChanInfo(s, 0, Stats(0, 0, 0))];
      status := OK;
    }

    /** cc_add_sockfd_rw_pollthr_safe. */
    method OpenConn(s: Fd, d: DevKey, proto: Proto, key: ChanKey, m: MgrId, spawnOk: bool) returns (status: Status)
      requires Inv(Snapshot()) && s !in ofrw && m !in mgrs
      modifies this
      ensures Inv(Snapshot())
      ensures (Snapshot(), status) == Open(role, old(Snapshot()), s, d, proto, key, m, spawnOk)
      ensures var room := exists x :: x in old(mgrs) && old(mgrs)[x].numSockets < MAX_PER_THREAD_RWSOCKETS;
              status == if !room && !spawnOk then EMISC else if d !in old(ofdev) then EINVAL else OK
      ensures status == OK ==>
                var bound := match role case Controller => ChanKey(s, s % 256) case Switch => key;
                exists st1: State, k: MgrId ::
                  && Chosen(old(Snapshot()), st1, m, k) && pool == st1.pool && Watched(st1.mgrs, mgrs, k, s)
                  && SocketAdded(old(Snapshot().t), Snapshot().t, s, RwInfo(Down, d, proto, k), bound)
                  && SendTarget(Snapshot().t, bound.dpId, bound.auxId) == Some((s, k))
      ensures status != OK ==> Snapshot() == old(Snapshot())
                               || (pool == [m] + old(pool) && mgrs == old(mgrs)[m := Manager(0, [])]
                                   && Snapshot().t == old(Snapshot().t))
    {
      OpenOutcome(role, Snapshot(), s, d, proto, key, m, spawnOk);
      if Open(role, Snapshot(), s, d, proto, key, m, spawnOk).1 != OK {
        FailedOpenIsInert(role, Snapshot(), s, d, proto, key, m, spawnOk);
      }
      OpenKeepsInv(role, Snapshot(), s, d, proto, key, m, spawnOk);
      status := AddConn(s, d, proto, key, m, spawnOk);
    }

    method AddConn(s: Fd, d: DevKey, proto: Proto, key: ChanKey, m: MgrId, spawnOk: bool) returns (status: Status)
      modifies this
      ensures (Snapshot(), status) == Open(role, old(Snapshot()), s, d, proto, key, m, spawnOk)
    {
      var found := FindOrCreateThread(m, spawnOk);
      if found.None? || found.value !in mgrs {
        return EMISC;
      }
      status := AddToTables(s, d, proto, found.value, key);
      if status != OK {
        return;
      }
      mgrs := mgrs[found.value := ManagerAdd(mgrs[found.value], s, MAX_PER_THREAD_RWSOCKETS)];
    }

    /** tcp_close up to close(2), through cc_del_sockfd_rw_pollthr_lockfree. */
    method CloseConn(s: Fd) returns (status: Status)
      requires Inv(Snapshot())
      modifies this
      ensures Inv(Snapshot()) && (Snapshot(), status) == Close(old(Snapshot()), s)
      ensures s !in old(ofrw) ==> status == EHTBL && Snapshot() == old(Snapshot())
      ensures s in old(ofrw) ==>
                && status == OK && SocketGone(old(Snapshot().t), Snapshot().t, s)
                && Unwatched(old(mgrs), mgrs, old(ofrw)[s].mgr, s)
                && forall m :: m in pool <==> m in old(pool)
      ensures s in old(ofrw) ==> forall k :: k in old(ofchannel) && old(ofchannel)[k].sock != s ==>
                && SendTarget(old(Snapshot().t), k.dpId, k.auxId).Some?
                && SendTarget(Snapshot().t, k.dpId, k.auxId) == SendTarget(old(Snapshot().t), k.dpId, k.auxId)
    {
      if s !in ofrw {
        return EHTBL;
      }
      CloseKeepsInv(Snapshot(), s);
      CloseRegistered(s);
      status := OK;
    }

    /** cc_del_sockfd_rw_pollthr_lockfree for a socket whose manager is in the pool. */
    method CloseRegistered(s: Fd)
      requires s in ofrw && ofrw[s].mgr in mgrs && ofrw[s].mgr in pool
      modifies this
      ensures Snapshot() == Close(old(Snapshot()), s).0
    {
      var m := ofrw[s].mgr;
      mgrs := mgrs[m := ManagerDelete(mgrs[m], s)];
      if |pool| != 1 {
        var found := UnlinkManager(m);
        InsertManager(m);
      }
      DelFromTables(s);
    }

    /** Device list, socket table, channels, in that order. */
    method DelFromTables(s: Fd)
      modifies `ofdev, `ofrw, `ofchannel
      ensures Snapshot().t == DelSocket(old(Snapshot().t), s)
    {
      if s in ofrw {
        DelDeviceSocket(ofrw[s].dev, s);
      }
      ofrw := ofrw - {s};
      DelChannelsOf(s);
    }

    /** cc_of_destroy_channel; `closed` is the outcome of close(2). */
    method DestroyChannel(key: ChanKey, closed: bool) returns (status: Status)
      requires Inv(Snapshot())
      modifies this
      ensures Inv(Snapshot()) && Snapshot() == Destroy(old(Snapshot()), key).0
      ensures status == if key !in old(ofchannel) then EINVAL else if closed then OK else ESYS
      ensures key !in old(ofchannel) ==> Snapshot() == old(Snapshot())
      ensures key in old(ofchannel) ==>
                var s := old(ofchannel)[key].sock;
                && key !in ofchannel && SocketGone(old(Snapshot().t), Snapshot().t, s)
                && Unwatched(old(mgrs), mgrs, old(ofrw)[s].mgr, s)
    {
      DestroyOutcome(Snapshot(), key);
      if key !in ofchannel || ofchannel[key].sock !in ofrw {
        return EINVAL;
      }
      status := CloseConn(ofchannel[key].sock);
      if !closed {
        status := ESYS;
      }
    }

    /** cc_of_set_real_dpid_auxid. */
    method SetRealId(dp: U64, aux: U8, chosen: ChanKey) returns (status: Status)
      modifies `ofchannel
      ensures (Snapshot().t, status) == Rename(old(Snapshot().t), dp, aux, chosen)
      ensures status == EINVAL <==>
                ChanKey(dp, aux) !in old(ofchannel) && ChanKey(dp, dp % 256) !in old(ofchannel)
      ensures status == EINVAL ==> ofchannel == old(ofchannel)
      ensures status != EINVAL ==>
                && status == OK && chosen in ofchannel
                && ofchannel[chosen] == old(ofchannel)[if ChanKey(dp, aux) in old(ofchannel) then ChanKey(dp, aux)
                                                       else ChanKey(dp, dp % 256)]
      ensures status == OK ==> forall k :: k != chosen ==>
                && (k in ofchannel <==> k in old(ofchannel) && old(ofchannel)[k].sock != ToInt(dp))
                && (k in ofchannel ==> ofchannel[k] == old(ofchannel)[k])
    {
      RenameOutcome(Snapshot().t, dp, aux, chosen);
      var old' := ChanKey(dp, aux);
      if old' !in ofchannel {
        old' := ChanKey(dp, ToAux(dp));
        if old' !in ofchannel {
          return EINVAL;
        }
      }
      var info := ofchannel[old'];
      DelChannelsOf(ToInt(dp));
      ofchannel := ofchannel[chosen := info];
      status := OK;
    }

    /** cc_of_send_pkt up to the write into the data pipe. */
    method LookupSend(dp: U64, aux: U8) returns (r: Option<(Fd, MgrId)>)
      ensures r == SendTarget(Snapshot().t, dp, aux)
      ensures r.Some? ==>
                var k := if ChanKey(dp, aux) in ofchannel then ChanKey(dp, aux) else ChanKey(dp, dp % 256);
                k in ofchannel && r.value.0 == ofchannel[k].sock && r.value.0 in ofrw && r.value.1 == ofrw[r.value.0].mgr
      ensures Inv(Snapshot()) ==>
                && (r.None? <==> ChanKey(dp, aux) !in ofchannel && ChanKey(dp, ToAux(dp)) !in ofchannel)
                && (r.Some? ==> r.value.1 in mgrs && r.value.0 in mgrs[r.value.1].watched)
    {
      var k := ChanKey(dp, aux);
      if k !in ofchannel {
        k := ChanKey(dp, ToAux(dp));
        if k !in ofchannel {
          return None;
        }
      }
      var s := ofchannel[k].sock;
      r := if s in ofrw then Some((s, ofrw[s].mgr)) else None;
      if Inv(Snapshot()) {
        assert s in Group(Snapshot().t, ofrw[s].mgr);
        assert Counts(Snapshot().t, ofrw[s].mgr, mgrs[ofrw[s].mgr]);
        assert s in Elems(mgrs[ofrw[s].mgr].watched);
      }
    }

    // -------------------------------------------------------------------------------------------
    // Draining
    // -------------------------------------------------------------------------------------------

    /**
     cc_of_dev_free_lockfree: the cursor moves on before the close unlinks the current link. The
     invariant is what rules out the branch that repeats without advancing.
     */
    method DrainDevice(d: DevKey)
      requires Inv(Snapshot()) && d in ofdev
      modifies this
      ensures Inv(Snapshot()) && Snapshot() == Drain(old(Snapshot()), d)
      ensures Snapshot().t == Without(old(Snapshot().t), d)
      ensures ofdev == old(ofdev)[d := []]
      ensures forall s :: s in ofrw <==> s in old(ofrw) && old(ofrw)[s].dev != d
      ensures forall s :: s in ofrw ==> ofrw[s] == old(ofrw)[s]
      ensures forall k :: k in ofchannel <==> k in old(ofchannel) && old(ofrw)[old(ofchannel)[k].sock].dev != d
      ensures forall k :: k in ofchannel ==> ofchannel[k] == old(ofchannel)[k]
    {
      DrainKeepsInv(Snapshot(), d);
      var cursor := ofdev[d];
      while cursor != []
        invariant Inv(Snapshot()) && d in ofdev && ofdev[d] == cursor
        invariant CloseAll(Snapshot(), cursor) == Drain(old(Snapshot()), d)
        decreases |cursor|
      {
        var s := cursor[0];
        DrainStep(Snapshot().t, d);
        CloseStaysInv(Snapshot(), s);
        cursor := cursor[1..];
        var status := CloseConn(s);
      }
    }

    /** The device walk of cc_of_lib_free; a device whose listen socket fails to close stays listed. */
    method Shutdown(closeFails: set<DevKey>)
      requires Inv(Snapshot())
      modifies this
      ensures ofrw == map[] && ofchannel == map[]
      ensures ofdev.Keys == old(ofdev.Keys) * closeFails && Inv(Snapshot())
    {
      var todo := ofdev.Keys;
      while todo != {}
        invariant Inv(Snapshot()) && todo <= old(ofdev.Keys)
        invariant ofdev.Keys == todo + old(ofdev.Keys) * closeFails
        invariant Drained(Snapshot().t, old(ofdev.Keys) - todo)
        decreases todo
      {
        var d :| d in todo;
        todo := todo - {d};
        WalkOne(d, d in closeFails, old(ofdev.Keys) - todo - {d});
      }
      AllDrainedMeansEmpty(Snapshot().t, old(ofdev.Keys));
    }

    method WalkOne(d: DevKey, closeFails: bool, ghost done: set<DevKey>)
      requires Inv(Snapshot()) && d in ofdev && Drained(Snapshot().t, done)
      modifies this
      ensures Inv(Snapshot()) && Drained(Snapshot().t, done + {d})
      ensures ofdev.Keys == if closeFails then old(ofdev.Keys) else old(ofdev.Keys) - {d}
    {
      ghost var t := Snapshot().t;
      ShutdownOneDrains(t, d, closeFails, done);
      DrainIsExact(t, d);
      DrainDevice(d);
      if !closeFails {
        ghost var st := Snapshot();
        ofdev := ofdev - {d};
        PoolInvSeesSocketsOnly(st, Snapshot().t);
      }
    }
  }
}
