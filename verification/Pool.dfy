/**
 The elastic pool of read/write poll threads (src/cc_of_util.c): a list of managers kept with the
 largest availability first. The list holds manager identities; their counters live beside it.
 */
module Pool {
  import opened Lists
  import opened PollThread
  import opened Tables

  const MAX_PER_THREAD_RWSOCKETS: nat := 200

  type Managers = map<MgrId, Manager>

  /** adp_thr_mgr_get_num_avail_sockfd: a uint32_t, so a counter above the maximum wraps around. */
  function Avail(mgrs: Managers, m: MgrId): int {
    if m !in mgrs then 0
    else if mgrs[m].numSockets <= MAX_PER_THREAD_RWSOCKETS then MAX_PER_THREAD_RWSOCKETS - mgrs[m].numSockets
    else MAX_PER_THREAD_RWSOCKETS - mgrs[m].numSockets + 0x1_0000_0000
  }

  /** A uint16_t counter above the maximum wraps the difference around, and nothing else does. */
  lemma AvailWraps(mgrs: Managers, m: MgrId)
    requires m in mgrs && mgrs[m].numSockets <= 65535
    ensures 0 <= Avail(mgrs, m) < 0x1_0000_0000
    ensures var d := Avail(mgrs, m) + mgrs[m].numSockets - MAX_PER_THREAD_RWSOCKETS; d == 0 || d == 0x1_0000_0000
  {
  }

  ghost predicate Sorted(pool: seq<MgrId>, mgrs: Managers) {
    forall i, j :: 0 <= i < j < |pool| ==> Avail(mgrs, pool[i]) >= Avail(mgrs, pool[j])
  }

  // ---------------------------------------------------------------------------------------------
  // Choosing a thread
  // ---------------------------------------------------------------------------------------------

  /** The walk stops at the last element before one with no room, or at the end. */
  function Walk(pool: seq<MgrId>, mgrs: Managers, i: nat): (k: nat)
    requires i < |pool|
    ensures i <= k < |pool|
    decreases |pool| - i
  {
    if i + 1 < |pool| && Avail(mgrs, pool[i + 1]) != 0 then Walk(pool, mgrs, i + 1) else i
  }

  /** The thread an add goes to, or None when a thread must be created first. */
  function Find(pool: seq<MgrId>, mgrs: Managers): Option<MgrId> {
    if pool == [] || Avail(mgrs, pool[0]) == 0 then None else Some(pool[Walk(pool, mgrs, 0)])
  }

  lemma {:induction false} WalkPasses(pool: seq<MgrId>, mgrs: Managers, i: nat)
    requires i < |pool| && Avail(mgrs, pool[i]) != 0
    ensures var k := Walk(pool, mgrs, i);
            && Avail(mgrs, pool[k]) != 0
            && (k + 1 < |pool| ==> Avail(mgrs, pool[k + 1]) == 0)
    decreases |pool| - i
  {
    if i + 1 < |pool| && Avail(mgrs, pool[i + 1]) != 0 {
      WalkPasses(pool, mgrs, i + 1);
    }
  }

  ghost predicate Roomy(mgrs: Managers) {
    forall m :: m in mgrs ==> mgrs[m].numSockets <= MAX_PER_THREAD_RWSOCKETS
  }

  /** A sorted pool yields a thread of least positive availability, and none only when all are full. */
  lemma FindIsTightest(pool: seq<MgrId>, mgrs: Managers)
    requires Sorted(pool, mgrs) && Roomy(mgrs)
    ensures match Find(pool, mgrs)
            case None => forall i :: 0 <= i < |pool| ==> Avail(mgrs, pool[i]) == 0
            case Some(m) =>
              && Avail(mgrs, m) > 0
              && m == pool[Walk(pool, mgrs, 0)]
              && (forall i :: Walk(pool, mgrs, 0) < i < |pool| ==> Avail(mgrs, pool[i]) == 0)
              && forall i :: 0 <= i < |pool| && Avail(mgrs, pool[i]) > 0 ==> Avail(mgrs, m) <= Avail(mgrs, pool[i])
  {
    assert forall m :: Avail(mgrs, m) >= 0;
    if Find(pool, mgrs).Some? {
      WalkPasses(pool, mgrs, 0);
      var k := Walk(pool, mgrs, 0);
      forall i | k < i < |pool| ensures Avail(mgrs, pool[i]) == 0 {
        assert i > k + 1 ==> Avail(mgrs, pool[k + 1]) >= Avail(mgrs, pool[i]);
      }
    }
  }

  /** Filling the chosen thread by one needs no re-sorting. */
  lemma FillKeepsSorted(pool: seq<MgrId>, mgrs: Managers, m: MgrId, mgr': Manager)
    requires Sorted(pool, mgrs) && Roomy(mgrs) && NoDup(pool)
    requires Find(pool, mgrs) == Some(m) && m in mgrs && mgr'.numSockets == mgrs[m].numSockets + 1
    ensures Sorted(pool, mgrs[m := mgr'])
  {
    FindIsTightest(pool, mgrs);
    WalkPasses(pool, mgrs, 0);
    var k, mgrs' := Walk(pool, mgrs, 0), mgrs[m := mgr'];
    forall i, j | 0 <= i < j < |pool| ensures Avail(mgrs', pool[i]) >= Avail(mgrs', pool[j]) {
      assert Avail(mgrs, pool[i]) >= Avail(mgrs, pool[j]);
      if i == k && k + 1 < j {
        assert Avail(mgrs, pool[k + 1]) >= Avail(mgrs, pool[j]);
      }
    }
  }

  /** A new empty thread in front of full ones leaves the pool sorted and is the one chosen next. */
  lemma PrependKeepsSorted(pool: seq<MgrId>, mgrs: Managers, m: MgrId)
    requires NoDup(pool) && m !in pool && forall i :: 0 <= i < |pool| ==> Avail(mgrs, pool[i]) == 0
    ensures var p, mgrs' := [m] + pool, mgrs[m := Manager(0, [])];
            Sorted(p, mgrs') && NoDup(p) && Find(p, mgrs') == Some(m)
  {
    var p, mgrs' := [m] + pool, mgrs[m := Manager(0, [])];
    forall i | 0 < i < |p| ensures p[i] == pool[i - 1] && Avail(mgrs', p[i]) == 0 {
      assert pool[i - 1] in pool;
    }
    assert Avail(mgrs', p[0]) == MAX_PER_THREAD_RWSOCKETS;
    assert Walk(p, mgrs', 0) == 0;
  }

  // ---------------------------------------------------------------------------------------------
  // Re-sorting after a delete
  // ---------------------------------------------------------------------------------------------

  /** Where g_list_insert_sorted puts m: before the first element with no more room than m. */
  function InsertPoint(pool: seq<MgrId>, mgrs: Managers, m: MgrId): (k: nat)
    ensures k <= |pool|
    ensures forall i :: 0 <= i < k ==> Avail(mgrs, pool[i]) > Avail(mgrs, m)
    ensures k < |pool| ==> Avail(mgrs, pool[k]) <= Avail(mgrs, m)
  {
    if pool == [] || Avail(mgrs, pool[0]) <= Avail(mgrs, m) then 0
    else 1 + InsertPoint(pool[1..], mgrs, m)
  }

  function InsertSorted(pool: seq<MgrId>, mgrs: Managers, m: MgrId): seq<MgrId> {
    var k := InsertPoint(pool, mgrs, m);
    pool[..k] + [m] + pool[k..]
  }

  lemma InsertIndex(rest: seq<MgrId>, mgrs: Managers, m: MgrId, i: nat)
    requires i <= |rest|
    ensures var p := InsertSorted(rest, mgrs, m); var k := InsertPoint(rest, mgrs, m);
            |p| == |rest| + 1 && p[i] == if i < k then rest[i] else if i == k then m else rest[i - 1]
  {
  }

  lemma InsertKeepsSorted(rest: seq<MgrId>, mgrs: Managers, m: MgrId)
    requires Sorted(rest, mgrs)
    ensures Sorted(InsertSorted(rest, mgrs, m), mgrs)
  {
    var k, p := InsertPoint(rest, mgrs, m), InsertSorted(rest, mgrs, m);
    forall i, j | 0 <= i < j < |p| ensures Avail(mgrs, p[i]) >= Avail(mgrs, p[j]) {
      InsertIndex(rest, mgrs, m, i);
      InsertIndex(rest, mgrs, m, j);
      if i == k && k < j - 1 {
        assert Avail(mgrs, rest[k]) >= Avail(mgrs, rest[j - 1]);
      }
    }
  }

  lemma InsertKeepsNoDup(rest: seq<MgrId>, mgrs: Managers, m: MgrId)
    requires NoDup(rest) && m !in rest
    ensures NoDup(InsertSorted(rest, mgrs, m))
  {
    var p := InsertSorted(rest, mgrs, m);
    forall i, j | 0 <= i < j < |p| ensures p[i] != p[j] {
      InsertIndex(rest, mgrs, m, i);
      InsertIndex(rest, mgrs, m, j);
    }
  }

  lemma InsertKeepsMembers(rest: seq<MgrId>, mgrs: Managers, m: MgrId, x: MgrId)
    ensures x in InsertSorted(rest, mgrs, m) <==> x == m || x in rest
  {
    var k := InsertPoint(rest, mgrs, m);
    assert rest == rest[..k] + rest[k..];
    assert x in rest <==> x in rest[..k] || x in rest[k..];
  }

  /** Moving one manager of a pool that is sorted apart from it restores order and loses nobody. */
  lemma ResortKeeps(pool: seq<MgrId>, mgrs: Managers, m: MgrId)
    requires NoDup(pool) && m in pool && Sorted(Remove(pool, m), mgrs)
    ensures var p := InsertSorted(Remove(pool, m), mgrs, m);
            && Sorted(p, mgrs) && NoDup(p) && |p| == |pool|
            && forall x :: x in p <==> x in pool
  {
    RemoveKeeps(pool, m);
    InsertKeepsSorted(Remove(pool, m), mgrs, m);
    InsertKeepsNoDup(Remove(pool, m), mgrs, m);
    forall x ensures x in InsertSorted(Remove(pool, m), mgrs, m) <==> x in pool {
      InsertKeepsMembers(Remove(pool, m), mgrs, m, x);
    }
  }

  lemma RemoveIndex(pool: seq<MgrId>, i: nat, j: nat)
    requires NoDup(pool) && i < |pool| && j < |pool| - 1
    ensures |Remove(pool, pool[i])| == |pool| - 1
    ensures Remove(pool, pool[i])[j] == pool[if j < i then j else j + 1]
  {
    IndexUnique(pool, pool[i], i);
  }

  /** Changing only m's counter leaves the others in order. */
  lemma OthersStaySorted(pool: seq<MgrId>, mgrs: Managers, m: MgrId, mgr': Manager)
    requires NoDup(pool) && Sorted(pool, mgrs) && m in pool
    ensures Sorted(Remove(pool, m), mgrs[m := mgr'])
  {
    var n, rest := IndexOf(pool, m), Remove(pool, m);
    RemoveKeeps(pool, m);
    forall i, j | 0 <= i < j < |rest| ensures Avail(mgrs[m := mgr'], rest[i]) >= Avail(mgrs[m := mgr'], rest[j]) {
      RemoveIndex(pool, n, i);
      RemoveIndex(pool, n, j);
      assert rest[i] in rest && rest[j] in rest;
    }
  }

  /** Unlinking m and inserting it again gives the same list exactly when no equal one stands before it. */
  lemma ResortRestoresIff(pool: seq<MgrId>, mgrs: Managers, i: nat)
    requires NoDup(pool) && Sorted(pool, mgrs) && i < |pool|
    ensures InsertSorted(Remove(pool, pool[i]), mgrs, pool[i]) == pool
            <==> i == 0 || Avail(mgrs, pool[i - 1]) > Avail(mgrs, pool[i])
  {
    var m, rest := pool[i], Remove(pool, pool[i]);
    IndexUnique(pool, m, i);
    var k := InsertPoint(rest, mgrs, m);
    assert rest[..i] == pool[..i] && rest[i..] == pool[i + 1..];
    InsertAt(rest, k, m, pool, i);
    if i > 0 {
      RemoveIndex(pool, i, i - 1);
    }
  }

  lemma InsertAt(rest: seq<MgrId>, k: nat, m: MgrId, pool: seq<MgrId>, i: nat)
    requires NoDup(pool) && i < |pool| && pool[i] == m && k <= |rest|
    requires i <= |rest| && rest[..i] == pool[..i] && rest[i..] == pool[i + 1..]
    ensures rest[..k] + [m] + rest[k..] == pool <==> k == i
  {
    assert (rest[..k] + [m] + rest[k..])[k] == m;
    assert pool == pool[..i] + [m] + pool[i + 1..];
  }
}
