/**
 What can still happen after a call that closes sockets (src/cc_of_util.c, src/cc_of_lib.c,
 src/cc_pollthr_mgr.c): exactly which closes leave a future in which a worker aborts or a packet leaves
 on the wrong connection. The witnesses are runs of ordinary opens and sends.
 */
module Futures {
  import opened Lists
  import opened PollThread
  import opened Tables
  import opened Pool
  import opened Composition
  import opened Delivery
  import Lifecycle
  import Runs
  import Worker
  import Sends

  // ---------------------------------------------------------------------------------------------
  // Continuations
  // ---------------------------------------------------------------------------------------------

  ghost predicate Sound(sys: System) {
    (forall m :: m in sys.procs ==> !sys.procs[m].x.aborted) && Delivers(sys.log)
  }

  /** No orderly continuation aborts a worker or misdelivers a packet. */
  ghost predicate SafeFuture(role: Role, sys: System) {
    forall acts :: OrderlyRun(role, sys, acts) ==> Sound(Run(role, sys, acts))
  }

  /** Opens, registrations, sends and the steps of workers. */
  ghost predicate Harmless(a: Action) {
    a.Call? ==> a.call.DoOpen? || a.call.DoRegister?
  }

  ghost predicate AllHarmless(acts: seq<Action>) {
    forall i :: 0 <= i < |acts| ==> Harmless(acts[i])
  }

  lemma {:induction false} HarmlessIsOrderly(role: Role, sys: System, acts: seq<Action>)
    requires AllHarmless(acts)
    ensures OrderlyRun(role, sys, acts)
  {
    if acts != [] {
      HarmlessIsOrderly(role, sys, acts[..|acts| - 1]);
    }
  }

  ghost predicate Reaches(role: Role, sys: System, sys': System) {
    exists acts :: AllHarmless(acts) && Run(role, sys, acts) == sys'
  }

  lemma Stays(role: Role, sys: System)
    ensures Reaches(role, sys, sys)
  {
    assert Run(role, sys, []) == sys;
  }

  lemma Then(role: Role, sys: System, mid: System, a: Action)
    requires Reaches(role, sys, mid) && Harmless(a)
    ensures Reaches(role, sys, Step(role, mid, a))
  {
    var acts :| AllHarmless(acts) && Run(role, sys, acts) == mid;
    assert (acts + [a])[..|acts|] == acts;
    assert Run(role, sys, acts + [a]) == Step(role, mid, a);
  }

  lemma {:induction false} RunConcat(role: Role, sys: System, a: seq<Action>, b: seq<Action>)
    ensures Run(role, sys, a + b) == Run(role, Run(role, sys, a), b)
    decreases |b|
  {
    if b == [] {
      assert a + b == a;
    } else {
      var n := |b| - 1;
      RunConcat(role, sys, a, b[..n]);
      assert (a + b)[..|a + b| - 1] == a + b[..n];
    }
  }

  lemma Chain(role: Role, sys: System, mid: System, end: System)
    requires Reaches(role, sys, mid) && Reaches(role, mid, end)
    ensures Reaches(role, sys, end)
  {
    var a :| AllHarmless(a) && Run(role, sys, a) == mid;
    var b :| AllHarmless(b) && Run(role, mid, b) == end;
    RunConcat(role, sys, a, b);
    assert AllHarmless(a + b);
  }

  lemma UnsoundReached(role: Role, sys: System, bad: System)
    requires Reaches(role, sys, bad) && !Sound(bad)
    ensures !SafeFuture(role, sys)
  {
    var acts :| AllHarmless(acts) && Run(role, sys, acts) == bad;
    HarmlessIsOrderly(role, sys, acts);
  }

  lemma GoodIsSafe(role: Role, sys: System)
    requires Good(sys)
    ensures SafeFuture(role, sys)
  {
    forall acts | OrderlyRun(role, sys, acts) ensures Sound(Run(role, sys, acts)) {
      OrderlyRunKeepsGood(role, sys, acts);
      GoodIsSound(Run(role, sys, acts));
    }
  }

  lemma GoodIsSound(sys: System)
    requires Good(sys)
    ensures Sound(sys)
  {
    forall m | m in sys.procs ensures !sys.procs[m].x.aborted {
      assert Healthy(sys.procs[m]);
    }
  }

  // ---------------------------------------------------------------------------------------------
  // Steering an open to a thread
  // ---------------------------------------------------------------------------------------------

  /** The kernel can hand this number out next. */
  ghost predicate Unused(sys: System, f: Fd) {
    f !in sys.st.t.ofrw && forall m :: m in sys.procs ==> f !in sys.procs[m].pipes
  }

  ghost predicate Spare(sys: System, fds: seq<Fd>) {
    NoDup(fds) && forall f :: f in fds ==> Unused(sys, f)
  }

  /** An open under the socket's own dummy id; the pipes would be for a thread that is not needed. */
  function PlainOpen(f: Fd, d: DevKey, m: MgrId): Action {
    Call(Runs.DoOpen(f, d, TCP, DummyKey(f), m, true), [], -1, -2)
  }

  lemma PlainOpenAllowed(sys: System, f: Fd, d: DevKey)
    requires Inv(sys) && Unused(sys, f)
    ensures Allowed(sys, PlainOpen(f, d, Above(sys.st.pool)))
  {
    assert Above(sys.st.pool) !in sys.st.pool;
  }

  lemma PlainOpenState(role: Role, st: Lifecycle.State, f: Fd, d: DevKey, k: MgrId, m: MgrId)
    requires d in st.t.ofdev && Find(st.pool, st.mgrs) == Some(k) && k in st.mgrs
    ensures var (st', status) := Lifecycle.Open(role, st, f, d, TCP, DummyKey(f), m, true);
            && status == OK && st'.pool == st.pool
            && st'.mgrs == st.mgrs[k := ManagerAdd(st.mgrs[k], f, MAX_PER_THREAD_RWSOCKETS)]
            && st'.t.ofrw.Keys == st.t.ofrw.Keys + {f} && st'.t.ofdev.Keys == st.t.ofdev.Keys
            && SendTarget(st'.t, DummyKey(f).dpId, DummyKey(f).auxId) == Some((f, k))
  {
    NewKeyLeadsThere(AddSocket(role, st.t, f, d, TCP, k, DummyKey(f)).0, DummyKey(f));
  }

  /** With room in the pool, an open of f lands on the thread the walk finds, and its channel leads there. */
  lemma OpenLands(role: Role, sys: System, f: Fd, d: DevKey, k: MgrId)
    requires Inv(sys) && Unused(sys, f)
    requires d in sys.st.t.ofdev && Find(sys.st.pool, sys.st.mgrs) == Some(k) && k in sys.st.mgrs
    ensures var sys' := Step(role, sys, PlainOpen(f, d, Above(sys.st.pool)));
            && sys'.st.pool == sys.st.pool
            && sys'.st.mgrs == sys.st.mgrs[k := ManagerAdd(sys.st.mgrs[k], f, MAX_PER_THREAD_RWSOCKETS)]
            && sys'.procs == Tell(sys.procs, k, AddOf(f)) && sys'.log == sys.log + [Sends.Added(f)]
            && sys'.st.t.ofrw.Keys == sys.st.t.ofrw.Keys + {f} && sys'.st.t.ofdev.Keys == sys.st.t.ofdev.Keys
            && SendTarget(sys'.st.t, DummyKey(f).dpId, DummyKey(f).auxId) == Some((f, k))
  {
    PlainOpenAllowed(sys, f, d);
    PlainOpenState(role, sys.st, f, d, k, Above(sys.st.pool));
  }

  /** Free places in the pool. */
  function TotalRoom(pool: seq<MgrId>, mgrs: Managers): int {
    if pool == [] then 0 else Avail(mgrs, pool[0]) + TotalRoom(pool[1..], mgrs)
  }

  lemma {:induction false} RoomBounds(pool: seq<MgrId>, mgrs: Managers)
    requires Roomy(mgrs)
    ensures 0 <= TotalRoom(pool, mgrs) <= MAX_PER_THREAD_RWSOCKETS * |pool|
    ensures forall i :: 0 <= i < |pool| ==> Avail(mgrs, pool[i]) <= TotalRoom(pool, mgrs)
  {
    if pool != [] {
      RoomBounds(pool[1..], mgrs);
      assert forall i :: 1 <= i < |pool| ==> pool[i] == pool[1..][i - 1];
    }
  }

  lemma {:induction false} RoomElsewhere(pool: seq<MgrId>, mgrs: Managers, k: MgrId, mgr: Manager)
    requires k !in pool
    ensures TotalRoom(pool, mgrs[k := mgr]) == TotalRoom(pool, mgrs)
  {
    if pool != [] {
      RoomElsewhere(pool[1..], mgrs, k, mgr);
    }
  }

  lemma {:induction false} RoomShrinks(pool: seq<MgrId>, mgrs: Managers, k: MgrId, mgr: Manager)
    requires NoDup(pool) && k in pool && k in mgrs
    requires mgr.numSockets == mgrs[k].numSockets + 1 <= MAX_PER_THREAD_RWSOCKETS
    ensures TotalRoom(pool, mgrs[k := mgr]) == TotalRoom(pool, mgrs) - 1
  {
    if pool[0] == k {
      assert k !in pool[1..];
      RoomElsewhere(pool[1..], mgrs, k, mgr);
    } else {
      RoomShrinks(pool[1..], mgrs, k, mgr);
    }
  }

  /** Enough descriptors to fill every thread. */
  ghost predicate Usable(sys: System, fds: seq<Fd>) {
    Inv(sys) && Spare(sys, fds) && TotalRoom(sys.st.pool, sys.st.mgrs) <= |fds|
  }

  lemma FindsRoom(st: Lifecycle.State, m: MgrId)
    requires Lifecycle.Inv(st) && m in st.mgrs && Avail(st.mgrs, m) > 0
    ensures Find(st.pool, st.mgrs).Some? && Find(st.pool, st.mgrs).value in st.mgrs
    ensures Avail(st.mgrs, Find(st.pool, st.mgrs).value) > 0
    ensures TotalRoom(st.pool, st.mgrs) > 0
  {
    Lifecycle.RoomyPool(st);
    FindIsTightest(st.pool, st.mgrs);
    RoomBounds(st.pool, st.mgrs);
    assert m in st.pool;
    var i :| 0 <= i < |st.pool| && st.pool[i] == m;
    if Find(st.pool, st.mgrs).Some? {
      assert Find(st.pool, st.mgrs).value in st.pool;
    }
  }

  lemma RoomAfterOpen(st: Lifecycle.State, f: Fd, k: MgrId)
    requires Lifecycle.Inv(st) && k in st.mgrs && Avail(st.mgrs, k) > 0
    ensures TotalRoom(st.pool, st.mgrs[k := ManagerAdd(st.mgrs[k], f, MAX_PER_THREAD_RWSOCKETS)])
         == TotalRoom(st.pool, st.mgrs) - 1
  {
    assert Lifecycle.Counts(st.t, k, st.mgrs[k]);
    assert k in st.pool;
    RoomShrinks(st.pool, st.mgrs, k, ManagerAdd(st.mgrs[k], f, MAX_PER_THREAD_RWSOCKETS));
  }

  lemma StaysSpare(sys: System, sys': System, fds: seq<Fd>, k: MgrId)
    requires Spare(sys, fds) && fds != [] && sys'.st.t.ofrw.Keys == sys.st.t.ofrw.Keys + {fds[0]}
    requires sys'.procs == Tell(sys.procs, k, AddOf(fds[0]))
    ensures Spare(sys', fds[1..])
  {
    assert forall i :: 0 <= i < |fds| - 1 ==> fds[1..][i] == fds[i + 1];
    assert fds[0] !in fds[1..];
    forall f | f in fds[1..] ensures Unused(sys', f) {
      assert Unused(sys, f);
    }
  }

  /** sys' is sys with f opened on thread k. */
  ghost predicate OpenedOn(sys: System, sys': System, f: Fd, k: MgrId) {
    && k in sys.st.mgrs && sys'.st.pool == sys.st.pool
    && sys'.st.mgrs == sys.st.mgrs[k := ManagerAdd(sys.st.mgrs[k], f, MAX_PER_THREAD_RWSOCKETS)]
    && sys'.procs == Tell(sys.procs, k, AddOf(f)) && sys'.log == sys.log + [Sends.Added(f)]
    && sys'.st.t.ofrw.Keys == sys.st.t.ofrw.Keys + {f} && sys'.st.t.ofdev.Keys == sys.st.t.ofdev.Keys
    && SendTarget(sys'.st.t, DummyKey(f).dpId, DummyKey(f).auxId) == Some((f, k))
  }

  /** An unused descriptor is opened wherever the walk puts it. */
  lemma OpenNext(role: Role, sys: System, d: DevKey, f: Fd, k: MgrId) returns (sys': System)
    requires Inv(sys) && Unused(sys, f) && d in sys.st.t.ofdev
    requires Find(sys.st.pool, sys.st.mgrs) == Some(k) && k in sys.st.mgrs
    ensures Inv(sys') && Reaches(role, sys, sys') && OpenedOn(sys, sys', f, k)
  {
    var a := PlainOpen(f, d, Above(sys.st.pool));
    OpenLands(role, sys, f, d, k);
    sys' := Step(role, sys, a);
    StepKeepsInv(role, sys, a);
    Stays(role, sys);
    Then(role, sys, sys, a);
  }

  lemma OneLess(sys: System, sys': System, fds: seq<Fd>, k: MgrId)
    requires Usable(sys, fds) && fds != [] && OpenedOn(sys, sys', fds[0], k) && Inv(sys')
    requires Avail(sys.st.mgrs, k) > 0
    ensures Usable(sys', fds[1..])
  {
    StaysSpare(sys, sys', fds, k);
    RoomAfterOpen(sys.st, fds[0], k);
  }

  /** m is as it was, and every number not opened is as unused as it was. */
  ghost predicate Untouched(sys: System, sys': System, m: MgrId, fds: seq<Fd>) {
    && m in sys'.st.mgrs && m in sys.st.mgrs && sys'.st.mgrs[m] == sys.st.mgrs[m]
    && m in sys'.procs && m in sys.procs && sys'.procs[m] == sys.procs[m]
    && forall f :: Unused(sys, f) && f !in fds ==> Unused(sys', f)
  }

  lemma OthersUntouched(sys: System, sys': System, fds: seq<Fd>, k: MgrId, m: MgrId)
    requires fds != [] && OpenedOn(sys, sys', fds[0], k) && k != m && m in sys.st.mgrs && m in sys.procs
    ensures Untouched(sys, sys', m, fds)
  {
    forall f | Unused(sys, f) && f !in fds ensures Unused(sys', f) {
      assert f != fds[0];
    }
  }

  lemma UntouchedTwice(sys: System, mid: System, sys': System, m: MgrId, fds: seq<Fd>)
    requires fds != [] && Untouched(sys, mid, m, fds) && Untouched(mid, sys', m, fds[1..])
    ensures Untouched(sys, sys', m, fds)
  {
  }

  lemma ThreadOfManager(sys: System, m: MgrId)
    requires Inv(sys) && m in sys.st.mgrs
    ensures m in sys.procs
  {
  }

  /** Others are filled until the walk arrives at m, which nothing has touched. */
  lemma {:induction false} Approach(role: Role, sys: System, m: MgrId, d: DevKey, fds: seq<Fd>)
    returns (sys': System, fds': seq<Fd>)
    requires Usable(sys, fds) && m in sys.st.mgrs && Avail(sys.st.mgrs, m) > 0 && d in sys.st.t.ofdev
    ensures Usable(sys', fds') && Reaches(role, sys, sys') && d in sys'.st.t.ofdev
    ensures Find(sys'.st.pool, sys'.st.mgrs) == Some(m) && Untouched(sys, sys', m, fds)
    decreases |fds|
  {
    FindsRoom(sys.st, m);
    ThreadOfManager(sys, m);
    var k := Find(sys.st.pool, sys.st.mgrs).value;
    if k == m {
      sys', fds' := sys, fds;
      Stays(role, sys);
    } else {
      var sys1 := OpenNext(role, sys, d, fds[0], k);
      OneLess(sys, sys1, fds, k);
      OthersUntouched(sys, sys1, fds, k, m);
      sys', fds' := Approach(role, sys1, m, d, fds[1..]);
      Chain(role, sys, sys1, sys');
      UntouchedTwice(sys, sys1, sys', m, fds);
    }
  }

  /** n more entries behind the old ones, each at the slot of its own position. */
  ghost predicate Grown(p: Proc, p': Proc, n: nat) {
    && Sends.Live(p'.x) && p'.queue == p.queue
    && |p'.x.w.fdList| == |p.x.w.fdList| + n && p'.x.w.fdList[..|p.x.w.fdList|] == p.x.w.fdList
    && forall i :: |p.x.w.fdList| <= i < |p'.x.w.fdList| ==> p'.x.w.fdList[i].slot == i
  }

  lemma GrowsByOne(p: Proc, mgr: Manager, f: Fd)
    requires Sends.Live(p.x) && Realized(p, mgr) && f !in mgr.watched && f !in p.pipes
    requires mgr.numSockets != MAX_PER_THREAD_RWSOCKETS
    ensures Grown(p, Do(p, AddOf(f)), 1)
    ensures var l := Do(p, AddOf(f)).x.w.fdList; l[|l| - 1].fd == f
  {
    AddRealized(p, mgr, f);
    assert |Worker.Polled(p.x.w)| == |Worker.Names(p.x.w.fdList)|;
  }

  lemma GrownTwice(p: Proc, q: Proc, r: Proc, a: nat, b: nat)
    requires Grown(p, q, a) && Grown(q, r, b)
    ensures Grown(p, r, a + b)
  {
    var n := |p.x.w.fdList|;
    assert r.x.w.fdList[..n] == r.x.w.fdList[..n + a][..n];
    forall i | n <= i < |r.x.w.fdList| ensures r.x.w.fdList[i].slot == i {
      if i < n + a {
        assert r.x.w.fdList[..n + a][i] == r.x.w.fdList[i];
      }
    }
  }

  lemma OpenGrows(sys: System, sys': System, f: Fd, m: MgrId)
    requires Inv(sys) && Unused(sys, f) && OpenedOn(sys, sys', f, m)
    requires Find(sys.st.pool, sys.st.mgrs) == Some(m) && Sends.Live(sys.procs[m].x)
    ensures m in sys'.st.mgrs && sys'.st.mgrs[m].numSockets == sys.st.mgrs[m].numSockets + 1
    ensures Grown(sys.procs[m], sys'.procs[m], 1)
    ensures var l := sys'.procs[m].x.w.fdList; l[|l| - 1].fd == f
  {
    RoomForOneMore(sys.st, f, m);
    Lifecycle.RoomyPool(sys.st);
    assert Realized(sys.procs[m], sys.st.mgrs[m]);
    GrowsByOne(sys.procs[m], sys.st.mgrs[m], f);
  }

  /** m has n more sockets, the last of them f, whose channel leads to m. */
  ghost predicate Filled(role: Role, sys: System, sys': System, m: MgrId, n: nat, f: Fd) {
    && Reaches(role, sys, sys') && m in sys.procs && m in sys'.procs && Grown(sys.procs[m], sys'.procs[m], n)
    && (var l := sys'.procs[m].x.w.fdList; l != [] && l[|l| - 1].fd == f)
    && SendTarget(sys'.st.t, DummyKey(f).dpId, DummyKey(f).auxId) == Some((f, m))
  }

  /** One more socket on m itself. */
  lemma OpenOn(role: Role, sys: System, m: MgrId, d: DevKey, fds: seq<Fd>) returns (sys': System, f: Fd, fds': seq<Fd>)
    requires Usable(sys, fds) && m in sys.st.mgrs && Avail(sys.st.mgrs, m) > 0 && d in sys.st.t.ofdev
    requires m in sys.procs && Sends.Live(sys.procs[m].x)
    ensures Usable(sys', fds') && d in sys'.st.t.ofdev && m in sys'.st.mgrs
    ensures sys'.st.mgrs[m].numSockets == sys.st.mgrs[m].numSockets + 1
    ensures Filled(role, sys, sys', m, 1, f)
  {
    var sys1, fds1 := Approach(role, sys, m, d, fds);
    FindsRoom(sys1.st, m);
    f, fds' := fds1[0], fds1[1..];
    sys' := OpenNext(role, sys1, d, f, m);
    OneLess(sys1, sys', fds1, m);
    Chain(role, sys, sys1, sys');
    OpenGrows(sys1, sys', f, m);
  }

  lemma FilledFurther(role: Role, sys: System, mid: System, sys': System, m: MgrId, a: nat, b: nat, g: Fd, f: Fd)
    requires Filled(role, sys, mid, m, a, g) && Filled(role, mid, sys', m, b, f)
    ensures Filled(role, sys, sys', m, a + b, f)
  {
    Chain(role, sys, mid, sys');
    GrownTwice(sys.procs[m], mid.procs[m], sys'.procs[m], a, b);
  }

  lemma {:induction false} FillThread(role: Role, sys: System, m: MgrId, n: nat, d: DevKey, fds: seq<Fd>)
    returns (sys': System, f: Fd)
    requires Usable(sys, fds) && m in sys.st.mgrs && d in sys.st.t.ofdev
    requires m in sys.procs && Sends.Live(sys.procs[m].x)
    requires 0 < n && sys.st.mgrs[m].numSockets + n <= MAX_PER_THREAD_RWSOCKETS
    ensures Inv(sys') && Filled(role, sys, sys', m, n, f)
    decreases n
  {
    var g, fds';
    sys', g, fds' := OpenOn(role, sys, m, d, fds);
    f := g;
    if n > 1 {
      var sys1 := sys';
      sys', f := FillThread(role, sys1, m, n - 1, d, fds');
      FilledFurther(role, sys, sys1, sys', m, 1, n - 1, g, f);
    }
  }

  /** There is a device to open for, or one can be registered. */
  lemma SomeDevice(role: Role, sys: System, fds: seq<Fd>) returns (sys': System, d: DevKey)
    requires Usable(sys, fds)
    ensures Usable(sys', fds) && Reaches(role, sys, sys') && d in sys'.st.t.ofdev
    ensures sys'.procs == sys.procs && sys'.st.mgrs == sys.st.mgrs && sys'.log == sys.log
    ensures sys'.st.t.ofrw == sys.st.t.ofrw
  {
    if sys.st.t.ofdev == map[] {
      d := DevKey(0, 0, 0);
      var a := Call(Runs.DoRegister(d), [], -1, -2);
      sys' := Step(role, sys, a);
      StepKeepsInv(role, sys, a);
      Stays(role, sys);
      Then(role, sys, sys, a);
    } else {
      d :| d in sys.st.t.ofdev;
      sys' := sys;
      Stays(role, sys);
    }
  }

  // ---------------------------------------------------------------------------------------------
  // A message that outlives its socket
  // ---------------------------------------------------------------------------------------------

  /** The worker reads its data pipe empty. */
  ghost function TakeAll(p: Proc): Proc
    decreases |p.queue|
  {
    if p.queue == [] then p else TakeAll(TakeOne(p))
  }

  ghost function TakenAll(sys: System, m: MgrId): System
    requires m in sys.procs
  {
    sys.(procs := sys.procs[m := TakeAll(sys.procs[m])])
  }

  lemma {:induction false} TakeAllReached(role: Role, sys: System, m: MgrId)
    requires m in sys.procs
    ensures Reaches(role, sys, TakenAll(sys, m))
    decreases |sys.procs[m].queue|
  {
    Stays(role, sys);
    if sys.procs[m].queue == [] {
      assert TakenAll(sys, m) == sys;
    } else {
      var sys1 := Step(role, sys, Take(m));
      Then(role, sys, sys, Take(m));
      TakeAllReached(role, sys1, m);
      assert TakenAll(sys1, m) == TakenAll(sys, m);
      Chain(role, sys, sys1, TakenAll(sys, m));
    }
  }

  /** Reading changes packets and flags only. */
  lemma {:induction false} TakeAllKeeps(p: Proc)
    ensures TakeAll(p).queue == [] && TakeAll(p).pipes == p.pipes && TakeAll(p).x.w.fdList == p.x.w.fdList
    ensures Sends.Live(p.x) && !TakeAll(p).x.aborted ==> Sends.Live(TakeAll(p).x)
    decreases |p.queue|
  {
    if p.queue != [] {
      TakeAllKeeps(TakeOne(p));
      if Sends.Live(p.x) && TakeOne(p).x.aborted {
        AbortedStays(TakeOne(p));
      }
    }
  }

  lemma {:induction false} AbortedStays(p: Proc)
    requires p.x.aborted
    ensures TakeAll(p).x.aborted
    decreases |p.queue|
  {
    if p.queue != [] {
      AbortedStays(TakeOne(p));
    }
  }

  /** Reading the data pipe empty aborts exactly when some message is for a descriptor not listed. */
  lemma {:induction false} TakeAllAbortsIff(p: Proc)
    requires Sends.Live(p.x)
    ensures TakeAll(p).x.aborted <==> exists i :: 0 <= i < |p.queue| && p.queue[i].fd !in Worker.Names(p.x.w.fdList)
    decreases |p.queue|
  {
    if p.queue != [] {
      var p' := TakeOne(p);
      if p.queue[0].fd in Worker.Names(p.x.w.fdList) {
        TakeAllAbortsIff(p');
        assert forall i :: 0 < i < |p.queue| ==> p.queue[i] == p'.queue[i - 1];
      } else {
        AbortedStays(p');
      }
    }
  }

  lemma ReadAborts(role: Role, sys: System, m: MgrId)
    requires m in sys.procs && TakeAll(sys.procs[m]).x.aborted
    ensures !SafeFuture(role, sys)
  {
    TakeAllReached(role, sys, m);
    assert TakenAll(sys, m).procs[m].x.aborted;
    UnsoundReached(role, sys, TakenAll(sys, m));
  }

  // ---------------------------------------------------------------------------------------------
  // A drifted entry lends its connection
  // ---------------------------------------------------------------------------------------------

  function Longer(s: seq<Worker.Packet>): (n: nat)
    ensures forall i :: 0 <= i < |s| ==> |s[i]| < n
  {
    if s == [] then 0 else
      var n := Longer(s[1..]);
      if |s[0]| < n then n else |s[0]| + 1
  }

  lemma FreshPacket(s: seq<Worker.Packet>) returns (pk: Worker.Packet)
    ensures pk !in s
  {
    pk := seq(Longer(s), _ => 0);
  }

  lemma NotHandedOver(log: seq<Sends.Event>, f: int, g: int, pk: Worker.Packet)
    requires f != g && pk !in Sends.StoredSince(log, g)
    ensures !Delivers(log + [Sends.Stored(f, pk)] + [Sends.Sent(g, pk)])
  {
    var mid := log + [Sends.Stored(f, pk)];
    SinceAppend(log, Sends.Stored(f, pk), g);
    SinceAppend(mid, Sends.Sent(g, pk), g);
    var sent, handed := Sends.SentSince(mid + [Sends.Sent(g, pk)], g), Sends.StoredSince(mid + [Sends.Sent(g, pk)], g);
    assert sent[|sent| - 1] == pk;
    if Sends.Subsequence(sent, handed) {
      SubsequenceMember(sent, handed, pk);
    }
  }

  /** The entry at pos refers to the slot of the entry at q, which is at home there. */
  ghost predicate Borrows(p: Proc, pos: nat, q: nat) {
    && Sends.Live(p.x) && pos < q < |p.x.w.fdList|
    && p.x.w.fdList[pos].slot == q == p.x.w.fdList[q].slot && p.x.w.fdList[pos].canSend
  }

  lemma LentSlot(p: Proc, pos: nat, q: nat, pk: Worker.Packet)
    requires Borrows(p, pos, q)
    ensures var f, g := p.x.w.fdList[q].fd, p.x.w.fdList[pos].fd;
            var p1 := Do(p, Sends.Store(f, pk));
            var p2 := Do(p1, Sends.Poll(Sends.Everything(p.x.w.active)));
            f != g && News(p2, Do(p2, Sends.Visit(pos))) == [Sends.Sent(g, pk)]
  {
    var w := p.x.w;
    var f := w.fdList[q].fd;
    assert Worker.Names(w.fdList)[q] == f && Worker.Polled(w)[q] == f;
    assert Worker.Names(w.fdList)[pos] == w.fdList[pos].fd;
    IndexUnique(Worker.Names(w.fdList), f, q);
    var p1 := Do(p, Sends.Store(f, pk));
    var p2 := Do(p1, Sends.Poll(Sends.Everything(w.active)));
    assert p1.x.w.slots[q].events.pollOut && p1.x.w.pending[f] == pk;
    assert p2.x.w.slots[q].revents.pollOut && p2.x.w.slots[q].events.pollOut && p2.x.w.slots[q].fd == f;
    assert p2.x.w.fdList[pos] == w.fdList[pos];
  }

  /** A send on the channel of f, read by the worker at once. */
  lemma SendAndTake(role: Role, sys: System, m: MgrId, f: Fd, pk: Worker.Packet) returns (sys': System)
    requires m in sys.procs && sys.procs[m].queue == []
    requires SendTarget(sys.st.t, DummyKey(f).dpId, DummyKey(f).auxId) == Some((f, m))
    ensures Reaches(role, sys, sys') && m in sys'.procs && sys'.log == sys.log + [Sends.Stored(f, pk)]
    ensures sys'.procs[m].x == Do(sys.procs[m], Sends.Store(f, pk)).x
  {
    Stays(role, sys);
    var a := Send(DummyKey(f).dpId, DummyKey(f).auxId, pk);
    var mid := Step(role, sys, a);
    Then(role, sys, sys, a);
    assert mid.procs[m].queue == [Message(f, pk)];
    sys' := Step(role, mid, Take(m));
    Then(role, sys, mid, Take(m));
  }

  lemma PollAndVisit(role: Role, sys: System, m: MgrId, rs: seq<Worker.Flags>, pos: nat) returns (sys': System)
    requires m in sys.procs
    ensures Reaches(role, sys, sys')
    ensures var p := Do(sys.procs[m], Sends.Poll(rs)); sys'.log == sys.log + News(p, Do(p, Sends.Visit(pos)))
  {
    Stays(role, sys);
    var mid := Step(role, sys, Poll(m, rs));
    Then(role, sys, sys, Poll(m, rs));
    sys' := Step(role, mid, Visit(m, pos));
    Then(role, sys, mid, Visit(m, pos));
  }

  /** One send on the new channel is enough. */
  lemma LendReached(role: Role, sys: System, m: MgrId, pos: nat, q: nat, f: Fd, pk: Worker.Packet) returns (bad: System)
    requires m in sys.procs && sys.procs[m].queue == [] && Borrows(sys.procs[m], pos, q)
    requires sys.procs[m].x.w.fdList[q].fd == f
    requires SendTarget(sys.st.t, DummyKey(f).dpId, DummyKey(f).auxId) == Some((f, m))
    ensures Reaches(role, sys, bad)
    ensures bad.log == sys.log + [Sends.Stored(f, pk)] + [Sends.Sent(sys.procs[m].x.w.fdList[pos].fd, pk)]
  {
    var p, rs := sys.procs[m], Sends.Everything(sys.procs[m].x.w.active);
    LentSlot(p, pos, q, pk);
    var mid := SendAndTake(role, sys, m, f, pk);
    bad := PollAndVisit(role, mid, m, rs, pos);
    Chain(role, sys, mid, bad);
    SameNews(Do(mid.procs[m], Sends.Poll(rs)), Do(Do(p, Sends.Store(f, pk)), Sends.Poll(rs)), Sends.Visit(pos));
  }

  lemma BorrowerMisdelivers(role: Role, sys: System, m: MgrId, pos: nat, q: nat, f: Fd) returns (bad: System)
    requires m in sys.procs && sys.procs[m].queue == [] && Borrows(sys.procs[m], pos, q)
    requires sys.procs[m].x.w.fdList[q].fd == f
    requires SendTarget(sys.st.t, DummyKey(f).dpId, DummyKey(f).auxId) == Some((f, m))
    ensures Reaches(role, sys, bad) && !Sound(bad)
  {
    var g := sys.procs[m].x.w.fdList[pos].fd;
    var pk := FreshPacket(Sends.StoredSince(sys.log, g));
    bad := LendReached(role, sys, m, pos, q, f, pk);
    LentSlot(sys.procs[m], pos, q, pk);
    NotHandedOver(sys.log, f, g, pk);
  }

  lemma SameNews(p: Proc, q: Proc, a: Sends.Action)
    requires p.x == q.x
    ensures News(p, Do(p, a)) == News(q, Do(q, a))
  {
  }

  lemma GrownBorrows(p: Proc, p': Proc, n: nat)
    requires var l := p.x.w.fdList;
             l != [] && l[|l| - 1].canSend && l[|l| - 1].slot == |l| - 1 + n && Grown(p, p', n) && n > 0
    ensures Borrows(p', |p.x.w.fdList| - 1, |p'.x.w.fdList| - 1)
  {
    var l, l' := p.x.w.fdList, p'.x.w.fdList;
    assert l'[..|l|][|l| - 1] == l'[|l| - 1];
  }

  /** The last entry refers to a slot n places behind its own, and there is room to bring that into use. */
  ghost predicate DriftedBy(p: Proc, mgr: Manager, n: nat) {
    && Sends.Live(p.x) && p.queue == [] && 0 < n && mgr.numSockets + n <= MAX_PER_THREAD_RWSOCKETS
    && var l := p.x.w.fdList; l != [] && l[|l| - 1].canSend && l[|l| - 1].slot == |l| - 1 + n
  }

  lemma LendAfterFill(role: Role, sys: System, sys': System, m: MgrId, n: nat, f: Fd) returns (bad: System)
    requires m in sys.procs && m in sys.st.mgrs && DriftedBy(sys.procs[m], sys.st.mgrs[m], n)
    requires Filled(role, sys, sys', m, n, f)
    ensures Reaches(role, sys, bad) && !Sound(bad)
  {
    var p, p' := sys.procs[m], sys'.procs[m];
    GrownBorrows(p, p', n);
    bad := BorrowerMisdelivers(role, sys', m, |p.x.w.fdList| - 1, |p'.x.w.fdList| - 1, f);
    Chain(role, sys, sys', bad);
  }

  lemma FillAndLend(role: Role, sys: System, m: MgrId, n: nat, d: DevKey, fds: seq<Fd>) returns (bad: System)
    requires Usable(sys, fds) && m in sys.procs && m in sys.st.mgrs && d in sys.st.t.ofdev
    requires DriftedBy(sys.procs[m], sys.st.mgrs[m], n)
    ensures Reaches(role, sys, bad) && !Sound(bad)
  {
    var sys', f := FillThread(role, sys, m, n, d, fds);
    bad := LendAfterFill(role, sys, sys', m, n, f);
  }

  lemma DriftMisdelivers(role: Role, sys: System, m: MgrId, n: nat, fds: seq<Fd>)
    requires Usable(sys, fds) && m in sys.procs && m in sys.st.mgrs
    requires DriftedBy(sys.procs[m], sys.st.mgrs[m], n)
    ensures !SafeFuture(role, sys)
  {
    var sys1, d := SomeDevice(role, sys, fds);
    var bad := FillAndLend(role, sys1, m, n, d, fds);
    Chain(role, sys, sys1, bad);
    UnsoundReached(role, sys, bad);
  }

  // ---------------------------------------------------------------------------------------------
  // After a call that closes
  // ---------------------------------------------------------------------------------------------

  ghost predicate Closes(a: Action) {
    a.Call? && !a.call.DoOpen?
  }

  lemma AfterCloses(role: Role, sys: System, a: Action, m: MgrId)
    requires Good(sys) && Allowed(sys, a) && Closes(a) && m in sys.procs
    ensures var sys', l := Step(role, sys, a), Closed(sys.st.t, a.call);
            && Inv(sys') && m in sys'.procs && m in sys.st.mgrs && m in sys'.st.mgrs
            && Reduced(sys.procs[m], sys'.procs[m]) && Realized(sys'.procs[m], sys'.st.mgrs[m])
            && Worker.Names(sys'.procs[m].x.w.fdList)[2..] == Filter(sys.st.mgrs[m].watched, l)
            && (Worker.NoDrift(sys'.procs[m].x.w) <==> Suffix(sys.st.mgrs[m].watched, l))
  {
    StepKeepsInv(role, sys, a);
    CloseListDriftIff(sys, Closed(sys.st.t, a.call), m);
  }

  lemma ClosesKeepSpare(role: Role, sys: System, a: Action, fds: seq<Fd>)
    requires Inv(sys) && Allowed(sys, a) && Closes(a) && Spare(sys, fds)
    requires MAX_PER_THREAD_RWSOCKETS * |sys.st.pool| <= |fds|
    ensures Usable(Step(role, sys, a), fds)
    ensures forall f :: Unused(sys, f) ==> Unused(Step(role, sys, a), f)
  {
    var sys' := Step(role, sys, a);
    StepKeepsInv(role, sys, a);
    Runs.StepGrowsPool(role, sys.st, a.call);
    Lifecycle.RoomyPool(sys'.st);
    RoomBounds(sys'.st.pool, sys'.st.mgrs);
    ClosesKeepUnused(role, sys, a);
  }

  lemma ClosesKeepUnused(role: Role, sys: System, a: Action)
    requires Inv(sys) && Allowed(sys, a) && Closes(a)
    ensures forall f :: Unused(sys, f) ==> Unused(Step(role, sys, a), f)
  {
    var sys' := Step(role, sys, a);
    ClosedIsAll(role, sys.st, a.call);
    ClosesKeepRows(sys.st, Closed(sys.st.t, a.call));
    ClosesKeepPipes(sys, Closed(sys.st.t, a.call));
  }

  lemma {:induction false} ClosesKeepPipes(sys: System, l: seq<Fd>)
    ensures CloseList(sys, l).procs.Keys == sys.procs.Keys
    ensures forall m :: m in sys.procs ==> CloseList(sys, l).procs[m].pipes == sys.procs[m].pipes
    decreases |l|
  {
    if l != [] {
      ClosesKeepPipes(CloseOne(sys, l[0]), l[1..]);
    }
  }

  lemma ReadAfterReduce(p: Proc, mgr: Manager, p': Proc, mgr': Manager, l: seq<int>)
    requires Healthy(p) && Realized(p, mgr) && Reduced(p, p') && Realized(p', mgr')
    requires mgr'.watched == Filter(mgr.watched, l) && forall s :: s in mgr.watched ==> s !in p.pipes
    ensures TakeAll(p').x.aborted <==> exists s :: s in l && s in mgr.watched && Awaited(p.queue, s)
  {
    TakeAllAbortsIff(p');
    SplitNames(p', mgr');
    forall i | 0 <= i < |p.queue|
      ensures p.queue[i].fd in Worker.Names(p'.x.w.fdList) <==> p.queue[i].fd !in l
    {
      assert p.queue[i].fd in mgr.watched;
      FilterMember(mgr.watched, l, p.queue[i].fd);
    }
    if exists s :: s in l && s in mgr.watched && Awaited(p.queue, s) {
      var s :| s in l && s in mgr.watched && Awaited(p.queue, s);
      var i :| 0 <= i < |p.queue| && p.queue[i].fd == s;
      assert p'.queue[i].fd !in Worker.Names(p'.x.w.fdList);
    }
  }

  /** Reading a data pipe empty right after closes aborts exactly when a message for a closed socket waits. */
  lemma CloseThenReadAbortsIff(role: Role, sys: System, a: Action, m: MgrId)
    requires Good(sys) && Allowed(sys, a) && Closes(a) && m in sys.procs && m in sys.st.mgrs
    ensures m in Step(role, sys, a).procs && Sends.Live(Step(role, sys, a).procs[m].x)
    ensures TakeAll(Step(role, sys, a).procs[m]).x.aborted <==>
            exists s :: s in Closed(sys.st.t, a.call) && s in sys.st.mgrs[m].watched && Awaited(sys.procs[m].queue, s)
  {
    var sys' := Step(role, sys, a);
    AfterCloses(role, sys, a, m);
    Conserved(sys, m);
    forall s | s in sys.st.mgrs[m].watched ensures s !in sys.procs[m].pipes {
      NotAPipe(sys, m, s);
    }
    ReadAfterReduce(sys.procs[m], sys.st.mgrs[m], sys'.procs[m], sys'.st.mgrs[m], Closed(sys.st.t, a.call));
  }

  /** A closed socket with a message waiting: the read finds nobody. */
  lemma AwaitedIsUnsafe(role: Role, sys: System, a: Action, m: MgrId, s: Fd)
    requires Good(sys) && Allowed(sys, a) && Closes(a) && m in sys.procs && m in sys.st.mgrs
    requires s in Closed(sys.st.t, a.call) && s in sys.st.mgrs[m].watched && Awaited(sys.procs[m].queue, s)
    ensures !SafeFuture(role, Step(role, sys, a))
  {
    CloseThenReadAbortsIff(role, sys, a, m);
    ReadAborts(role, Step(role, sys, a), m);
  }

  lemma NotAPipe(sys: System, m: MgrId, s: int)
    requires Inv(sys) && m in sys.procs && s in sys.st.mgrs[m].watched
    ensures s !in sys.procs[m].pipes
  {
    WatchedIsRegistered(sys.st, m, s);
  }

  /** How far the last entry has drifted is how much room the closes made. */
  lemma DriftHasRoom(p: Proc, mgr: Manager, p': Proc, mgr': Manager) returns (n: nat)
    requires Healthy(p) && Realized(p, mgr) && Reduced(p, p') && Realized(p', mgr') && !Worker.NoDrift(p'.x.w)
    requires mgr.numSockets == |mgr.watched| <= MAX_PER_THREAD_RWSOCKETS && mgr'.numSockets == |mgr'.watched|
    ensures DriftedBy(p'.(queue := []), mgr', n)
  {
    var l, l' := p.x.w.fdList, p'.x.w.fdList;
    SplitNames(p, mgr);
    SplitNames(p', mgr');
    DriftShowsLast(p.x.w, p'.x.w);
    n := l'[|l'| - 1].slot - (|l'| - 1);
    assert |l| == 2 + |mgr.watched| && |l'| == 2 + |mgr'.watched|;
    assert l'[0].slot == 0 && l'[1].slot == 1;
  }

  lemma CloseDrifts(role: Role, sys: System, a: Action, m: MgrId) returns (n: nat)
    requires Good(sys) && Allowed(sys, a) && Closes(a) && m in sys.procs
    requires m in sys.st.mgrs && !Suffix(sys.st.mgrs[m].watched, Closed(sys.st.t, a.call))
    ensures var sys' := Step(role, sys, a);
            && m in sys'.procs && m in sys'.st.mgrs && Sends.Live(sys'.procs[m].x)
            && DriftedBy(sys'.procs[m].(queue := []), sys'.st.mgrs[m], n)
  {
    AfterCloses(role, sys, a, m);
    Conserved(sys, m);
    Conserved(Step(role, sys, a), m);
    n := DriftHasRoom(sys.procs[m], sys.st.mgrs[m], Step(role, sys, a).procs[m], Step(role, sys, a).st.mgrs[m]);
  }

  lemma DriftStays(p: Proc, mgr: Manager, n: nat)
    requires Sends.Live(p.x) && DriftedBy(p.(queue := []), mgr, n) && !TakeAll(p).x.aborted
    ensures DriftedBy(TakeAll(p), mgr, n)
  {
    TakeAllKeeps(p);
  }

  lemma DriftedAndReadIsUnsafe(role: Role, sys: System, m: MgrId, n: nat, fds: seq<Fd>)
    requires Usable(sys, fds) && m in sys.procs && m in sys.st.mgrs && Sends.Live(sys.procs[m].x)
    requires DriftedBy(TakeAll(sys.procs[m]), sys.st.mgrs[m], n)
    ensures !SafeFuture(role, TakenAll(sys, m))
  {
    TakenAllUsable(role, sys, m, fds);
    DriftMisdelivers(role, TakenAll(sys, m), m, n, fds);
  }

  /** Whatever still waits for the thread, its drift can be brought to bear. */
  lemma DriftedIsUnsafe(role: Role, sys: System, m: MgrId, n: nat, fds: seq<Fd>)
    requires Usable(sys, fds) && m in sys.procs && m in sys.st.mgrs && Sends.Live(sys.procs[m].x)
    requires DriftedBy(sys.procs[m].(queue := []), sys.st.mgrs[m], n)
    ensures !SafeFuture(role, sys)
  {
    if TakeAll(sys.procs[m]).x.aborted {
      ReadAborts(role, sys, m);
    } else {
      TakeAllReached(role, sys, m);
      DriftStays(sys.procs[m], sys.st.mgrs[m], n);
      DriftedAndReadIsUnsafe(role, sys, m, n, fds);
      LaterUnsafe(role, sys, TakenAll(sys, m));
    }
  }

  /** Closes that are not the newest leave a drifted entry, and with it a misdelivery. */
  lemma DriftIsUnsafe(role: Role, sys: System, a: Action, m: MgrId, fds: seq<Fd>)
    requires Good(sys) && Allowed(sys, a) && Closes(a) && m in sys.procs
    requires Spare(sys, fds) && MAX_PER_THREAD_RWSOCKETS * |sys.st.pool| <= |fds|
    requires m in sys.st.mgrs && !Suffix(sys.st.mgrs[m].watched, Closed(sys.st.t, a.call))
    ensures !SafeFuture(role, Step(role, sys, a))
  {
    ClosesKeepSpare(role, sys, a, fds);
    var n := CloseDrifts(role, sys, a, m);
    DriftedIsUnsafe(role, Step(role, sys, a), m, n, fds);
  }

  lemma Conserved(sys: System, m: MgrId)
    requires Inv(sys) && m in sys.procs
    ensures m in sys.st.mgrs && Realized(sys.procs[m], sys.st.mgrs[m])
    ensures sys.st.mgrs[m].numSockets == |sys.st.mgrs[m].watched| <= MAX_PER_THREAD_RWSOCKETS
  {
    assert Lifecycle.Counts(sys.st.t, m, sys.st.mgrs[m]);
  }

  lemma TakenAllUsable(role: Role, sys: System, m: MgrId, fds: seq<Fd>)
    requires Usable(sys, fds) && m in sys.procs
    ensures Usable(TakenAll(sys, m), fds)
  {
    TakeAllReached(role, sys, m);
    ReachesKeepsInv(role, sys, TakenAll(sys, m));
    TakeAllKeeps(sys.procs[m]);
    forall f | f in fds ensures Unused(TakenAll(sys, m), f) {
      assert Unused(sys, f);
    }
  }

  lemma ReachesKeepsInv(role: Role, sys: System, sys': System)
    requires Inv(sys) && Reaches(role, sys, sys')
    ensures Inv(sys')
  {
    var acts :| AllHarmless(acts) && Run(role, sys, acts) == sys';
    RunKeepsInv(role, sys, acts);
  }

  lemma {:induction false} OrderlyConcat(role: Role, sys: System, a: seq<Action>, b: seq<Action>)
    requires OrderlyRun(role, sys, a) && OrderlyRun(role, Run(role, sys, a), b)
    ensures OrderlyRun(role, sys, a + b)
    decreases |b|
  {
    if b == [] {
      assert a + b == a;
    } else {
      var n := |b| - 1;
      OrderlyConcat(role, sys, a, b[..n]);
      RunConcat(role, sys, a, b[..n]);
      assert (a + b)[..|a + b| - 1] == a + b[..n];
    }
  }

  /** A state from which a failing one can be reached is no safer than that one. */
  lemma LaterUnsafe(role: Role, sys: System, mid: System)
    requires Reaches(role, sys, mid) && !SafeFuture(role, mid)
    ensures !SafeFuture(role, sys)
  {
    var a :| AllHarmless(a) && Run(role, sys, a) == mid;
    var b :| OrderlyRun(role, mid, b) && !Sound(Run(role, mid, b));
    HarmlessIsOrderly(role, sys, a);
    OrderlyConcat(role, sys, a, b);
    RunConcat(role, sys, a, b);
  }

  /**
   Exactly the orderly steps are safe: after them no orderly continuation aborts a worker or misdelivers,
   and after any other one some run of opens, sends and worker steps does.
   */
  lemma StepIsSafeIffOrderly(role: Role, sys: System, a: Action, fds: seq<Fd>)
    requires Good(sys) && Allowed(sys, a)
    requires Spare(sys, fds) && MAX_PER_THREAD_RWSOCKETS * |sys.st.pool| <= |fds|
    ensures SafeFuture(role, Step(role, sys, a)) <==> Orderly(sys, a)
  {
    if Orderly(sys, a) {
      StepKeepsGood(role, sys, a);
      GoodIsSafe(role, Step(role, sys, a));
    } else {
      var l := Closed(sys.st.t, a.call);
      var m :| m in sys.procs && m in sys.st.mgrs &&
               !(Suffix(sys.st.mgrs[m].watched, l)
                 && forall s :: s in l && s in sys.st.mgrs[m].watched ==> !Awaited(sys.procs[m].queue, s));
      if Suffix(sys.st.mgrs[m].watched, l) {
        var s :| s in l && s in sys.st.mgrs[m].watched && Awaited(sys.procs[m].queue, s);
        AwaitedIsUnsafe(role, sys, a, m, s);
      } else {
        DriftIsUnsafe(role, sys, a, m, fds);
      }
    }
  }

  lemma SuffixOfOne(w: seq<int>, s: int)
    requires NoDup(w) && s in w
    ensures Suffix(w, [s]) <==> w[|w| - 1] == s
  {
    var i := IndexOf(w, s);
    assert w[i] in [s];
  }

  /** For a single close: safe exactly when it is the newest socket of its thread and nothing waits for it. */
  lemma CloseIsSafeIffClean(role: Role, sys: System, a: Action, s: Fd, m: MgrId, fds: seq<Fd>)
    requires Good(sys) && Allowed(sys, a) && a.Call? && a.call == Runs.DoClose(s)
    requires m in sys.procs && m in sys.st.mgrs && s in sys.st.mgrs[m].watched
    requires Spare(sys, fds) && MAX_PER_THREAD_RWSOCKETS * |sys.st.pool| <= |fds|
    ensures var w := sys.st.mgrs[m].watched;
            SafeFuture(role, Step(role, sys, a)) <==> w[|w| - 1] == s && !Awaited(sys.procs[m].queue, s)
  {
    StepIsSafeIffOrderly(role, sys, a, fds);
    assert Lifecycle.Counts(sys.st.t, m, sys.st.mgrs[m]);
    SuffixOfOne(sys.st.mgrs[m].watched, s);
    if Suffix(sys.st.mgrs[m].watched, [s]) && !Awaited(sys.procs[m].queue, s) {
      OnlyThatThread(sys, s, m);
    }
  }

  // ---------------------------------------------------------------------------------------------
  // The number of a closed socket, opened again before its message is read
  // ---------------------------------------------------------------------------------------------

  /** The thread that has s again, with the old messages for it still waiting. */
  lemma Reopened(p: Proc, mgr: Manager, p': Proc, mgr': Manager, s: Fd)
    requires Healthy(p) && Realized(p, mgr) && Reduced(p, p') && Worker.NoDrift(p'.x.w) && Realized(p', mgr')
    requires mgr'.watched == Filter(mgr.watched, [s]) && s !in p.pipes
    requires mgr'.numSockets != MAX_PER_THREAD_RWSOCKETS
    ensures var r := Do(p', AddOf(s)); Healthy(r) && r.queue == p.queue && s in Worker.Names(r.x.w.fdList)[2..]
  {
    var names, r := Worker.Names(p'.x.w.fdList), Do(p', AddOf(s));
    FilterMember(mgr.watched, [s], s);
    AddRealized(p', mgr', s);
    Sends.StepKeepsInv(p'.x, AddOf(s));
    Worker.AddKeepsConsistent(p'.x.w, AddOf(s).request);
    assert (names + [s])[2..] == names[2..] + [s];
    forall i | 0 <= i < |r.queue| ensures r.queue[i].fd in Worker.Names(r.x.w.fdList)[2..] {
      FilterMember(mgr.watched, [s], p.queue[i].fd);
    }
  }

  ghost predicate Armed(p: Proc, s: int) {
    exists i :: 0 <= i < |p.x.w.fdList| && i < |p.x.w.slots| && p.x.w.fdList[i].fd == s && p.x.w.slots[i].events.pollOut
  }

  lemma TakeArms(p: Proc, s: int)
    requires Healthy(p) && p.queue != []
    ensures Healthy(TakeOne(p)) && (p.queue[0].fd == s || Armed(p, s) ==> Armed(TakeOne(p), s))
  {
    var f, w, names := p.queue[0].fd, p.x.w, Worker.Names(p.x.w.fdList);
    assert f in names[2..];
    OtherHealthy(p, Sends.Store(f, p.queue[0].packet));
    TakeLogs(p);
    var w', k := TakeOne(p).x.w, IndexOf(names, f);
    assert w'.slots[k].events.pollOut && w'.fdList[k].fd == f;
    if Armed(p, s) {
      var i :| 0 <= i < |w.fdList| && i < |w.slots| && w.fdList[i].fd == s && w.slots[i].events.pollOut;
      assert w'.slots[i].events.pollOut && w'.fdList[i].fd == s;
    }
  }

  lemma {:induction false} TakeAllArms(p: Proc, s: int)
    requires Healthy(p)
    ensures Healthy(TakeAll(p)) && (Awaited(p.queue, s) || Armed(p, s) ==> Armed(TakeAll(p), s))
    decreases |p.queue|
  {
    if p.queue != [] {
      TakeArms(p, s);
      TakeAllArms(TakeOne(p), s);
      if Awaited(p.queue, s) && p.queue[0].fd != s {
        var i :| 0 <= i < |p.queue| && p.queue[i].fd == s;
        assert TakeOne(p).queue[i - 1].fd == s;
      }
    }
  }

  /** poll() reports its slot writable, and the packet that waited for the old socket leaves on the new one. */
  lemma ArmedSends(p: Proc, s: int) returns (i: nat, pk: Worker.Packet)
    requires Healthy(p) && SocketsSend(p.x.w.fdList) && Armed(p, s) && s in Worker.Names(p.x.w.fdList)[2..]
    ensures var p2 := Do(p, Sends.Poll(Sends.Everything(p.x.w.active))); News(p2, Do(p2, Sends.Visit(i))) == [Sends.Sent(s, pk)]
  {
    var w := p.x.w;
    i :| 0 <= i < |w.fdList| && i < |w.slots| && w.fdList[i].fd == s && w.slots[i].events.pollOut;
    var j := IndexOf(Worker.Names(w.fdList)[2..], s);
    assert Worker.Names(w.fdList)[2 + j] == s == Worker.Names(w.fdList)[i];
    assert Worker.Polled(w)[i] == s;
    assert Sends.Parked(p.x, w.slots[i].fd);
    pk := w.pending[s];
    var p2 := Do(p, Sends.Poll(Sends.Everything(w.active)));
    assert p2.x.w.slots[i].revents.pollOut && p2.x.w.slots[i].fd == s && p2.x.w.pending == w.pending;
  }

  lemma StaleLog(log: seq<Sends.Event>, s: int, pk: Worker.Packet)
    ensures !Delivers(log + [Sends.Added(s)] + [Sends.Sent(s, pk)])
  {
    var mid := log + [Sends.Added(s)];
    SinceAppend(log, Sends.Added(s), s);
    SinceAppend(mid, Sends.Sent(s, pk), s);
  }

  ghost predicate Misdelivers(role: Role, sys: System) {
    exists acts :: OrderlyRun(role, sys, acts) && !Delivers(Run(role, sys, acts).log)
  }

  lemma MisdeliveryReached(role: Role, sys: System, bad: System)
    requires Reaches(role, sys, bad) && !Delivers(bad.log)
    ensures Misdelivers(role, sys)
  {
    var acts :| AllHarmless(acts) && Run(role, sys, acts) == bad;
    HarmlessIsOrderly(role, sys, acts);
  }

  /** From the reopened state on: read, poll, visit. */
  lemma ReopenedMisdelivers(role: Role, sys: System, log: seq<Sends.Event>, m: MgrId, s: int) returns (bad: System)
    requires m in sys.procs && Healthy(sys.procs[m]) && sys.log == log + [Sends.Added(s)]
    requires SocketsSend(sys.procs[m].x.w.fdList) && s in Worker.Names(sys.procs[m].x.w.fdList)[2..]
    requires Awaited(sys.procs[m].queue, s)
    ensures Reaches(role, sys, bad) && !Delivers(bad.log)
  {
    var p := TakeAll(sys.procs[m]);
    TakeAllReached(role, sys, m);
    TakeAllKeeps(sys.procs[m]);
    TakeAllArms(sys.procs[m], s);
    var i, pk := ArmedSends(p, s);
    bad := PollAndVisit(role, TakenAll(sys, m), m, Sends.Everything(p.x.w.active), i);
    Chain(role, sys, TakenAll(sys, m), bad);
    StaleLog(log, s, pk);
  }

  /** The thread of s, approached and given s again. */
  lemma Reopen(role: Role, sys: System, m: MgrId, s: Fd, fds: seq<Fd>) returns (sys': System, log: seq<Sends.Event>)
    requires Usable(sys, fds) && Unused(sys, s) && s !in fds && m in sys.st.mgrs && Avail(sys.st.mgrs, m) > 0
    requires m in sys.procs
    ensures Reaches(role, sys, sys') && m in sys'.procs && sys'.procs[m] == Do(sys.procs[m], AddOf(s))
    ensures sys'.log == log + [Sends.Added(s)] && Inv(sys')
  {
    var sys1, d := SomeDevice(role, sys, fds);
    var sys2, fds2 := Approach(role, sys1, m, d, fds);
    sys' := OpenNext(role, sys2, d, s, m);
    log := sys2.log;
    Chain(role, sys1, sys2, sys');
    Chain(role, sys, sys1, sys');
  }

  /** A closed number is free again. */
  lemma ClosedIsUnused(role: Role, sys: System, a: Action, s: Fd)
    requires Inv(sys) && Allowed(sys, a) && a.Call? && a.call == Runs.DoClose(s) && s in sys.st.t.ofrw
    ensures Unused(Step(role, sys, a), s)
  {
    ClosesKeepPipes(sys, [s]);
    Lifecycle.CloseStaysInv(sys.st, s);
  }

  lemma CloseMakesRoom(role: Role, sys: System, a: Action, s: Fd, m: MgrId)
    requires Inv(sys) && Allowed(sys, a) && a.Call? && a.call == Runs.DoClose(s)
    requires m in sys.st.mgrs && s in sys.st.mgrs[m].watched
    ensures var sys' := Step(role, sys, a);
            m in sys'.st.mgrs && Avail(sys'.st.mgrs, m) > 0 && sys'.st.mgrs[m].numSockets != MAX_PER_THREAD_RWSOCKETS
  {
    WatchedIsRegistered(sys.st, m, s);
    CloseUpdates(sys.st, s);
    assert Lifecycle.Counts(sys.st.t, m, sys.st.mgrs[m]);
  }

  lemma AfterNewestClose(role: Role, sys: System, a: Action, s: Fd, m: MgrId)
    requires Good(sys) && Allowed(sys, a) && a.Call? && a.call == Runs.DoClose(s)
    requires m in sys.procs && m in sys.st.mgrs && s in sys.st.mgrs[m].watched && Suffix(sys.st.mgrs[m].watched, [s])
    ensures m in Step(role, sys, a).procs
    ensures var r := Do(Step(role, sys, a).procs[m], AddOf(s));
            Healthy(r) && r.queue == sys.procs[m].queue && s in Worker.Names(r.x.w.fdList)[2..]
  {
    var sys' := Step(role, sys, a);
    AfterCloses(role, sys, a, m);
    CloseMakesRoom(role, sys, a, s, m);
    Conserved(sys, m);
    NotAPipe(sys, m, s);
    Reopened(sys.procs[m], sys.st.mgrs[m], sys'.procs[m], sys'.st.mgrs[m], s);
  }

  /**
   The close of the newest socket of a thread leaves a future in which an earlier hand-over leaves on a
   later connection exactly when a message for the socket is still waiting: the kernel hands the number
   out again, the open lands on the same thread, and then the data pipe is read.
   */
  lemma StaleIffAwaited(role: Role, sys: System, a: Action, s: Fd, m: MgrId, fds: seq<Fd>)
    requires Good(sys) && Allowed(sys, a) && a.Call? && a.call == Runs.DoClose(s)
    requires m in sys.procs && m in sys.st.mgrs && s in sys.st.mgrs[m].watched && Suffix(sys.st.mgrs[m].watched, [s])
    requires Spare(sys, fds) && MAX_PER_THREAD_RWSOCKETS * |sys.st.pool| <= |fds|
    ensures Misdelivers(role, Step(role, sys, a)) <==> Awaited(sys.procs[m].queue, s)
  {
    var sys' := Step(role, sys, a);
    if Awaited(sys.procs[m].queue, s) {
      AfterNewestClose(role, sys, a, s, m);
      CloseMakesRoom(role, sys, a, s, m);
      ClosesKeepSpare(role, sys, a, fds);
      WatchedIsRegistered(sys.st, m, s);
      ClosedIsUnused(role, sys, a, s);
      assert Unused(sys, fds[0]) && s !in fds;
      var sys1, log := Reopen(role, sys', m, s, fds);
      Conserved(sys1, m);
      var bad := ReopenedMisdelivers(role, sys1, log, m, s);
      Chain(role, sys', sys1, bad);
      MisdeliveryReached(role, sys', bad);
    } else {
      OnlyThatThread(sys, s, m);
      StepIsSafeIffOrderly(role, sys, a, fds);
    }
  }

  lemma OnlyThatThread(sys: System, s: Fd, m: MgrId)
    requires Inv(sys) && m in sys.procs && m in sys.st.mgrs && s in sys.st.mgrs[m].watched
    requires Suffix(sys.st.mgrs[m].watched, [s]) && !Awaited(sys.procs[m].queue, s)
    ensures CleanCloses(sys, [s])
  {
    forall k | k in sys.procs && k in sys.st.mgrs && k != m
      ensures s !in sys.st.mgrs[k].watched
    {
      WatchedIsRegistered(sys.st, m, s);
      if s in sys.st.mgrs[k].watched {
        WatchedIsRegistered(sys.st, k, s);
      }
    }
  }
}
