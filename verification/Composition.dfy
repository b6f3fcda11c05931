/**
 The whole library at once: registry and pool (src/cc_of_util.c, src/cc_of_lib.c) drive the polling
 workers (src/cc_pollthr_mgr.c) with the same calls. An add or delete is applied by the worker before
 the call returns; a send only leaves a message in the thread's data pipe, read at some later time.
 */
module Composition {
  import opened Lists
  import opened PollThread
  import opened Tables
  import opened Pool
  import Lifecycle
  import Runs
  import Worker
  import Sends

  type Poller = x: Sends.World | Sends.Sane(x)
    witness Sends.World(Worker.State([], 0, [], map[]), [], true)

  datatype Message = Message(fd: Fd, packet: Worker.Packet)

  /** One poll thread: the worker, the messages waiting in its data pipe, and its two read ends. */
  datatype Proc = Proc(x: Poller, queue: seq<Message>, pipes: seq<int>)

  /**
   `log` is what the callers see: Added when a call opens a socket, Stored when a send hands a packet
   over to a data pipe, Sent when a worker puts one on a connection.
   */
  datatype System = System(st: Lifecycle.State, procs: map<MgrId, Proc>, log: seq<Sends.Event>)

  /** The read ends and the old memory of pollfd_arr are for a thread the call happens to create. */
  datatype Action =
    | Call(call: Runs.Action, memory: seq<Worker.Slot>, primary: int, data: int)
    | Send(dp: U64, aux: U8, packet: Worker.Packet)
    | Take(m: MgrId)
    | Poll(m: MgrId, revents: seq<Worker.Flags>)
    | Visit(m: MgrId, position: nat)

  ghost function Do(p: Proc, a: Sends.Action): Proc {
    Sends.StepKeepsSane(p.x, a);
    p.(x := Sends.Step(p.x, a))
  }

  ghost function Tell(procs: map<MgrId, Proc>, m: MgrId, a: Sends.Action): map<MgrId, Proc> {
    if m in procs then procs[m := Do(procs[m], a)] else procs
  }

  ghost function Booted(memory: seq<Worker.Slot>, primary: int, data: int): Proc
    requires primary != data
  {
    Sends.BootInv(memory, primary, data);
    Proc(Sends.Boot(memory, primary, data), [], [primary, data])
  }

  function AddOf(s: Fd): Sends.Action {
    Sends.Manage(Worker.Add(s, Worker.Socket, true, true))
  }

  /** The system after cc_find_or_create_rw_pollthr_safe. */
  ghost function WithNewThread(sys: System, a: Action): System
    requires a.Call? && a.call.DoOpen? && a.primary != a.data
  {
    if Find(sys.st.pool, sys.st.mgrs).Some? || !a.call.spawnOk then sys
    else sys.(st := Lifecycle.Spawn(sys.st, a.call.m),
              procs := sys.procs[a.call.m := Booted(a.memory, a.primary, a.data)])
  }

  ghost function OpenProcs(role: Role, sys: System, a: Action): map<MgrId, Proc>
    requires a.Call? && a.call.DoOpen? && a.primary != a.data
  {
    var c := a.call;
    var found := Lifecycle.FindOrCreate(sys.st, c.m, c.spawnOk).1;
    var procs := WithNewThread(sys, a).procs;
    if Opens(role, sys.st, c) && found.Some? then Tell(procs, found.value, AddOf(c.s)) else procs
  }

  predicate Opens(role: Role, st: Lifecycle.State, c: Runs.Action)
    requires c.DoOpen?
  {
    Lifecycle.Open(role, st, c.s, c.d, c.proto, c.key, c.m, c.spawnOk).1 == OK
  }

  ghost function CloseOne(sys: System, s: Fd): System {
    sys.(st := Lifecycle.Close(sys.st, s).0,
         procs := if s in sys.st.t.ofrw
                  then Tell(sys.procs, sys.st.t.ofrw[s].mgr, Sends.Manage(Worker.Delete(s))) else sys.procs)
  }

  ghost function CloseList(sys: System, l: seq<Fd>): System
    decreases |l|
  {
    if l == [] then sys else CloseList(CloseOne(sys, l[0]), l[1..])
  }

  /** The sockets a call closes, in order. */
  function Closed(t: Tables, call: Runs.Action): seq<Fd> {
    match call
    case DoClose(s) => [s]
    case DoDestroy(key) => if key in t.ofchannel then [t.ofchannel[key].sock] else []
    case DoDrain(d) => if d in t.ofdev then t.ofdev[d] else []
    case DoFree(d) => if d in t.ofdev then t.ofdev[d] else []
    case _ => []
  }

  /** The kernel hands out descriptors that are not in use, pipes included. */
  ghost predicate Allowed(sys: System, a: Action) {
    a.Call? ==>
      && Runs.Allowed(sys.st, a.call)
      && (a.call.DoOpen? ==>
            && a.primary != a.data && a.call.s != a.primary && a.call.s != a.data
            && a.primary !in sys.st.t.ofrw && a.data !in sys.st.t.ofrw
            && forall m :: m in sys.procs ==> a.call.s !in sys.procs[m].pipes)
  }

  ghost function Step(role: Role, sys: System, a: Action): System {
    if !Allowed(sys, a) then sys else
      match a
      case Call(c, _, _, _) =>
        System(Runs.Step(role, sys.st, c),
               if c.DoOpen? then OpenProcs(role, sys, a) else CloseList(sys, Closed(sys.st.t, c)).procs,
               if c.DoOpen? && Opens(role, sys.st, c) then sys.log + [Sends.Added(c.s)] else sys.log)
      case Send(dp, aux, packet) =>
        (match SendTarget(sys.st.t, dp, aux)
         case None => sys
         case Some((s, m)) => sys.(procs := Queued(sys.procs, m, Message(s, packet)),
                                   log := sys.log + [Sends.Stored(s, packet)]))
      case Take(m) =>
        if m !in sys.procs || sys.procs[m].queue == [] then sys
        else sys.(procs := sys.procs[m := TakeOne(sys.procs[m])])
      case Poll(m, rs) => sys.(procs := Tell(sys.procs, m, Sends.Poll(rs)))
      case Visit(m, i) =>
        var procs := Tell(sys.procs, m, Sends.Visit(i));
        sys.(procs := procs, log := if m in sys.procs then sys.log + News(sys.procs[m], procs[m]) else sys.log)
  }

  /** What the worker logged in between. */
  function News(before: Proc, after: Proc): seq<Sends.Event> {
    if |before.x.log| <= |after.x.log| then after.x.log[|before.x.log|..] else []
  }

  ghost function Queued(procs: map<MgrId, Proc>, m: MgrId, msg: Message): map<MgrId, Proc> {
    if m in procs then procs[m := procs[m].(queue := procs[m].queue + [msg])] else procs
  }

  /** One read of the data pipe. */
  ghost function TakeOne(p: Proc): Proc
    requires p.queue != []
  {
    Do(p, Sends.Store(p.queue[0].fd, p.queue[0].packet)).(queue := p.queue[1..])
  }

  ghost function Init(m: MgrId, memory: seq<Worker.Slot>, primary: int, data: int): System
    requires primary != data
  {
    System(Lifecycle.Init(m), map[m := Booted(memory, primary, data)], [])
  }

  ghost function Run(role: Role, start: System, acts: seq<Action>): System {
    if acts == [] then start else Step(role, Run(role, start, acts[..|acts| - 1]), acts[|acts| - 1])
  }

  // ---------------------------------------------------------------------------------------------
  // Every worker polls what its manager believes
  // ---------------------------------------------------------------------------------------------

  /** Unless an assertion failed, the worker runs and lists its two pipes and then the manager's sockets. */
  ghost predicate Realized(p: Proc, mgr: Manager) {
    !p.x.aborted ==>
      && Worker.Running(p.x.w)
      && FdsOf(p.x.w.fdList, Worker.Socket) == mgr.watched
      && FdsOf(p.x.w.fdList, Worker.Pipe) == p.pipes == Worker.Names(p.x.w.fdList)[..2]
      && Worker.Names(p.x.w.fdList)[2..] == mgr.watched
      && SocketsSend(p.x.w.fdList) && AsksForInput(p.x.w)
  }

  /** The entries behind the two pipes are those that can send. */
  ghost predicate SocketsSend(l: seq<Worker.Entry>) {
    forall i :: 0 <= i < |l| ==> l[i].canSend == (i >= 2)
  }

  /** poll() is asked for input on every descriptor it gets. */
  ghost predicate AsksForInput(w: Worker.State) {
    forall i :: 0 <= i < w.active && i < |w.slots| ==> w.slots[i].events.pollIn
  }

  ghost predicate AllRealized(procs: map<MgrId, Proc>, mgrs: Managers) {
    && procs.Keys == mgrs.Keys
    && forall m :: m in procs ==> Realized(procs[m], mgrs[m])
  }

  /** No registered socket has the number of a pipe. */
  ghost predicate Apart(t: Tables, procs: map<MgrId, Proc>) {
    forall m, s: int :: m in procs && s in t.ofrw ==> s !in procs[m].pipes
  }

  ghost predicate Inv(sys: System) {
    Lifecycle.Inv(sys.st) && AllRealized(sys.procs, sys.st.mgrs) && Apart(sys.st.t, sys.procs)
  }

  lemma UpdateRealized(procs: map<MgrId, Proc>, mgrs: Managers, m: MgrId, p: Proc, mgr: Manager)
    requires AllRealized(procs, mgrs) && Realized(p, mgr)
    ensures AllRealized(procs[m := p], mgrs[m := mgr])
  {
  }

  lemma BootedRealized(memory: seq<Worker.Slot>, primary: int, data: int)
    requires primary != data
    ensures Realized(Booted(memory, primary, data), Manager(0, []))
    ensures Sends.Inv(Booted(memory, primary, data).x)
  {
    Sends.BootInv(memory, primary, data);
    Worker.StartConsistent(memory, primary, data);
    var l := Booted(memory, primary, data).x.w.fdList;
    var e0, e1 := Worker.Entry(primary, Worker.Pipe, false, 0), Worker.Entry(data, Worker.Pipe, false, 1);
    assert l == [e0, e1] && [] + [e0] == [e0] && [e0] + [e1] == [e0, e1];
    FdsOfAppend([], e0, Worker.Pipe);
    FdsOfAppend([e0], e1, Worker.Pipe);
    FdsOfAppend([], e0, Worker.Socket);
    FdsOfAppend([e0], e1, Worker.Socket);
  }

  lemma AddRealized(p: Proc, mgr: Manager, s: Fd)
    requires Realized(p, mgr) && s !in mgr.watched && s !in p.pipes
    requires mgr.numSockets != MAX_PER_THREAD_RWSOCKETS
    ensures Realized(Do(p, AddOf(s)), ManagerAdd(mgr, s, MAX_PER_THREAD_RWSOCKETS))
    ensures !p.x.aborted ==> Sends.Disciplined(p.x, AddOf(s))
  {
    if !p.x.aborted {
      var w, r := p.x.w, Worker.Add(s, Worker.Socket, true, true);
      var names := Worker.Names(w.fdList);
      assert names == names[..2] + names[2..];
      assert s !in names;
      Worker.AddKeepsConsistent(w, r);
      Worker.AddWrites(w, r);
      FdsOfAdd(w, r, Worker.Socket);
      FdsOfAdd(w, r, Worker.Pipe);
      assert (names + [s])[..2] == names[..2] && (names + [s])[2..] == names[2..] + [s];
    }
  }

  /** An element behind the first two is found there, and it is neither of them. */
  lemma IndexBehind(names: seq<int>, s: int)
    requires NoDup(names) && 2 <= |names| && s in names[2..]
    ensures s in names && s != names[0] && s != names[1]
    ensures IndexOf(names, s) == 2 + IndexOf(names[2..], s)
  {
    var i := IndexOf(names[2..], s);
    assert names[2..][i] == names[2 + i];
    IndexUnique(names, s, 2 + i);
  }

  /** Removing it leaves the first two in place. */
  lemma RemoveBehind(names: seq<int>, s: int)
    requires NoDup(names) && 2 <= |names| && s in names[2..]
    ensures Remove(names, s)[..2] == names[..2] && Remove(names, s)[2..] == Remove(names[2..], s)
  {
    IndexBehind(names, s);
    var i := IndexOf(names[2..], s);
    RemoveAtBehind(names, i);
  }

  lemma RemoveAtBehind(names: seq<int>, i: nat)
    requires 2 + i < |names|
    ensures RemoveAt(names, 2 + i)[..2] == names[..2]
    ensures RemoveAt(names, 2 + i)[2..] == RemoveAt(names[2..], i)
  {
  }

  lemma SocketsSendAfterRemove(l: seq<Worker.Entry>, i: nat)
    requires SocketsSend(l) && 2 <= i < |l|
    ensures SocketsSend(RemoveAt(l, i))
  {
  }

  lemma AsksAfterDelete(w: Worker.State, s: int)
    requires Worker.Consistent(w) && AsksForInput(w) && s in Worker.Names(w.fdList)[2..]
    ensures AsksForInput(Worker.HandleDelete(w, s))
  {
    Sends.DeleteBehindPipes(w, s);
  }

  /** A delete behind the pipes, in each of the lists a worker can be seen as. */
  lemma DeleteBehind(w: Worker.State, s: int)
    requires Worker.Consistent(w) && SocketsSend(w.fdList) && s in Worker.Names(w.fdList)[2..]
    ensures var names, w' := Worker.Names(w.fdList), Worker.HandleDelete(w, s);
            && Worker.Running(w') && Worker.Consistent(w') && SocketsSend(w'.fdList)
            && Worker.Names(w'.fdList) == Remove(names, s)
            && Worker.Names(w'.fdList)[..2] == names[..2] && Worker.Names(w'.fdList)[2..] == Remove(names[2..], s)
    ensures forall kind :: FdsOf(Worker.HandleDelete(w, s).fdList, kind) == Remove(FdsOf(w.fdList, kind), s)
  {
    var names := Worker.Names(w.fdList);
    IndexBehind(names, s);
    RemoveBehind(names, s);
    assert names[0] == w.fdList[0].fd && names[1] == w.fdList[1].fd;
    forall kind ensures FdsOf(Worker.HandleDelete(w, s).fdList, kind) == Remove(FdsOf(w.fdList, kind), s) {
      FdsOfDelete(w, s, kind);
    }
    FdsOfDelete(w, s, Worker.Socket);
    Worker.DeleteKeepsConsistent(w, s);
    Worker.DeleteClosesBoth(w, s);
    SocketsSendAfterRemove(w.fdList, IndexOf(names, s));
  }

  lemma DeleteRealized(p: Proc, mgr: Manager, s: Fd)
    requires Realized(p, mgr) && s in mgr.watched
    ensures Realized(Do(p, Sends.Manage(Worker.Delete(s))), ManagerDelete(mgr, s))
  {
    if !p.x.aborted {
      var names := Worker.Names(p.x.w.fdList);
      DeleteBehind(p.x.w, s);
      AsksAfterDelete(p.x.w, s);
      IndexBehind(names, s);
      assert s !in p.pipes by {
        assert p.pipes == [names[0], names[1]];
      }
    }
  }

  /** Data messages, poll() and visits leave the worker's list alone. */
  lemma OtherRealized(p: Proc, mgr: Manager, a: Sends.Action)
    requires Realized(p, mgr) && !a.Manage?
    ensures Realized(Do(p, a), mgr)
  {
  }

  lemma CloseUpdates(st: Lifecycle.State, s: Fd)
    requires Lifecycle.Inv(st) && s in st.t.ofrw
    ensures var m := st.t.ofrw[s].mgr;
            && m in st.mgrs && s in st.mgrs[m].watched
            && Lifecycle.Close(st, s).0.mgrs == st.mgrs[m := ManagerDelete(st.mgrs[m], s)]
  {
    WatchedByItsManager(st, s);
    Lifecycle.CloseStaysInv(st, s);
  }

  lemma TellDelete(procs: map<MgrId, Proc>, mgrs: Managers, m: MgrId, s: Fd)
    requires AllRealized(procs, mgrs) && m in mgrs && s in mgrs[m].watched
    ensures AllRealized(Tell(procs, m, Sends.Manage(Worker.Delete(s))), mgrs[m := ManagerDelete(mgrs[m], s)])
  {
    DeleteRealized(procs[m], mgrs[m], s);
    UpdateRealized(procs, mgrs, m, Do(procs[m], Sends.Manage(Worker.Delete(s))), ManagerDelete(mgrs[m], s));
  }

  lemma CloseOneKeepsInv(sys: System, s: Fd)
    requires Inv(sys)
    ensures Inv(CloseOne(sys, s))
  {
    if s in sys.st.t.ofrw {
      Lifecycle.CloseStaysInv(sys.st, s);
      CloseUpdates(sys.st, s);
      TellDelete(sys.procs, sys.st.mgrs, sys.st.t.ofrw[s].mgr, s);
      TellKeepsApart(sys.st.t, sys.procs, sys.st.t.ofrw[s].mgr, Sends.Manage(Worker.Delete(s)));
      FewerApart(sys.st.t, Lifecycle.Close(sys.st, s).0.t, CloseOne(sys, s).procs);
    }
  }

  lemma TellKeepsApart(t: Tables, procs: map<MgrId, Proc>, m: MgrId, a: Sends.Action)
    requires Apart(t, procs)
    ensures Apart(t, Tell(procs, m, a))
  {
  }

  lemma FewerApart(t: Tables, t': Tables, procs: map<MgrId, Proc>)
    requires Apart(t, procs) && t'.ofrw.Keys <= t.ofrw.Keys
    ensures Apart(t', procs)
  {
  }

  lemma WatchedByItsManager(st: Lifecycle.State, s: Fd)
    requires Lifecycle.Inv(st) && s in st.t.ofrw
    ensures var m := st.t.ofrw[s].mgr; m in st.mgrs && s in st.mgrs[m].watched
  {
    var m := st.t.ofrw[s].mgr;
    assert s in Lifecycle.Group(st.t, m);
    assert Lifecycle.Counts(st.t, m, st.mgrs[m]);
    assert s in Elems(st.mgrs[m].watched);
  }

  lemma WatchedIsRegistered(st: Lifecycle.State, m: MgrId, s: int)
    requires Lifecycle.Inv(st) && m in st.mgrs && s in st.mgrs[m].watched
    ensures s in st.t.ofrw && st.t.ofrw[s].mgr == m
  {
    assert Lifecycle.Counts(st.t, m, st.mgrs[m]);
    assert s in Elems(st.mgrs[m].watched);
    assert s in Lifecycle.Group(st.t, m);
  }

  lemma {:induction false} CloseListKeepsInv(sys: System, l: seq<Fd>)
    requires Inv(sys)
    ensures Inv(CloseList(sys, l)) && CloseList(sys, l).st == Lifecycle.CloseAll(sys.st, l)
    decreases |l|
  {
    if l != [] {
      CloseOneKeepsInv(sys, l[0]);
      CloseListKeepsInv(CloseOne(sys, l[0]), l[1..]);
    }
  }

  lemma NewThreadRealized(sys: System, a: Action)
    requires AllRealized(sys.procs, sys.st.mgrs) && a.Call? && a.call.DoOpen? && a.primary != a.data
    ensures AllRealized(WithNewThread(sys, a).procs, WithNewThread(sys, a).st.mgrs)
  {
    BootedRealized(a.memory, a.primary, a.data);
    UpdateRealized(sys.procs, sys.st.mgrs, a.call.m, Booted(a.memory, a.primary, a.data), Manager(0, []));
  }

  lemma WithNewThreadKeepsInv(sys: System, a: Action)
    requires Inv(sys) && Allowed(sys, a) && a.Call? && a.call.DoOpen?
    ensures var sys1 := WithNewThread(sys, a);
            Lifecycle.Inv(sys1.st) && AllRealized(sys1.procs, sys1.st.mgrs) && sys1.st == Lifecycle.FindOrCreate(sys.st, a.call.m, a.call.spawnOk).0
  {
    Lifecycle.FindOrCreateKeepsInv(sys.st, a.call.m, a.call.spawnOk);
    NewThreadRealized(sys, a);
  }

  lemma NewThreadAvoids(sys: System, a: Action, m: MgrId)
    requires Allowed(sys, a) && a.Call? && a.call.DoOpen? && m in WithNewThread(sys, a).procs
    ensures a.call.s !in WithNewThread(sys, a).procs[m].pipes
  {
  }

  lemma RoomForOneMore(st: Lifecycle.State, s: Fd, k: MgrId)
    requires Lifecycle.Inv(st) && s !in st.t.ofrw && Find(st.pool, st.mgrs) == Some(k)
    ensures k in st.mgrs && s !in st.mgrs[k].watched && st.mgrs[k].numSockets != MAX_PER_THREAD_RWSOCKETS
  {
    Lifecycle.RoomyPool(st);
    FindIsTightest(st.pool, st.mgrs);
    assert k in st.pool;
    if s in st.mgrs[k].watched {
      WatchedIsRegistered(st, k, s);
    }
  }

  /** What an open does to the managers, seen from the pool that includes a new thread. */
  lemma OpenUpdates(role: Role, st: Lifecycle.State, c: Runs.Action)
    requires c.DoOpen?
    ensures var (st', status) := Lifecycle.Open(role, st, c.s, c.d, c.proto, c.key, c.m, c.spawnOk);
            var (st1, found) := Lifecycle.FindOrCreate(st, c.m, c.spawnOk);
            if status == OK
            then && found.Some? && found.value in st1.mgrs
                 && st'.mgrs == st1.mgrs[found.value :=
                      ManagerAdd(st1.mgrs[found.value], c.s, MAX_PER_THREAD_RWSOCKETS)]
            else st'.mgrs == st1.mgrs
  {
  }

  lemma FoundHasRoom(st: Lifecycle.State, c: Runs.Action)
    requires Lifecycle.Inv(st) && c.DoOpen? && Runs.Allowed(st, c)
    ensures var (st1, found) := Lifecycle.FindOrCreate(st, c.m, c.spawnOk);
            found.Some? ==>
              && found.value in st1.mgrs && c.s !in st1.mgrs[found.value].watched
              && st1.mgrs[found.value].numSockets != MAX_PER_THREAD_RWSOCKETS
  {
    Lifecycle.FindOrCreateKeepsInv(st, c.m, c.spawnOk);
    var (st1, found) := Lifecycle.FindOrCreate(st, c.m, c.spawnOk);
    if found.Some? {
      RoomForOneMore(st1, c.s, found.value);
    }
  }

  lemma TellAdd(procs: map<MgrId, Proc>, mgrs: Managers, m: MgrId, s: Fd)
    requires AllRealized(procs, mgrs) && m in mgrs && s !in mgrs[m].watched
    requires s !in procs[m].pipes && mgrs[m].numSockets != MAX_PER_THREAD_RWSOCKETS
    ensures AllRealized(Tell(procs, m, AddOf(s)), mgrs[m := ManagerAdd(mgrs[m], s, MAX_PER_THREAD_RWSOCKETS)])
  {
    AddRealized(procs[m], mgrs[m], s);
    UpdateRealized(procs, mgrs, m, Do(procs[m], AddOf(s)), ManagerAdd(mgrs[m], s, MAX_PER_THREAD_RWSOCKETS));
  }

  lemma OpenKeepsInv(role: Role, sys: System, a: Action)
    requires Inv(sys) && Allowed(sys, a) && a.Call? && a.call.DoOpen?
    ensures Inv(Step(role, sys, a))
  {
    var c := a.call;
    Runs.StepKeepsInv(role, sys.st, c);
    WithNewThreadKeepsInv(sys, a);
    OpenUpdates(role, sys.st, c);
    FoundHasRoom(sys.st, c);
    var sys1 := WithNewThread(sys, a);
    if Opens(role, sys.st, c) {
      var k := Lifecycle.FindOrCreate(sys.st, c.m, c.spawnOk).1.value;
      NewThreadAvoids(sys, a, k);
      TellAdd(sys1.procs, sys1.st.mgrs, k, c.s);
    }
    OpenKeepsApart(role, sys, a);
  }

  lemma OpenRegisters(role: Role, st: Lifecycle.State, c: Runs.Action)
    requires c.DoOpen? && Runs.Allowed(st, c)
    ensures forall s: int :: s in Runs.Step(role, st, c).t.ofrw ==> s in st.t.ofrw || s == c.s
  {
  }

  lemma OpenKeepsApart(role: Role, sys: System, a: Action)
    requires Apart(sys.st.t, sys.procs) && Allowed(sys, a) && a.Call? && a.call.DoOpen?
    ensures Apart(Step(role, sys, a).st.t, Step(role, sys, a).procs)
  {
    OpenRegisters(role, sys.st, a.call);
    var procs' := Step(role, sys, a).procs;
    forall m | m in procs'
      ensures procs'[m].pipes == [a.primary, a.data] || (m in sys.procs && procs'[m].pipes == sys.procs[m].pipes)
    {
    }
  }

  lemma OneClose(st: Lifecycle.State, s: Fd)
    ensures Lifecycle.CloseAll(st, [s]) == Lifecycle.Close(st, s).0
  {
    assert [s][1..] == [];
  }

  /** Every other call leaves the managers and the socket table as its closes do. */
  lemma ClosedIsAll(role: Role, st: Lifecycle.State, c: Runs.Action)
    requires !c.DoOpen?
    ensures Runs.Step(role, st, c).mgrs == Lifecycle.CloseAll(st, Closed(st.t, c)).mgrs
    ensures Runs.Step(role, st, c).t.ofrw == Lifecycle.CloseAll(st, Closed(st.t, c)).t.ofrw
  {
    match c
    case DoClose(s) => OneClose(st, s);
    case DoDestroy(key) => if key in st.t.ofchannel { OneClose(st, st.t.ofchannel[key].sock); }
    case _ =>
  }

  lemma CallKeepsInv(role: Role, sys: System, a: Action)
    requires Inv(sys) && Allowed(sys, a) && a.Call? && !a.call.DoOpen?
    ensures Inv(Step(role, sys, a))
  {
    Runs.StepKeepsInv(role, sys.st, a.call);
    CloseListKeepsInv(sys, Closed(sys.st.t, a.call));
    ClosedIsAll(role, sys.st, a.call);
  }

  lemma TellOther(procs: map<MgrId, Proc>, mgrs: Managers, m: MgrId, a: Sends.Action)
    requires AllRealized(procs, mgrs) && !a.Manage?
    ensures AllRealized(Tell(procs, m, a), mgrs)
  {
    if m in procs {
      OtherRealized(procs[m], mgrs[m], a);
    }
  }

  lemma QueueKeeps(procs: map<MgrId, Proc>, mgrs: Managers, m: MgrId, msg: Message)
    requires AllRealized(procs, mgrs)
    ensures AllRealized(Queued(procs, m, msg), mgrs)
  {
  }

  lemma TakeKeeps(procs: map<MgrId, Proc>, mgrs: Managers, m: MgrId)
    requires AllRealized(procs, mgrs) && m in procs && procs[m].queue != []
    ensures AllRealized(procs[m := TakeOne(procs[m])], mgrs)
  {
    var msg := procs[m].queue[0];
    OtherRealized(procs[m], mgrs[m], Sends.Store(msg.fd, msg.packet));
  }

  /** The steps that are not library calls. */
  lemma WorkerStepKeepsInv(role: Role, sys: System, a: Action)
    requires AllRealized(sys.procs, sys.st.mgrs) && Apart(sys.st.t, sys.procs) && !a.Call?
    ensures AllRealized(Step(role, sys, a).procs, sys.st.mgrs) && Apart(sys.st.t, Step(role, sys, a).procs)
  {
    match a
    case Send(dp, aux, packet) =>
      if SendTarget(sys.st.t, dp, aux).Some? {
        var (s, m) := SendTarget(sys.st.t, dp, aux).value;
        QueueKeeps(sys.procs, sys.st.mgrs, m, Message(s, packet));
      }
    case Take(m) =>
      if m in sys.procs && sys.procs[m].queue != [] {
        TakeKeeps(sys.procs, sys.st.mgrs, m);
      }
    case Poll(m, rs) =>
      TellOther(sys.procs, sys.st.mgrs, m, Sends.Poll(rs));
      TellKeepsApart(sys.st.t, sys.procs, m, Sends.Poll(rs));
    case Visit(m, i) =>
      TellOther(sys.procs, sys.st.mgrs, m, Sends.Visit(i));
      TellKeepsApart(sys.st.t, sys.procs, m, Sends.Visit(i));
  }

  lemma StepKeepsInv(role: Role, sys: System, a: Action)
    requires Inv(sys)
    ensures Inv(Step(role, sys, a))
  {
    if !a.Call? {
      WorkerStepKeepsInv(role, sys, a);
    } else if Allowed(sys, a) {
      if a.call.DoOpen? {
        OpenKeepsInv(role, sys, a);
      } else {
        CallKeepsInv(role, sys, a);
      }
    }
  }

  /** Registry, pool and every worker agree after every run of calls, sends, reads, polls and visits. */
  lemma {:induction false} RunKeepsInv(role: Role, start: System, acts: seq<Action>)
    requires Inv(start)
    ensures Inv(Run(role, start, acts))
  {
    if acts != [] {
      RunKeepsInv(role, start, acts[..|acts| - 1]);
      StepKeepsInv(role, Run(role, start, acts[..|acts| - 1]), acts[|acts| - 1]);
    }
  }

  lemma InitInv(m: MgrId, memory: seq<Worker.Slot>, primary: int, data: int)
    requires primary != data
    ensures Inv(Init(m, memory, primary, data))
  {
    Lifecycle.InitInv(m);
    BootedRealized(memory, primary, data);
  }

  /** A worker polls its two pipes and then exactly the registered sockets that name its manager. */
  lemma PollsExactlyItsSockets(role: Role, start: System, acts: seq<Action>, m: MgrId, s: int)
    requires Inv(start) && m in Run(role, start, acts).procs && !Run(role, start, acts).procs[m].x.aborted
    ensures var sys := Run(role, start, acts); var w := sys.procs[m].x.w;
            && m in sys.st.mgrs && Worker.Consistent(w)
            && (s in Worker.Polled(w)[2..] <==> s in sys.st.t.ofrw && sys.st.t.ofrw[s].mgr == m)
            && w.active == 2 + sys.st.mgrs[m].numSockets <= 2 + MAX_PER_THREAD_RWSOCKETS
            && forall i :: 0 <= i < w.active ==> w.slots[i].events.pollIn
  {
    RunKeepsInv(role, start, acts);
    var sys := Run(role, start, acts);
    assert Realized(sys.procs[m], sys.st.mgrs[m]);
    Lifecycle.Conservation(sys.st, m);
    if s in sys.st.mgrs[m].watched {
      WatchedIsRegistered(sys.st, m, s);
    }
    if s in sys.st.t.ofrw {
      WatchedByItsManager(sys.st, s);
    }
  }
}
