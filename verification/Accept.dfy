/**
 A controller accepting connections while other threads read, drain, destroy and rename
 (src/cc_tcp_conn.c, src/cc_of_lib.c). The one listen thread accepts in three separately locked steps;
 every other operation holds its table locks throughout and is one step. Any interleaving may happen.
 */
module Accept {
  import opened Lists
  import opened Tables
  import Lifecycle
  import Runs

  /** Where the listen thread is inside tcp_accept. */
  datatype ListenPc = Listening | Added(s: Fd, d: DevKey) | Notified(n: Fd)

  /** Registration, accept callback and receive callback of a socket. */
  datatype Event = Registered(s: Fd) | Accepted(s: Fd) | Received(s: Fd)

  datatype World = World(t: Tables, pc: ListenPc, log: seq<Event>)

  datatype Action =
    | AcceptAdd(s: Fd, d: DevKey, mgr: MgrId)
    | AcceptNotify
    | AcceptUp
    | Read(s: Fd)
    | DoRegister(d: DevKey)
    | DoDrain(d: DevKey)
    | DoFree(d: DevKey)
    | DoDestroy(key: ChanKey)
    | DoRename(dp: U64, aux: U8, chosen: ChanKey)

  const BOOT := World(EMPTY, Listening, [])

  function SetUp(t: Tables, s: Fd): Tables {
    if s in t.ofrw then t.(ofrw := t.ofrw[s := t.ofrw[s].(state := Up)]) else t
  }

  /** process_tcpfd_pollin_func: a packet is dropped unless its socket is registered, UP and has a channel. */
  ghost predicate Delivers(t: Tables, s: Fd) {
    && (exists k :: k in t.ofchannel && t.ofchannel[k].sock == s)
    && s in t.ofrw && t.ofrw[s].state == Up && t.ofrw[s].dev in t.ofdev
  }

  ghost function Step(x: World, a: Action): World {
    match a
    case AcceptAdd(s, d, mgr) =>
      if x.pc != Listening then x else
        var (t', status) := AddSocket(Controller, x.t, s, d, TCP, mgr, DummyKey(s));
        if status == OK then World(t', Added(s, d), x.log + [Registered(s)]) else x.(t := t')
    case AcceptNotify =>
      if !x.pc.Added? then x
      else if x.pc.d !in x.t.ofdev then x.(pc := Listening)
      else x.(pc := Notified(x.pc.s), log := x.log + [Accepted(x.pc.s)])
    case AcceptUp => if !x.pc.Notified? then x else x.(t := SetUp(x.t, x.pc.n), pc := Listening)
    case Read(s) => if Delivers(x.t, s) then x.(log := x.log + [Received(s)]) else x
    case DoRegister(d) => x.(t := Register(x.t, d))
    case DoDrain(d) => if d in x.t.ofdev then x.(t := DrainList(x.t, x.t.ofdev[d])) else x
    case DoFree(d) =>
      if d in x.t.ofdev
      then var t' := DrainList(x.t, x.t.ofdev[d]); x.(t := t'.(ofdev := t'.ofdev - {d}))
      else x
    case DoDestroy(key) => if key in x.t.ofchannel then x.(t := DelSocket(x.t, x.t.ofchannel[key].sock)) else x
    case DoRename(dp, aux, chosen) => x.(t := Rename(x.t, dp, aux, chosen).0)
  }

  ghost function Run(acts: seq<Action>): World {
    if acts == [] then BOOT else Step(Run(acts[..|acts| - 1]), acts[|acts| - 1])
  }

  // ---------------------------------------------------------------------------------------------
  // No receive callback before the accept callback
  // ---------------------------------------------------------------------------------------------

  /** The accept callback of s fired, and s was not registered again since. */
  ghost predicate AcceptedSince(log: seq<Event>, s: Fd) {
    exists i :: 0 <= i < |log| && log[i] == Accepted(s) && forall k :: i < k < |log| ==> log[k] != Registered(s)
  }

  ghost predicate Gated(log: seq<Event>) {
    forall j :: 0 <= j < |log| && log[j].Received? ==> AcceptedSince(log[..j], log[j].s)
  }

  ghost predicate Inv(x: World) {
    && Gated(x.log)
    && (forall s :: s in x.t.ofrw && x.t.ofrw[s].state == Up ==> AcceptedSince(x.log, s))
    && (x.pc.Notified? ==> AcceptedSince(x.log, x.pc.n))
  }

  lemma AcceptedSinceAppend(log: seq<Event>, e: Event, s: Fd)
    requires e == Accepted(s) || (AcceptedSince(log, s) && e != Registered(s))
    ensures AcceptedSince(log + [e], s)
  {
    var l := log + [e];
    if e == Accepted(s) {
      assert l[|log|] == Accepted(s);
    } else {
      var i :| 0 <= i < |log| && log[i] == Accepted(s) && forall k :: i < k < |log| ==> log[k] != Registered(s);
      assert l[i] == Accepted(s);
    }
  }

  lemma GatedAppend(log: seq<Event>, e: Event)
    requires Gated(log) && (e.Received? ==> AcceptedSince(log, e.s))
    ensures Gated(log + [e])
  {
    var l := log + [e];
    forall j | 0 <= j < |l| && l[j].Received? ensures AcceptedSince(l[..j], l[j].s) {
      assert l[..j] == log[..j];
      assert log[..|log|] == log;
    }
  }

  lemma LogKeepsInv(x: World, e: Event, y: World)
    requires Inv(x) && y.log == x.log + [e] && (e.Received? ==> AcceptedSince(x.log, e.s))
    requires forall s :: s in y.t.ofrw && y.t.ofrw[s].state == Up ==>
               e != Registered(s) && s in x.t.ofrw && x.t.ofrw[s].state == Up
    requires y.pc.Notified? ==> e == Accepted(y.pc.n) || (y.pc == x.pc && e != Registered(y.pc.n))
    ensures Inv(y)
  {
    GatedAppend(x.log, e);
    forall s | s in y.t.ofrw && y.t.ofrw[s].state == Up ensures AcceptedSince(y.log, s) {
      AcceptedSinceAppend(x.log, e, s);
    }
    if y.pc.Notified? {
      AcceptedSinceAppend(x.log, e, y.pc.n);
    }
  }

  /** Removing sockets touches nobody's readiness. */
  lemma {:induction false} DrainOnlyRemoves(t: Tables, l: seq<Fd>)
    ensures forall s :: s in DrainList(t, l).ofrw ==> s in t.ofrw && DrainList(t, l).ofrw[s] == t.ofrw[s]
    decreases |l|
  {
    if l != [] {
      DrainOnlyRemoves(DelSocket(t, l[0]), l[1..]);
    }
  }

  lemma StepKeepsInv(x: World, a: Action)
    requires Inv(x)
    ensures Inv(Step(x, a))
  {
    var y := Step(x, a);
    match a
    case AcceptAdd(s, d, mgr) => if y.log != x.log { LogKeepsInv(x, Registered(s), y); }
    case AcceptNotify => if y.log != x.log { LogKeepsInv(x, Accepted(x.pc.s), y); }
    case Read(s) => if y.log != x.log { LogKeepsInv(x, Received(s), y); }
    case DoDrain(d) => if d in x.t.ofdev { DrainOnlyRemoves(x.t, x.t.ofdev[d]); }
    case DoFree(d) => if d in x.t.ofdev { DrainOnlyRemoves(x.t, x.t.ofdev[d]); }
    case _ =>
  }

  lemma {:induction false} RunKeepsInv(acts: seq<Action>)
    ensures Inv(Run(acts))
  {
    if acts != [] {
      RunKeepsInv(acts[..|acts| - 1]);
      StepKeepsInv(Run(acts[..|acts| - 1]), acts[|acts| - 1]);
    }
  }

  /**
   Under every interleaving: before a receive callback for s at j, its accept callback fired at some i,
   and s was not registered between the two.
   */
  lemma NoReceiveBeforeAccept(acts: seq<Action>, j: nat)
    requires j < |Run(acts).log| && Run(acts).log[j].Received?
    ensures var log := Run(acts).log;
            exists i :: 0 <= i < j && log[i] == Accepted(log[j].s)
                        && forall k :: i < k < j ==> log[k] != Registered(log[j].s)
  {
    RunKeepsInv(acts);
    var log := Run(acts).log;
    var s := log[j].s;
    assert AcceptedSince(log[..j], s);
    var i :| 0 <= i < j && log[..j][i] == Accepted(s) && forall k :: i < k < j ==> log[..j][k] != Registered(s);
    assert log[i] == Accepted(s);
    forall k | i < k < j ensures log[k] != Registered(s) {
      assert log[..j][k] == log[k];
    }
  }

  // ---------------------------------------------------------------------------------------------
  // The tables under interleaving
  // ---------------------------------------------------------------------------------------------

  /** What kernel and callers respect: fresh descriptors, fresh device keys, dummy ids renamed. */
  ghost predicate Allowed(x: World, a: Action) {
    match a
    case AcceptAdd(s, _, _) => s !in x.t.ofrw
    case DoRegister(d) => MayRegister(x.t, d)
    case DoRename(dp, aux, chosen) => MayRename(x.t, dp, aux, chosen)
    case _ => true
  }

  ghost predicate AllowedRun(acts: seq<Action>) {
    var n := |acts| - 1;
    acts == [] || (AllowedRun(acts[..n]) && Allowed(Run(acts[..n]), acts[n]))
  }

  /** The socket being accepted still belongs to the device it was accepted for. */
  ghost predicate AcceptInv(x: World) {
    TablesInv(x.t) && (x.pc.Added? && x.pc.s in x.t.ofrw ==> x.t.ofrw[x.pc.s].dev == x.pc.d)
  }

  lemma SetUpKeepsTablesInv(t: Tables, s: Fd)
    requires TablesInv(t)
    ensures TablesInv(SetUp(t, s))
  {
  }

  lemma StepKeepsAcceptInv(x: World, a: Action)
    requires AcceptInv(x) && Allowed(x, a)
    ensures AcceptInv(Step(x, a))
  {
    match a
    case AcceptAdd(s, d, mgr) => AddKeepsInv(Controller, x.t, s, d, TCP, mgr, DummyKey(s));
    case AcceptUp => if x.pc.Notified? { SetUpKeepsTablesInv(x.t, x.pc.n); }
    case DoRegister(d) => RegisterKeepsInvIff(x.t, d);
    case DoRename(dp, aux, chosen) => RenameKeepsInvIff(x.t, dp, aux, chosen);
    case DoDestroy(key) => if key in x.t.ofchannel { DelKeepsInv(x.t, x.t.ofchannel[key].sock); }
    case DoDrain(d) => if d in x.t.ofdev { DrainIsExact(x.t, d); }
    case DoFree(d) =>
      if d in x.t.ofdev {
        DrainIsExact(x.t, d);
        ForgetKeepsInv(Without(x.t, d), d);
      }
    case _ =>
  }

  lemma {:induction false} RunKeepsAcceptInv(acts: seq<Action>)
    requires AllowedRun(acts)
    ensures AcceptInv(Run(acts))
  {
    if acts != [] {
      RunKeepsAcceptInv(acts[..|acts| - 1]);
      StepKeepsAcceptInv(Run(acts[..|acts| - 1]), acts[|acts| - 1]);
    }
  }

  /** If the device vanished between registration and notification, its drain already took the socket. */
  lemma GoneDeviceTookItsSocket(acts: seq<Action>)
    requires AllowedRun(acts) && Run(acts).pc.Added? && Run(acts).pc.d !in Run(acts).t.ofdev
    ensures Run(acts).pc.s !in Run(acts).t.ofrw
  {
    RunKeepsAcceptInv(acts);
  }

  /** Only the readiness of s changes, and only if s is registered. */
  lemma SetUpTouchesOne(t: Tables, s: Fd)
    ensures var t' := SetUp(t, s);
            && t'.ofdev == t.ofdev && t'.ofchannel == t.ofchannel && t'.ofrw.Keys == t.ofrw.Keys
            && (forall x :: x in t.ofrw && x != s ==> t'.ofrw[x] == t.ofrw[x])
            && (s in t.ofrw ==> t'.ofrw[s] == RwInfo(Up, t.ofrw[s].dev, t.ofrw[s].proto, t.ofrw[s].mgr))
  {
  }

  /** A packet is delivered exactly on a registered socket that is UP and has a channel. */
  lemma ReadDeliversIff(acts: seq<Action>, s: Fd)
    requires AllowedRun(acts)
    ensures var x := Run(acts);
            && Step(x, Read(s)).t == x.t && Step(x, Read(s)).pc == x.pc
            && (Step(x, Read(s)).log == x.log + [Received(s)]
                <==> s in x.t.ofrw && x.t.ofrw[s].state == Up
                     && exists k :: k in x.t.ofchannel && x.t.ofchannel[k].sock == s)
            && (Step(x, Read(s)).log == x.log + [Received(s)] || Step(x, Read(s)).log == x.log)
  {
    RunKeepsAcceptInv(acts);
  }

  /** The four steps of an accept nobody disturbs, from any world. */
  lemma FourSteps(x: World, s: Fd, d: DevKey, mgr: MgrId)
    requires x.pc.Listening? && d in x.t.ofdev && s !in x.t.ofrw
    ensures var x1 := Step(x, AcceptAdd(s, d, mgr)); var x2 := Step(x1, AcceptNotify); var x3 := Step(x2, AcceptUp);
            && Step(x3, Read(s)).log == x.log + [Registered(s), Accepted(s), Received(s)]
            && x3.t.ofrw == x.t.ofrw[s := RwInfo(Up, d, TCP, mgr)] && x3.pc.Listening?
  {
    var x1 := Step(x, AcceptAdd(s, d, mgr));
    AddBinds(Controller, x.t, s, d, TCP, mgr, DummyKey(s));
    assert x1.t.ofchannel[ChanKey(s, s % 256)].sock == s;
    var x3 := Step(Step(x1, AcceptNotify), AcceptUp);
    SetUpTouchesOne(x1.t, s);
    assert x3.t.ofchannel[ChanKey(s, s % 256)].sock == s;
    assert Delivers(x3.t, s);
    assert x.log + [Registered(s)] + [Accepted(s)] + [Received(s)] == x.log + [Registered(s), Accepted(s), Received(s)];
  }

  lemma RunSnoc(acts: seq<Action>, a: Action)
    ensures Run(acts + [a]) == Step(Run(acts), a)
  {
    assert (acts + [a])[..|acts|] == acts;
  }

  /** Whatever happened before and whatever else is registered, an undisturbed accept opens the gate. */
  lemma UndisturbedAcceptDelivers(acts: seq<Action>, s: Fd, d: DevKey, mgr: MgrId)
    requires Run(acts).pc.Listening? && d in Run(acts).t.ofdev && s !in Run(acts).t.ofrw
    ensures Run(acts + [AcceptAdd(s, d, mgr)] + [AcceptNotify] + [AcceptUp] + [Read(s)]).log
            == Run(acts).log + [Registered(s), Accepted(s), Received(s)]
  {
    FourSteps(Run(acts), s, d, mgr);
    RunSnoc(acts, AcceptAdd(s, d, mgr));
    RunSnoc(acts + [AcceptAdd(s, d, mgr)], AcceptNotify);
    RunSnoc(acts + [AcceptAdd(s, d, mgr)] + [AcceptNotify], AcceptUp);
    RunSnoc(acts + [AcceptAdd(s, d, mgr)] + [AcceptNotify] + [AcceptUp], Read(s));
  }

  /** A device that vanished since the registration is not told of the socket. */
  lemma VanishedDeviceIsNotTold(x: World)
    requires x.pc.Added? && x.pc.d !in x.t.ofdev
    ensures Step(x, AcceptNotify) == World(x.t, Listening, x.log)
  {
  }

  /** An accept for an unknown device announces nothing and leaves the tables alone. */
  lemma RefusedAcceptIsInert(x: World, s: Fd, d: DevKey, mgr: MgrId)
    requires d !in x.t.ofdev && s !in x.t.ofrw
    ensures Step(x, AcceptAdd(s, d, mgr)) == x
  {
    FailedAddIsInert(Controller, x.t, s, d, TCP, mgr, DummyKey(s));
  }

  /** The calls other threads make do to the tables what they do in a run of whole calls. */
  lemma SameTables(role: Role, st: Lifecycle.State, x: World, a: Action, c: Runs.Action)
    requires Lifecycle.Inv(st) && st.t == x.t && Runs.Allowed(st, c)
    requires match a
             case DoRegister(d) => c == Runs.DoRegister(d)
             case DoRename(dp, aux, chosen) => c == Runs.DoRename(dp, aux, chosen)
             case DoDestroy(key) => c == Runs.DoDestroy(key)
             case DoDrain(d) => c == Runs.DoDrain(d)
             case DoFree(d) => c == Runs.DoFree(d)
             case _ => false
    ensures Runs.Step(role, st, c).t == Step(x, a).t
  {
    match a
    case DoDestroy(key) =>
      if key in st.t.ofchannel { Lifecycle.CloseStaysInv(st, st.t.ofchannel[key].sock); }
    case DoDrain(d) => if d in st.t.ofdev { DrainedAlike(st, d); }
    case DoFree(d) =>
      if d in st.t.ofdev {
        DrainedAlike(st, d);
      } else {
        assert st.t.ofdev - {d} == st.t.ofdev;
      }
    case _ =>
  }

  lemma DrainedAlike(st: Lifecycle.State, d: DevKey)
    requires Lifecycle.Inv(st) && d in st.t.ofdev
    ensures Lifecycle.Drain(st, d).t == DrainList(st.t, st.t.ofdev[d])
  {
    Lifecycle.DrainKeepsInv(st, d);
    DrainIsExact(st.t, d);
  }
}
