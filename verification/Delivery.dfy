/**
 From the hand-over in cc_of_send_pkt to the connection (src/cc_of_lib.c:799-857, src/cc_pollthr_mgr.c):
 which calls keep every packet on its own connection, and what closes do to a thread.
 */
module Delivery {
  import opened Lists
  import opened PollThread
  import opened Tables
  import opened Pool
  import opened Composition
  import Lifecycle
  import Runs
  import Worker
  import Sends

  // ---------------------------------------------------------------------------------------------
  // What a list of closes leaves of a thread
  // ---------------------------------------------------------------------------------------------

  function Filter(s: seq<int>, l: seq<int>): seq<int> {
    if s == [] then [] else if s[0] in l then Filter(s[1..], l) else [s[0]] + Filter(s[1..], l)
  }

  lemma {:induction false} FilterMember(s: seq<int>, l: seq<int>, x: int)
    ensures x in Filter(s, l) <==> x in s && x !in l
  {
    if s != [] {
      FilterMember(s[1..], l, x);
    }
  }

  lemma {:induction false} FilterMisses(s: seq<int>, l: seq<int>)
    requires l != [] && l[0] !in s
    ensures Filter(s, l) == Filter(s, l[1..])
  {
    if s != [] {
      assert s[0] in l <==> s[0] in l[1..];
      FilterMisses(s[1..], l);
    }
  }

  lemma {:induction false} FilterRemove(s: seq<int>, l: seq<int>)
    requires l != [] && NoDup(s)
    ensures Filter(Remove(s, l[0]), l[1..]) == Filter(s, l)
  {
    if l[0] !in s {
      FilterMisses(s, l);
    } else if s[0] == l[0] {
      assert Remove(s, l[0]) == s[1..];
      assert l[0] !in s[1..];
      FilterMisses(s[1..], l);
    } else {
      var rest := s[1..];
      assert l[0] in rest;
      RemoveBehindHead(s, l[0]);
      FilterRemove(rest, l);
      assert Remove(s, l[0])[1..] == Remove(rest, l[0]);
      assert s[0] in l <==> s[0] in l[1..];
    }
  }

  lemma RemoveBehindHead(s: seq<int>, x: int)
    requires s != [] && s[0] != x && x in s[1..]
    ensures Remove(s, x) == [s[0]] + Remove(s[1..], x)
  {
    RemoveAtBehindHead(s, IndexOf(s[1..], x));
  }

  lemma RemoveAtBehindHead(s: seq<int>, i: nat)
    requires 1 + i < |s|
    ensures RemoveAt(s, 1 + i) == [s[0]] + RemoveAt(s[1..], i)
  {
  }

  /** The listed ones are the last ones. */
  ghost predicate Suffix(s: seq<int>, l: seq<int>) {
    forall i, j :: 0 <= i < j < |s| && s[i] in l ==> s[j] in l
  }

  lemma {:induction false} FilterOfSuffix(s: seq<int>, l: seq<int>)
    requires Suffix(s, l)
    ensures |Filter(s, l)| <= |s| && Filter(s, l) == s[..|Filter(s, l)|]
  {
    if s != [] {
      assert forall i :: 0 <= i < |s| - 1 ==> s[1..][i] == s[i + 1];
      FilterOfSuffix(s[1..], l);
      if s[0] in l && Filter(s[1..], l) != [] {
        FilterMember(s[1..], l, s[1]);
      }
    }
  }

  lemma SuffixIffPrefixStays(s: seq<int>, l: seq<int>)
    requires NoDup(s)
    ensures Suffix(s, l) <==> |Filter(s, l)| <= |s| && Filter(s, l) == s[..|Filter(s, l)|]
  {
    var f := Filter(s, l);
    if Suffix(s, l) {
      FilterOfSuffix(s, l);
    }
    if |f| <= |s| && f == s[..|f|] {
      forall i, j | 0 <= i < j < |s| && s[i] in l ensures s[j] in l {
        FilterMember(s, l, s[i]);
        FilterMember(s, l, s[j]);
      }
    }
  }

  /** Every entry left is an old one, at its old slot, and in the old order. */
  ghost predicate Thinned(w0: Worker.State, w: Worker.State) {
    && (forall i :: 0 <= i < |w.fdList| ==>
          w.fdList[i].slot < |w0.fdList| && w.fdList[i] == w0.fdList[w.fdList[i].slot])
    && (forall i, j :: 0 <= i < j < |w.fdList| ==> w.fdList[i].slot < w.fdList[j].slot)
  }

  lemma ThinnedFurther(w0: Worker.State, w: Worker.State, s: int)
    requires Thinned(w0, w) && Worker.Consistent(w) && s in Worker.Names(w.fdList)
    requires Worker.Running(Worker.HandleDelete(w, s))
    ensures Thinned(w0, Worker.HandleDelete(w, s))
  {
    Worker.DeleteClosesBoth(w, s);
    var p := IndexOf(Worker.Names(w.fdList), s);
    var l := Worker.HandleDelete(w, s).fdList;
    assert forall i :: 0 <= i < |l| ==> l[i] == w.fdList[if i < p then i else i + 1];
  }

  /** Nothing has drifted exactly when the last entry has not. */
  lemma DriftShowsLast(w0: Worker.State, w: Worker.State)
    requires Thinned(w0, w) && Worker.Consistent(w)
    ensures Worker.NoDrift(w) <==> w.fdList[|w.fdList| - 1].slot == |w.fdList| - 1
  {
    if w.fdList[|w.fdList| - 1].slot == |w.fdList| - 1 {
      NoGaps(w, 0);
    }
  }

  lemma {:induction false} NoGaps(w: Worker.State, i: nat)
    requires forall i, j :: 0 <= i < j < |w.fdList| ==> w.fdList[i].slot < w.fdList[j].slot
    requires forall i :: 0 <= i < |w.fdList| ==> i <= w.fdList[i].slot
    requires i < |w.fdList| && w.fdList[|w.fdList| - 1].slot == |w.fdList| - 1
    ensures forall j :: i <= j < |w.fdList| ==> w.fdList[j].slot == j
    decreases |w.fdList| - i
  {
    if i < |w.fdList| - 1 {
      NoGaps(w, i + 1);
      assert w.fdList[i].slot < w.fdList[i + 1].slot;
    }
  }

  /** Thinning a thread without drift leaves it so exactly when the newest descriptors went. */
  lemma NoDriftIffPrefix(w0: Worker.State, w: Worker.State)
    requires Worker.Consistent(w0) && Worker.NoDrift(w0) && Worker.Consistent(w) && Thinned(w0, w)
    ensures var names0, names := Worker.Names(w0.fdList), Worker.Names(w.fdList);
            Worker.NoDrift(w) <==> |names| <= |names0| && names == names0[..|names|]
  {
    var names0, names := Worker.Names(w0.fdList), Worker.Names(w.fdList);
    assert forall i :: 0 <= i < |names| ==> names[i] == names0[w.fdList[i].slot];
    if Worker.NoDrift(w) {
      assert w.fdList[|names| - 1].slot == |names| - 1;
    }
    if |names| <= |names0| && names == names0[..|names|] {
      forall i | 0 <= i < |w.fdList| ensures w.fdList[i].slot == i {
        assert names0[i] == names[i] == names0[w.fdList[i].slot];
      }
    }
  }

  lemma NoDriftIffSuffix(w0: Worker.State, w: Worker.State, pipes: seq<int>, watched: seq<int>, l: seq<int>)
    requires Worker.Consistent(w0) && Worker.NoDrift(w0) && Worker.Consistent(w) && Thinned(w0, w) && |pipes| == 2
    requires Worker.Names(w0.fdList) == pipes + watched && Worker.Names(w.fdList) == pipes + Filter(watched, l)
    ensures Worker.NoDrift(w) <==> Suffix(watched, l)
  {
    var f := Filter(watched, l);
    NoDriftIffPrefix(w0, w);
    assert NoDup(watched) by {
      assert forall i :: 0 <= i < |watched| ==> (pipes + watched)[2 + i] == watched[i];
    }
    SuffixIffPrefixStays(watched, l);
    if |f| <= |watched| {
      assert (pipes + watched)[..2 + |f|] == pipes + watched[..|f|];
      assert (pipes + f == pipes + watched[..|f|]) <==> f == watched[..|f|] by {
        assert (pipes + f)[2..] == f && (pipes + watched[..|f|])[2..] == watched[..|f|];
      }
    }
  }

  // ---------------------------------------------------------------------------------------------
  // Healthy threads and orderly calls
  // ---------------------------------------------------------------------------------------------

  /** No assertion has failed, every send was faithful, and every waiting message is for a listed socket. */
  ghost predicate Healthy(p: Proc) {
    Sends.Inv(p.x) && forall i :: 0 <= i < |p.queue| ==> p.queue[i].fd in Worker.Names(p.x.w.fdList)[2..]
  }

  ghost predicate AllHealthy(procs: map<MgrId, Proc>) {
    forall m :: m in procs ==> Healthy(procs[m])
  }

  ghost predicate Awaited(queue: seq<Message>, s: int) {
    exists i :: 0 <= i < |queue| && queue[i].fd == s
  }

  /**
   The closed sockets of each thread are its newest ones, in whatever order they go, and no message for
   one of them waits in the data pipe.
   */
  ghost predicate CleanCloses(sys: System, l: seq<Fd>) {
    forall m :: m in sys.procs && m in sys.st.mgrs ==>
      && Suffix(sys.st.mgrs[m].watched, l)
      && forall s :: s in l && s in sys.st.mgrs[m].watched ==> !Awaited(sys.procs[m].queue, s)
  }

  ghost predicate Orderly(sys: System, a: Action) {
    a.Call? ==> CleanCloses(sys, Closed(sys.st.t, a.call))
  }

  ghost predicate OrderlyRun(role: Role, start: System, acts: seq<Action>) {
    var n := |acts| - 1;
    acts == [] || (OrderlyRun(role, start, acts[..n]) && Orderly(Run(role, start, acts[..n]), acts[n]))
  }

  /** What closes do to a thread: fewer entries, all else as it was. */
  ghost predicate Reduced(p0: Proc, p: Proc) {
    && Sends.Settled(p.x) && p.x.log == p0.x.log && p.queue == p0.queue && p.pipes == p0.pipes
    && Thinned(p0.x.w, p.x.w)
  }

  ghost predicate AllReduced(procs0: map<MgrId, Proc>, procs: map<MgrId, Proc>) {
    procs.Keys == procs0.Keys && forall m :: m in procs ==> Reduced(procs0[m], procs[m])
  }

  lemma DeleteReduces(p0: Proc, p: Proc, mgr: Manager, s: Fd)
    requires Reduced(p0, p) && Realized(p, mgr) && s in mgr.watched
    ensures Reduced(p0, Do(p, Sends.Manage(Worker.Delete(s))))
  {
    var names := Worker.Names(p.x.w.fdList);
    IndexBehind(names, s);
    assert names[..2] == [names[0], names[1]];
    Sends.DeleteKeepsSettled(p.x, s);
    ThinnedFurther(p0.x.w, p.x.w, s);
  }

  lemma TellDeleteReduces(procs0: map<MgrId, Proc>, procs: map<MgrId, Proc>, mgrs: Managers, m: MgrId, s: Fd)
    requires AllReduced(procs0, procs) && AllRealized(procs, mgrs) && m in mgrs && s in mgrs[m].watched
    ensures AllReduced(procs0, Tell(procs, m, Sends.Manage(Worker.Delete(s))))
  {
    DeleteReduces(procs0[m], procs[m], mgrs[m], s);
  }

  lemma CloseOneReduces(procs0: map<MgrId, Proc>, sys: System, s: Fd)
    requires Inv(sys) && AllReduced(procs0, sys.procs)
    ensures AllReduced(procs0, CloseOne(sys, s).procs)
  {
    if s in sys.st.t.ofrw {
      WatchedByItsManager(sys.st, s);
      TellDeleteReduces(procs0, sys.procs, sys.st.mgrs, sys.st.t.ofrw[s].mgr, s);
    }
  }

  lemma {:induction false} CloseListReduces(procs0: map<MgrId, Proc>, sys: System, l: seq<Fd>)
    requires Inv(sys) && AllReduced(procs0, sys.procs)
    ensures AllReduced(procs0, CloseList(sys, l).procs)
    decreases |l|
  {
    if l != [] {
      CloseOneKeepsInv(sys, l[0]);
      CloseOneReduces(procs0, sys, l[0]);
      CloseListReduces(procs0, CloseOne(sys, l[0]), l[1..]);
    }
  }

  lemma CloseOneWatched(st: Lifecycle.State, s: Fd, m: MgrId)
    requires Lifecycle.Inv(st) && m in st.mgrs
    ensures m in Lifecycle.Close(st, s).0.mgrs
    ensures Lifecycle.Close(st, s).0.mgrs[m].watched == Remove(st.mgrs[m].watched, s)
  {
    if s in st.mgrs[m].watched {
      WatchedIsRegistered(st, m, s);
    }
    if s in st.t.ofrw {
      CloseUpdates(st, s);
    }
  }

  lemma {:induction false} CloseListWatched(st: Lifecycle.State, l: seq<Fd>, m: MgrId)
    requires Lifecycle.Inv(st) && m in st.mgrs
    ensures m in Lifecycle.CloseAll(st, l).mgrs
    ensures Lifecycle.CloseAll(st, l).mgrs[m].watched == Filter(st.mgrs[m].watched, l)
    decreases |l|
  {
    if l == [] {
      FilterNone(st.mgrs[m].watched);
    } else {
      var st' := Lifecycle.Close(st, l[0]).0;
      assert Lifecycle.Counts(st.t, m, st.mgrs[m]);
      CloseOneWatched(st, l[0], m);
      if l[0] in st.t.ofrw {
        Lifecycle.CloseStaysInv(st, l[0]);
      }
      CloseListWatched(st', l[1..], m);
      FilterRemove(st.mgrs[m].watched, l);
    }
  }

  lemma {:induction false} FilterNone(s: seq<int>)
    ensures Filter(s, []) == s
  {
    if s != [] {
      FilterNone(s[1..]);
    }
  }

  lemma ReducedOfHealthy(procs: map<MgrId, Proc>)
    requires AllHealthy(procs)
    ensures AllReduced(procs, procs)
  {
  }

  /** After any list of closes a thread is free of drift exactly when the closed ones were its newest. */
  lemma CloseListDriftIff(sys: System, l: seq<Fd>, m: MgrId)
    requires Inv(sys) && AllHealthy(sys.procs) && m in sys.procs
    ensures m in CloseList(sys, l).procs && Reduced(sys.procs[m], CloseList(sys, l).procs[m])
    ensures Worker.NoDrift(CloseList(sys, l).procs[m].x.w) <==> Suffix(sys.st.mgrs[m].watched, l)
    ensures Worker.Names(CloseList(sys, l).procs[m].x.w.fdList)[2..] == Filter(sys.st.mgrs[m].watched, l)
  {
    var sys' := CloseList(sys, l);
    ReducedOfHealthy(sys.procs);
    CloseListReduces(sys.procs, sys, l);
    CloseListKeepsInv(sys, l);
    CloseListWatched(sys.st, l, m);
    var p, p' := sys.procs[m], sys'.procs[m];
    assert Realized(p, sys.st.mgrs[m]) && Realized(p', sys'.st.mgrs[m]) && Reduced(p, p') && Healthy(p);
    SplitNames(p, sys.st.mgrs[m]);
    SplitNames(p', sys'.st.mgrs[m]);
    NoDriftIffSuffix(p.x.w, p'.x.w, p.pipes, sys.st.mgrs[m].watched, l);
  }

  lemma SplitNames(p: Proc, mgr: Manager)
    requires Realized(p, mgr) && Sends.Settled(p.x)
    ensures Worker.Names(p.x.w.fdList) == p.pipes + mgr.watched && |p.pipes| == 2
  {
    var names := Worker.Names(p.x.w.fdList);
    assert names == names[..2] + names[2..];
  }

  lemma CloseListHealthy(sys: System, l: seq<Fd>)
    requires Inv(sys) && AllHealthy(sys.procs) && CleanCloses(sys, l)
    ensures AllHealthy(CloseList(sys, l).procs)
  {
    var sys' := CloseList(sys, l);
    CloseListKeepsInv(sys, l);
    ReducedOfHealthy(sys.procs);
    CloseListReduces(sys.procs, sys, l);
    forall m | m in sys'.procs ensures Healthy(sys'.procs[m]) {
      CloseListDriftIff(sys, l, m);
      QueueStaysListed(sys.procs[m], sys'.procs[m], sys.st.mgrs[m], l);
    }
  }

  lemma QueueStaysListed(p: Proc, p': Proc, mgr: Manager, l: seq<int>)
    requires Healthy(p) && Realized(p, mgr) && Reduced(p, p') && Worker.NoDrift(p'.x.w)
    requires Worker.Names(p'.x.w.fdList)[2..] == Filter(mgr.watched, l)
    requires forall s :: s in l && s in mgr.watched ==> !Awaited(p.queue, s)
    ensures Healthy(p')
  {
    forall i | 0 <= i < |p'.queue| ensures p'.queue[i].fd in Worker.Names(p'.x.w.fdList)[2..] {
      FilterMember(mgr.watched, l, p.queue[i].fd);
      assert p.queue[i].fd in mgr.watched;
    }
  }

  // ---------------------------------------------------------------------------------------------
  // Steps that close nothing keep threads healthy
  // ---------------------------------------------------------------------------------------------

  lemma AddHealthy(p: Proc, mgr: Manager, s: Fd)
    requires Healthy(p) && Realized(p, mgr) && s !in mgr.watched && s !in p.pipes
    requires mgr.numSockets != MAX_PER_THREAD_RWSOCKETS
    ensures Healthy(Do(p, AddOf(s)))
  {
    AddRealized(p, mgr, s);
    Sends.StepKeepsInv(p.x, AddOf(s));
    Worker.AddKeepsConsistent(p.x.w, AddOf(s).request);
    var names := Worker.Names(p.x.w.fdList);
    assert (names + [s])[2..] == names[2..] + [s];
  }

  lemma OtherHealthy(p: Proc, a: Sends.Action)
    requires Healthy(p) && !a.Manage? && Sends.Disciplined(p.x, a)
    ensures Healthy(Do(p, a))
  {
    Sends.StepKeepsInv(p.x, a);
  }

  lemma NewThreadHealthy(sys: System, a: Action)
    requires AllHealthy(sys.procs) && a.Call? && a.call.DoOpen? && a.primary != a.data
    ensures AllHealthy(WithNewThread(sys, a).procs)
  {
    BootedRealized(a.memory, a.primary, a.data);
  }

  lemma TellAddHealthy(procs: map<MgrId, Proc>, mgrs: Managers, m: MgrId, s: Fd)
    requires AllHealthy(procs) && AllRealized(procs, mgrs) && m in mgrs && s !in mgrs[m].watched
    requires s !in procs[m].pipes && mgrs[m].numSockets != MAX_PER_THREAD_RWSOCKETS
    ensures AllHealthy(Tell(procs, m, AddOf(s)))
  {
    AddHealthy(procs[m], mgrs[m], s);
  }

  lemma OpenHealthy(role: Role, sys: System, a: Action)
    requires Inv(sys) && AllHealthy(sys.procs) && Allowed(sys, a) && a.Call? && a.call.DoOpen?
    ensures AllHealthy(OpenProcs(role, sys, a))
  {
    var c := a.call;
    NewThreadHealthy(sys, a);
    NewThreadRealized(sys, a);
    OpenUpdates(role, sys.st, c);
    FoundHasRoom(sys.st, c);
    var sys1 := WithNewThread(sys, a);
    if Opens(role, sys.st, c) {
      var k := Lifecycle.FindOrCreate(sys.st, c.m, c.spawnOk).1.value;
      NewThreadAvoids(sys, a, k);
      TellAddHealthy(sys1.procs, sys1.st.mgrs, k, c.s);
    }
  }

  lemma QueuedHealthy(procs: map<MgrId, Proc>, mgrs: Managers, m: MgrId, msg: Message)
    requires AllHealthy(procs) && AllRealized(procs, mgrs) && m in mgrs && msg.fd in mgrs[m].watched
    ensures AllHealthy(Queued(procs, m, msg))
  {
    assert Realized(procs[m], mgrs[m]);
  }

  lemma SendHealthy(sys: System, dp: U64, aux: U8, packet: Worker.Packet)
    requires Inv(sys) && AllHealthy(sys.procs) && SendTarget(sys.st.t, dp, aux).Some?
    ensures var (s, m) := SendTarget(sys.st.t, dp, aux).value;
            AllHealthy(Queued(sys.procs, m, Message(s, packet)))
  {
    var (s, m) := SendTarget(sys.st.t, dp, aux).value;
    WatchedByItsManager(sys.st, s);
    QueuedHealthy(sys.procs, sys.st.mgrs, m, Message(s, packet));
  }

  lemma TellOtherHealthy(procs: map<MgrId, Proc>, m: MgrId, a: Sends.Action)
    requires AllHealthy(procs) && (a.Poll? || a.Visit?)
    ensures AllHealthy(Tell(procs, m, a))
  {
    if m in procs {
      OtherHealthy(procs[m], a);
    }
  }

  lemma TakeHealthy(procs: map<MgrId, Proc>, m: MgrId)
    requires AllHealthy(procs) && m in procs && procs[m].queue != []
    ensures AllHealthy(procs[m := TakeOne(procs[m])])
  {
    var msg := procs[m].queue[0];
    assert msg.fd in Worker.Names(procs[m].x.w.fdList)[2..];
    OtherHealthy(procs[m], Sends.Store(msg.fd, msg.packet));
  }

  lemma StepKeepsHealthy(role: Role, sys: System, a: Action)
    requires Inv(sys) && AllHealthy(sys.procs) && Orderly(sys, a)
    ensures AllHealthy(Step(role, sys, a).procs)
  {
    if Allowed(sys, a) {
      match a
      case Call(c, _, _, _) =>
        if c.DoOpen? { OpenHealthy(role, sys, a); } else { CloseListHealthy(sys, Closed(sys.st.t, c)); }
      case Send(dp, aux, packet) =>
        if SendTarget(sys.st.t, dp, aux).Some? {
          SendHealthy(sys, dp, aux, packet);
        }
      case Take(m) =>
        if m in sys.procs && sys.procs[m].queue != [] {
          TakeHealthy(sys.procs, m);
        }
      case Poll(m, rs) => TellOtherHealthy(sys.procs, m, Sends.Poll(rs));
      case Visit(m, i) => TellOtherHealthy(sys.procs, m, Sends.Visit(i));
    }
  }

  // ---------------------------------------------------------------------------------------------
  // What was handed over is what is stored and what waits
  // ---------------------------------------------------------------------------------------------

  function PacketsFor(queue: seq<Message>, fd: int): seq<Worker.Packet> {
    if queue == [] then []
    else (if queue[0].fd == fd then [queue[0].packet] else []) + PacketsFor(queue[1..], fd)
  }

  lemma {:induction false} PacketsForAppend(queue: seq<Message>, msg: Message, fd: int)
    ensures PacketsFor(queue + [msg], fd) == PacketsFor(queue, fd) + if msg.fd == fd then [msg.packet] else []
  {
    if queue != [] {
      assert (queue + [msg])[1..] == queue[1..] + [msg];
      PacketsForAppend(queue[1..], msg, fd);
    }
  }

  lemma {:induction false} NoPackets(queue: seq<Message>, fd: int)
    ensures PacketsFor(queue, fd) == [] <==> !Awaited(queue, fd)
  {
    if queue != [] {
      NoPackets(queue[1..], fd);
      if Awaited(queue[1..], fd) {
        var i :| 0 <= i < |queue[1..]| && queue[1..][i].fd == fd;
        assert queue[i + 1].fd == fd;
      }
      if Awaited(queue, fd) && queue[0].fd != fd {
        var i :| 0 <= i < |queue| && queue[i].fd == fd;
        assert queue[1..][i - 1].fd == fd;
      }
    }
  }

  lemma SinceAppend(log: seq<Sends.Event>, e: Sends.Event, fd: int)
    ensures var handed, sent := Sends.StoredSince(log, fd), Sends.SentSince(log, fd);
            && Sends.StoredSince(log + [e], fd) ==
               (if e.fd != fd || e.Sent? then handed else if e.Added? then [] else handed + [e.packet])
            && Sends.SentSince(log + [e], fd) ==
               (if e.fd != fd || e.Stored? then sent else if e.Added? then [] else sent + [e.packet])
  {
    assert (log + [e])[..|log|] == log;
  }

  /** For one connection: handed over is stored plus waiting, and both sides agree on what was sent. */
  ghost predicate Link(log: seq<Sends.Event>, p: Proc, fd: int) {
    && Sends.StoredSince(log, fd) == Sends.StoredSince(p.x.log, fd) + PacketsFor(p.queue, fd)
    && Sends.SentSince(log, fd) == Sends.SentSince(p.x.log, fd)
  }

  ghost predicate Linked(ofrw: map<Fd, RwInfo>, procs: map<MgrId, Proc>, log: seq<Sends.Event>) {
    forall s :: s in ofrw && ofrw[s].mgr in procs ==> Link(log, procs[ofrw[s].mgr], s)
  }

  /** What left on a connection since its latest open was handed over for it since then, in that order. */
  ghost predicate Delivers(log: seq<Sends.Event>) {
    forall fd :: Sends.Subsequence(Sends.SentSince(log, fd), Sends.StoredSince(log, fd))
  }

  lemma {:induction false} SubsequenceExtends(s: seq<Worker.Packet>, t: seq<Worker.Packet>, u: seq<Worker.Packet>)
    requires Sends.Subsequence(s, t)
    ensures Sends.Subsequence(s, t + u)
    decreases |u|
  {
    if u == [] {
      assert t + u == t;
    } else {
      SubsequenceExtends(s, t, u[..|u| - 1]);
      assert (t + u)[..|t + u| - 1] == t + u[..|u| - 1];
      SkipLast(s, t + u);
    }
  }

  lemma {:induction false} SkipLast(s: seq<Worker.Packet>, t: seq<Worker.Packet>)
    requires t != [] && Sends.Subsequence(s, t[..|t| - 1])
    ensures Sends.Subsequence(s, t)
  {
  }

  lemma {:induction false} SubsequenceMember(s: seq<Worker.Packet>, t: seq<Worker.Packet>, x: Worker.Packet)
    requires Sends.Subsequence(s, t) && x in s
    ensures x in t
    decreases |t|
  {
    if t != [] {
      if s[|s| - 1] == t[|t| - 1] && Sends.Subsequence(s[..|s| - 1], t[..|t| - 1]) {
        if x in s[..|s| - 1] {
          SubsequenceMember(s[..|s| - 1], t[..|t| - 1], x);
        }
      } else {
        SubsequenceMember(s, t[..|t| - 1], x);
      }
    }
  }

  /** A healthy thread delivers on every connection that is linked to it. */
  lemma HealthyDelivers(log: seq<Sends.Event>, p: Proc, fd: int)
    requires Healthy(p) && Link(log, p, fd)
    ensures Sends.Subsequence(Sends.SentSince(log, fd), Sends.StoredSince(log, fd))
  {
    Sends.SentIsSubsequenceOfStored(p.x.log, fd);
    SubsequenceExtends(Sends.SentSince(p.x.log, fd), Sends.StoredSince(p.x.log, fd), PacketsFor(p.queue, fd));
  }

  /** An event about a connection of thread m, which is healthy, leaves all others as they were. */
  lemma DeliversAfter(log: seq<Sends.Event>, e: Sends.Event, p: Proc)
    requires Delivers(log) && Healthy(p) && Link(log + [e], p, e.fd)
    ensures Delivers(log + [e])
  {
    forall fd ensures Sends.Subsequence(Sends.SentSince(log + [e], fd), Sends.StoredSince(log + [e], fd)) {
      SinceAppend(log, e, fd);
      if fd == e.fd {
        HealthyDelivers(log + [e], p, fd);
      }
    }
  }

  lemma LinkOther(log: seq<Sends.Event>, e: Sends.Event, p: Proc, fd: int)
    requires Link(log, p, fd) && e.fd != fd
    ensures Link(log + [e], p, fd)
  {
    SinceAppend(log, e, fd);
  }

  // ---------------------------------------------------------------------------------------------
  // Orderly steps keep the link
  // ---------------------------------------------------------------------------------------------

  /** Registry and workers agree, every thread is healthy, and every packet is where it belongs. */
  ghost predicate Good(sys: System) {
    && Inv(sys) && AllHealthy(sys.procs)
    && Linked(sys.st.t.ofrw, sys.procs, sys.log) && Delivers(sys.log)
  }

  lemma OpenTables(role: Role, st: Lifecycle.State, c: Runs.Action)
    requires Lifecycle.Inv(st) && c.DoOpen? && Runs.Allowed(st, c)
    ensures var ofrw' := Runs.Step(role, st, c).t.ofrw;
            if Opens(role, st, c)
            then && Lifecycle.FindOrCreate(st, c.m, c.spawnOk).1 == Some(ofrw'[c.s].mgr)
                 && ofrw' == st.t.ofrw[c.s := ofrw'[c.s]]
            else ofrw' == st.t.ofrw
  {
    if !Opens(role, st, c) {
      Lifecycle.FailedOpenIsInert(role, st, c.s, c.d, c.proto, c.key, c.m, c.spawnOk);
    }
  }

  lemma AddLogs(p: Proc, mgr: Manager, s: Fd)
    requires Healthy(p) && Realized(p, mgr) && s !in mgr.watched && s !in p.pipes
    requires mgr.numSockets != MAX_PER_THREAD_RWSOCKETS
    ensures Do(p, AddOf(s)).x.log == p.x.log + [Sends.Added(s)] && Do(p, AddOf(s)).queue == p.queue
    ensures !Awaited(p.queue, s)
  {
    AddRealized(p, mgr, s);
  }

  /** The threads that were there stay as they were, but for the chosen one. */
  lemma OpenThreads(role: Role, sys: System, a: Action, m: MgrId)
    requires a.Call? && a.call.DoOpen? && a.primary != a.data && m in sys.procs && a.call.m != m
    ensures var c := a.call; var procs' := OpenProcs(role, sys, a);
            && m in procs'
            && procs'[m] ==
               if Opens(role, sys.st, c) && Lifecycle.FindOrCreate(sys.st, c.m, c.spawnOk).1 == Some(m)
               then Do(sys.procs[m], AddOf(c.s)) else sys.procs[m]
  {
  }

  lemma NewThread(role: Role, sys: System, a: Action)
    requires a.Call? && a.call.DoOpen? && a.primary != a.data && Opens(role, sys.st, a.call)
    requires Find(sys.st.pool, sys.st.mgrs).None? && a.call.spawnOk
    ensures var procs' := OpenProcs(role, sys, a);
            a.call.m in procs' && procs'[a.call.m] == Do(Booted(a.memory, a.primary, a.data), AddOf(a.call.s))
  {
  }

  /** An add starts the connection anew on both sides. */
  lemma LinkFresh(log: seq<Sends.Event>, p: Proc, before: seq<Sends.Event>, fd: int)
    requires p.x.log == before + [Sends.Added(fd)] && !Awaited(p.queue, fd)
    ensures Link(log + [Sends.Added(fd)], p, fd)
  {
    SinceAppend(log, Sends.Added(fd), fd);
    SinceAppend(before, Sends.Added(fd), fd);
    NoPackets(p.queue, fd);
  }

  lemma FreshLink(role: Role, sys: System, a: Action, k: MgrId)
    requires Lifecycle.Inv(sys.st) && AllRealized(sys.procs, sys.st.mgrs) && AllHealthy(sys.procs)
    requires Allowed(sys, a) && a.Call? && a.call.DoOpen? && Opens(role, sys.st, a.call)
    requires Lifecycle.FindOrCreate(sys.st, a.call.m, a.call.spawnOk).1 == Some(k)
    ensures k in OpenProcs(role, sys, a)
    ensures Link(sys.log + [Sends.Added(a.call.s)], OpenProcs(role, sys, a)[k], a.call.s)
  {
    var c := a.call;
    FoundHasRoom(sys.st, c);
    if Find(sys.st.pool, sys.st.mgrs).Some? {
      OpenThreads(role, sys, a, k);
      AddLogs(sys.procs[k], sys.st.mgrs[k], c.s);
      LinkFresh(sys.log, OpenProcs(role, sys, a)[k], sys.procs[k].x.log, c.s);
    } else {
      NewThread(role, sys, a);
      BootedRealized(a.memory, a.primary, a.data);
      AddLogs(Booted(a.memory, a.primary, a.data), Manager(0, []), c.s);
      LinkFresh(sys.log, OpenProcs(role, sys, a)[k], [], c.s);
    }
  }

  lemma LinkSame(log: seq<Sends.Event>, p: Proc, p': Proc, fd: int)
    requires Link(log, p, fd) && p'.x.log == p.x.log && p'.queue == p.queue
    ensures Link(log, p', fd)
  {
  }

  lemma LinkAfterOpen(log: seq<Sends.Event>, p: Proc, p': Proc, s: int, fd: int)
    requires Link(log, p, fd) && fd != s && p'.queue == p.queue
    requires p'.x.log == p.x.log || p'.x.log == p.x.log + [Sends.Added(s)]
    ensures Link(log + [Sends.Added(s)], p', fd)
  {
    SinceAppend(log, Sends.Added(s), fd);
    SinceAppend(p.x.log, Sends.Added(s), fd);
  }

  lemma ManagerOf(sys: System, s: Fd)
    requires Inv(sys) && s in sys.st.t.ofrw
    ensures sys.st.t.ofrw[s].mgr in sys.procs
  {
  }

  lemma ChosenLogsTheAdd(sys: System, c: Runs.Action, m: MgrId)
    requires Inv(sys) && AllHealthy(sys.procs) && c.DoOpen? && Runs.Allowed(sys.st, c) && m in sys.procs
    requires c.s !in sys.procs[m].pipes
    ensures Lifecycle.FindOrCreate(sys.st, c.m, c.spawnOk).1 == Some(m) ==>
              && Do(sys.procs[m], AddOf(c.s)).x.log == sys.procs[m].x.log + [Sends.Added(c.s)]
              && Do(sys.procs[m], AddOf(c.s)).queue == sys.procs[m].queue
  {
    FoundHasRoom(sys.st, c);
    if Lifecycle.FindOrCreate(sys.st, c.m, c.spawnOk).1 == Some(m) {
      AddLogs(sys.procs[m], sys.st.mgrs[m], c.s);
    }
  }

  lemma OpenKeepsLinked(role: Role, sys: System, a: Action)
    requires Good(sys) && Allowed(sys, a) && a.Call? && a.call.DoOpen?
    ensures Linked(Step(role, sys, a).st.t.ofrw, Step(role, sys, a).procs, Step(role, sys, a).log)
  {
    var sys', c := Step(role, sys, a), a.call;
    OpenTables(role, sys.st, c);
    forall s | s in sys'.st.t.ofrw && sys'.st.t.ofrw[s].mgr in sys'.procs
      ensures Link(sys'.log, sys'.procs[sys'.st.t.ofrw[s].mgr], s)
    {
      var m := sys'.st.t.ofrw[s].mgr;
      if Opens(role, sys.st, c) && s == c.s {
        FreshLink(role, sys, a, m);
      } else {
        ManagerOf(sys, s);
        OpenThreads(role, sys, a, m);
        if Opens(role, sys.st, c) {
          ChosenLogsTheAdd(sys, c, m);
          LinkAfterOpen(sys.log, sys.procs[m], sys'.procs[m], c.s, s);
        } else {
          LinkSame(sys.log, sys.procs[m], sys'.procs[m], s);
        }
      }
    }
  }

  lemma OpenKeepsDelivers(log: seq<Sends.Event>, s: int)
    requires Delivers(log)
    ensures Delivers(log + [Sends.Added(s)])
  {
    forall fd ensures Sends.Subsequence(Sends.SentSince(log + [Sends.Added(s)], fd),
                                        Sends.StoredSince(log + [Sends.Added(s)], fd)) {
      SinceAppend(log, Sends.Added(s), fd);
    }
  }

  lemma {:induction false} ClosesKeepRows(st: Lifecycle.State, l: seq<Fd>)
    ensures forall s :: s in Lifecycle.CloseAll(st, l).t.ofrw ==>
              s in st.t.ofrw && Lifecycle.CloseAll(st, l).t.ofrw[s] == st.t.ofrw[s]
    decreases |l|
  {
    if l != [] {
      ClosesKeepRows(Lifecycle.Close(st, l[0]).0, l[1..]);
    }
  }

  lemma ClosesKeepLinked(sys: System, l: seq<Fd>)
    requires Good(sys)
    ensures Linked(Lifecycle.CloseAll(sys.st, l).t.ofrw, CloseList(sys, l).procs, sys.log)
  {
    var ofrw' := Lifecycle.CloseAll(sys.st, l).t.ofrw;
    var procs' := CloseList(sys, l).procs;
    ClosesKeepRows(sys.st, l);
    ReducedOfHealthy(sys.procs);
    CloseListReduces(sys.procs, sys, l);
    forall s | s in ofrw' && ofrw'[s].mgr in procs' ensures Link(sys.log, procs'[ofrw'[s].mgr], s) {
      assert Reduced(sys.procs[ofrw'[s].mgr], procs'[ofrw'[s].mgr]);
      LinkSame(sys.log, sys.procs[ofrw'[s].mgr], procs'[ofrw'[s].mgr], s);
    }
  }

  lemma LinkHandOver(log: seq<Sends.Event>, p: Proc, msg: Message, fd: int)
    requires Link(log, p, fd)
    ensures Link(log + [Sends.Stored(msg.fd, msg.packet)], p.(queue := p.queue + [msg]), fd)
  {
    SinceAppend(log, Sends.Stored(msg.fd, msg.packet), fd);
    PacketsForAppend(p.queue, msg, fd);
  }

  lemma SendKeepsLinked(ofrw: map<Fd, RwInfo>, procs: map<MgrId, Proc>, log: seq<Sends.Event>, msg: Message)
    requires Linked(ofrw, procs, log) && msg.fd in ofrw && ofrw[msg.fd].mgr in procs
    ensures Linked(ofrw, Queued(procs, ofrw[msg.fd].mgr, msg), log + [Sends.Stored(msg.fd, msg.packet)])
  {
    var e := Sends.Stored(msg.fd, msg.packet);
    var procs' := Queued(procs, ofrw[msg.fd].mgr, msg);
    forall s | s in ofrw && ofrw[s].mgr in procs' ensures Link(log + [e], procs'[ofrw[s].mgr], s) {
      if ofrw[s].mgr == ofrw[msg.fd].mgr {
        LinkHandOver(log, procs[ofrw[s].mgr], msg, s);
      } else {
        LinkOther(log, e, procs[ofrw[s].mgr], s);
      }
    }
  }

  lemma TakeLogs(p: Proc)
    requires Healthy(p) && p.queue != []
    ensures TakeOne(p).x.log == p.x.log + [Sends.Stored(p.queue[0].fd, p.queue[0].packet)]
    ensures TakeOne(p).queue == p.queue[1..] && TakeOne(p).x.w.fdList == p.x.w.fdList
  {
    assert p.queue[0].fd in Worker.Names(p.x.w.fdList)[2..];
  }

  lemma LinkTake(log: seq<Sends.Event>, p: Proc, p': Proc, fd: int)
    requires Link(log, p, fd) && p.queue != [] && p'.queue == p.queue[1..]
    requires p'.x.log == p.x.log + [Sends.Stored(p.queue[0].fd, p.queue[0].packet)]
    ensures Link(log, p', fd)
  {
    var e := Sends.Stored(p.queue[0].fd, p.queue[0].packet);
    var first := if p.queue[0].fd == fd then [p.queue[0].packet] else [];
    SinceAppend(p.x.log, e, fd);
    Regroup(Sends.StoredSince(p.x.log, fd), first, PacketsFor(p'.queue, fd));
  }

  lemma Regroup<T>(a: seq<T>, b: seq<T>, c: seq<T>)
    ensures a + (b + c) == (a + b) + c
    ensures a + [] == a
  {
  }

  lemma TakeKeepsLinked(ofrw: map<Fd, RwInfo>, procs: map<MgrId, Proc>, log: seq<Sends.Event>, m: MgrId)
    requires Linked(ofrw, procs, log) && AllHealthy(procs) && m in procs && procs[m].queue != []
    ensures Linked(ofrw, procs[m := TakeOne(procs[m])], log)
  {
    forall s | s in ofrw && ofrw[s].mgr in procs
      ensures Link(log, procs[m := TakeOne(procs[m])][ofrw[s].mgr], s)
    {
      if ofrw[s].mgr == m {
        TakeLogs(procs[m]);
        LinkTake(log, procs[m], TakeOne(procs[m]), s);
      }
    }
  }

  /** A visit logs nothing or one send, and then on the connection of a socket. */
  lemma VisitNews(p: Proc, mgr: Manager, i: nat)
    requires Healthy(p) && Realized(p, mgr)
    ensures var p' := Do(p, Sends.Visit(i));
            && p'.queue == p.queue && p'.x.log == p.x.log + News(p, p')
            && (News(p, p') != [] ==>
                  exists pk :: 2 <= i < |p.x.w.fdList| && News(p, p') == [Sends.Sent(p.x.w.fdList[i].fd, pk)]
                               && p.x.w.fdList[i].fd in mgr.watched)
  {
    var p' := Do(p, Sends.Visit(i));
    if p'.x.log != p.x.log {
      var fd := p.x.w.fdList[i].fd;
      assert Worker.Names(p.x.w.fdList)[2..][i - 2] == fd;
      assert p'.x.log[|p.x.log|..] == [Sends.Sent(fd, p'.x.log[|p.x.log|].packet)];
    } else {
      assert p'.x.log[|p.x.log|..] == [];
    }
  }

  lemma LinkVisit(log: seq<Sends.Event>, p: Proc, p': Proc, e: Sends.Event, fd: int)
    requires Link(log, p, fd) && e.Sent? && p'.queue == p.queue && p'.x.log == p.x.log + [e]
    ensures Link(log + [e], p', fd)
  {
    SinceAppend(log, e, fd);
    SinceAppend(p.x.log, e, fd);
  }

  lemma VisitKeepsGood(role: Role, sys: System, m: MgrId, i: nat)
    requires Good(sys) && m in sys.procs
    ensures var sys' := Step(role, sys, Visit(m, i));
            Linked(sys.st.t.ofrw, sys'.procs, sys'.log) && Delivers(sys'.log)
  {
    var sys' := Step(role, sys, Visit(m, i));
    var p, p' := sys.procs[m], sys'.procs[m];
    VisitNews(p, sys.st.mgrs[m], i);
    TellOtherHealthy(sys.procs, m, Sends.Visit(i));
    if News(p, p') == [] {
      assert sys'.log == sys.log;
      VisitLinked(sys.st.t.ofrw, sys.procs, sys.log, m, p');
    } else {
      var e := News(p, p')[0];
      assert sys'.log == sys.log + [e];
      WatchedIsRegistered(sys.st, m, e.fd);
      VisitLinksEvent(sys.st, sys.procs, sys.log, m, p', e);
      DeliversAfter(sys.log, e, p');
    }
  }

  lemma VisitLinked(ofrw: map<Fd, RwInfo>, procs: map<MgrId, Proc>, log: seq<Sends.Event>, m: MgrId, p': Proc)
    requires Linked(ofrw, procs, log) && m in procs
    requires p'.queue == procs[m].queue && p'.x.log == procs[m].x.log
    ensures Linked(ofrw, procs[m := p'], log)
  {
    forall s | s in ofrw && ofrw[s].mgr in procs ensures Link(log, procs[m := p'][ofrw[s].mgr], s) {
      LinkSame(log, procs[ofrw[s].mgr], procs[m := p'][ofrw[s].mgr], s);
    }
  }

  lemma VisitLinksEvent(st: Lifecycle.State, procs: map<MgrId, Proc>, log: seq<Sends.Event>, m: MgrId,
                        p': Proc, e: Sends.Event)
    requires Linked(st.t.ofrw, procs, log) && m in procs && e.Sent?
    requires e.fd in st.t.ofrw && st.t.ofrw[e.fd].mgr == m
    requires p'.queue == procs[m].queue && p'.x.log == procs[m].x.log + [e]
    ensures Linked(st.t.ofrw, procs[m := p'], log + [e]) && Link(log + [e], p', e.fd)
  {
    var ofrw := st.t.ofrw;
    forall s | s in ofrw && ofrw[s].mgr in procs
      ensures Link(log + [e], procs[m := p'][ofrw[s].mgr], s)
    {
      if ofrw[s].mgr == m {
        LinkVisit(log, procs[m], p', e, s);
      } else {
        LinkOther(log, e, procs[ofrw[s].mgr], s);
      }
    }
    LinkVisit(log, procs[m], p', e, e.fd);
  }

  lemma SendKeepsGood(role: Role, sys: System, dp: U64, aux: U8, packet: Worker.Packet)
    requires Good(sys)
    ensures var sys' := Step(role, sys, Send(dp, aux, packet));
            Linked(sys.st.t.ofrw, sys'.procs, sys'.log) && Delivers(sys'.log)
  {
    if SendTarget(sys.st.t, dp, aux).Some? {
      var (s, m) := SendTarget(sys.st.t, dp, aux).value;
      var sys' := Step(role, sys, Send(dp, aux, packet));
      ManagerOf(sys, s);
      SendHealthy(sys, dp, aux, packet);
      SendKeepsLinked(sys.st.t.ofrw, sys.procs, sys.log, Message(s, packet));
      DeliversAfter(sys.log, Sends.Stored(s, packet), sys'.procs[m]);
    }
  }

  lemma PollKeepsLinked(ofrw: map<Fd, RwInfo>, procs: map<MgrId, Proc>, log: seq<Sends.Event>, m: MgrId,
                        rs: seq<Worker.Flags>)
    requires Linked(ofrw, procs, log)
    ensures Linked(ofrw, Tell(procs, m, Sends.Poll(rs)), log)
  {
    if m in procs {
      VisitLinked(ofrw, procs, log, m, Do(procs[m], Sends.Poll(rs)));
    }
  }

  lemma CallKeepsGood(role: Role, sys: System, a: Action)
    requires Good(sys) && Allowed(sys, a) && a.Call?
    ensures var sys' := Step(role, sys, a); Linked(sys'.st.t.ofrw, sys'.procs, sys'.log) && Delivers(sys'.log)
  {
    if a.call.DoOpen? {
      OpenKeepsLinked(role, sys, a);
      OpenKeepsDelivers(sys.log, a.call.s);
    } else {
      ClosesKeepLinked(sys, Closed(sys.st.t, a.call));
      ClosedIsAll(role, sys.st, a.call);
    }
  }

  lemma StepKeepsLinked(role: Role, sys: System, a: Action)
    requires Good(sys)
    ensures var sys' := Step(role, sys, a); Linked(sys'.st.t.ofrw, sys'.procs, sys'.log) && Delivers(sys'.log)
  {
    if Allowed(sys, a) {
      match a
      case Call(_, _, _, _) => CallKeepsGood(role, sys, a);
      case Send(dp, aux, packet) => SendKeepsGood(role, sys, dp, aux, packet);
      case Take(m) =>
        if m in sys.procs && sys.procs[m].queue != [] {
          TakeKeepsLinked(sys.st.t.ofrw, sys.procs, sys.log, m);
        }
      case Poll(m, rs) => PollKeepsLinked(sys.st.t.ofrw, sys.procs, sys.log, m, rs);
      case Visit(m, i) => if m in sys.procs { VisitKeepsGood(role, sys, m, i); }
    }
  }

  lemma StepKeepsGood(role: Role, sys: System, a: Action)
    requires Good(sys) && Orderly(sys, a)
    ensures Good(Step(role, sys, a))
  {
    StepKeepsInv(role, sys, a);
    StepKeepsHealthy(role, sys, a);
    StepKeepsLinked(role, sys, a);
  }

  lemma {:induction false} OrderlyRunKeepsGood(role: Role, start: System, acts: seq<Action>)
    requires Good(start) && OrderlyRun(role, start, acts)
    ensures Good(Run(role, start, acts))
  {
    if acts != [] {
      OrderlyRunKeepsGood(role, start, acts[..|acts| - 1]);
      StepKeepsGood(role, Run(role, start, acts[..|acts| - 1]), acts[|acts| - 1]);
    }
  }

  lemma InitGood(m: MgrId, memory: seq<Worker.Slot>, primary: int, data: int)
    requires primary != data
    ensures Good(Init(m, memory, primary, data))
  {
    InitInv(m, memory, primary, data);
    BootedRealized(memory, primary, data);
  }

  /**
   From start-up, whatever is called, sent, read and polled: if every call closes cleanly, no assertion
   of a worker fails, nothing drifts, and what leaves on a connection was handed over for it since its
   latest open, in that order. What was handed over is what the worker stored and what still waits.
   */
  lemma OrderlyRunsDeliver(role: Role, m0: MgrId, memory: seq<Worker.Slot>, primary: int, data: int,
                           acts: seq<Action>, m: MgrId, fd: int)
    requires primary != data && OrderlyRun(role, Init(m0, memory, primary, data), acts)
    requires m in Run(role, Init(m0, memory, primary, data), acts).procs
    ensures var sys := Run(role, Init(m0, memory, primary, data), acts); var p := sys.procs[m];
            && !p.x.aborted && Worker.NoDrift(p.x.w) && Sends.Faithful(p.x.log)
            && Sends.Subsequence(Sends.SentSince(sys.log, fd), Sends.StoredSince(sys.log, fd))
            && (fd in sys.st.t.ofrw && sys.st.t.ofrw[fd].mgr == m ==>
                  Sends.StoredSince(sys.log, fd) == Sends.StoredSince(p.x.log, fd) + PacketsFor(p.queue, fd))
  {
    InitGood(m0, memory, primary, data);
    OrderlyRunKeepsGood(role, Init(m0, memory, primary, data), acts);
    DeliveryOf(Run(role, Init(m0, memory, primary, data), acts), m, fd);
  }

  lemma DeliveryOf(sys: System, m: MgrId, fd: int)
    requires Good(sys) && m in sys.procs
    ensures var p := sys.procs[m];
            && !p.x.aborted && Worker.NoDrift(p.x.w) && Sends.Faithful(p.x.log)
            && Sends.Subsequence(Sends.SentSince(sys.log, fd), Sends.StoredSince(sys.log, fd))
            && (fd in sys.st.t.ofrw && sys.st.t.ofrw[fd].mgr == m ==>
                  Sends.StoredSince(sys.log, fd) == Sends.StoredSince(p.x.log, fd) + PacketsFor(p.queue, fd))
  {
    assert Healthy(sys.procs[m]);
    assert fd in sys.st.t.ofrw && sys.st.t.ofrw[fd].mgr == m ==> Link(sys.log, sys.procs[m], fd);
  }
}
