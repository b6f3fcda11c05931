/**
 The add/delete handshake between any number of callers of one manager and its worker
 (src/cc_pollthr_mgr.c): a caller takes the mutex, writes its request to the primary pipe and waits on
 the condition variable; the worker reads a request, applies it, takes the mutex and signals once.
 Waits have no spurious wake-ups, and no request stops the worker.
 */
module Handshake {
  type Tid = nat

  datatype Pc =
    | Idle
    | Locked                  // holds the mutex, request not written yet
    | Written                 // holds the mutex, request in the pipe
    | Asleep                  // inside g_cond_wait
    | Woken                   // signalled, wants the mutex back
    | Leaving                 // holds the mutex again

  datatype WorkerPc = Polling | Applied | Signalling | Unlocking

  datatype Owner = Nobody | Caller(tid: Tid) | TheWorker

  /** Histories: who wrote a request, whose requests were applied, who was woken, who returned. */
  datatype State = State(
    mutex: Owner,
    pc: map<Tid, Pc>,
    worker: WorkerPc,
    pipe: seq<Tid>,
    asleep: set<Tid>,
    written: seq<Tid>,
    applied: seq<Tid>,
    signals: nat,
    lost: nat,
    returned: seq<Tid>)

  datatype Action =
    | Lock(t: Tid)
    | Write(t: Tid)
    | Wait(t: Tid)
    | Relock(t: Tid)
    | Return(t: Tid)
    | WorkerApply
    | WorkerLock
    | WorkerSignal(t: Tid)    // t is the sleeper the system chooses to wake
    | WorkerUnlock

  function Init(callers: set<Tid>): State {
    State(Nobody, map t | t in callers :: Idle, Polling, [], {}, [], [], 0, 0, [])
  }

  predicate At(s: State, t: Tid, p: Pc) {
    t in s.pc && s.pc[t] == p
  }

  predicate Enabled(s: State, a: Action) {
    match a
    case Lock(t) => At(s, t, Idle) && s.mutex == Nobody
    case Write(t) => At(s, t, Locked)
    case Wait(t) => At(s, t, Written)
    case Relock(t) => At(s, t, Woken) && s.mutex == Nobody
    case Return(t) => At(s, t, Leaving)
    case WorkerApply => s.worker == Polling && s.pipe != []
    case WorkerLock => s.worker == Applied && s.mutex == Nobody
    case WorkerSignal(t) => s.worker == Signalling && (t in s.asleep || s.asleep == {})
    case WorkerUnlock => s.worker == Unlocking
  }

  /** A signal with nobody asleep is lost; otherwise it wakes exactly the chosen sleeper. */
  function Step(s: State, a: Action): State {
    if !Enabled(s, a) then s else
      match a
      case Lock(t) => s.(mutex := Caller(t), pc := s.pc[t := Locked])
      case Write(t) => s.(pipe := s.pipe + [t], written := s.written + [t], pc := s.pc[t := Written])
      case Wait(t) => s.(mutex := Nobody, asleep := s.asleep + {t}, pc := s.pc[t := Asleep])
      case Relock(t) => s.(mutex := Caller(t), pc := s.pc[t := Leaving])
      case Return(t) => s.(mutex := Nobody, pc := s.pc[t := Idle], returned := s.returned + [t])
      case WorkerApply => s.(worker := Applied, pipe := s.pipe[1..], applied := s.applied + [s.pipe[0]])
      case WorkerLock => s.(mutex := TheWorker, worker := Signalling)
      case WorkerSignal(t) =>
        if s.asleep == {} then s.(worker := Unlocking, signals := s.signals + 1, lost := s.lost + 1)
        else s.(worker := Unlocking, signals := s.signals + 1, asleep := s.asleep - {t}, pc := s.pc[t := Woken])
      case WorkerUnlock => s.(mutex := Nobody, worker := Polling)
  }

  function Run(s: State, acts: seq<Action>): State {
    if acts == [] then s else Step(Run(s, acts[..|acts| - 1]), acts[|acts| - 1])
  }

  // ---------------------------------------------------------------------------------------------
  // The invariant
  // ---------------------------------------------------------------------------------------------

  predicate HoldsMutex(p: Pc) {
    p == Locked || p == Written || p == Leaving
  }

  /** Somebody wrote a request and still holds the mutex on the way into the wait. */
  predicate Entering(s: State) {
    s.mutex.Caller? && At(s, s.mutex.tid, Written)
  }

  function AsNat(b: bool): nat {
    if b then 1 else 0
  }

  /** A request was applied whose signal has not been given. */
  predicate SignalOwed(s: State) {
    s.worker == Applied || s.worker == Signalling
  }

  ghost predicate MutexInv(s: State) {
    && (forall t :: t in s.pc ==> (HoldsMutex(s.pc[t]) <==> s.mutex == Caller(t)))
    && (s.mutex.Caller? ==> s.mutex.tid in s.pc)
    && (s.mutex == TheWorker <==> s.worker == Signalling || s.worker == Unlocking)
    && (forall t :: t in s.asleep <==> At(s, t, Asleep))
  }

  ghost predicate CountInv(s: State) {
    && s.applied + s.pipe == s.written
    && s.signals + AsNat(SignalOwed(s)) == |s.applied|
    && |s.asleep| + AsNat(Entering(s)) == |s.pipe| + AsNat(SignalOwed(s))
    && s.lost == 0
  }

  ghost predicate Inv(s: State) {
    MutexInv(s) && CountInv(s)
  }

  lemma StepKeepsMutexInv(s: State, a: Action)
    requires MutexInv(s)
    ensures MutexInv(Step(s, a))
  {
  }

  predicate ByCaller(a: Action) {
    a.Lock? || a.Write? || a.Wait? || a.Relock? || a.Return?
  }

  lemma CallerKeepsCountInv(s: State, a: Action)
    requires Inv(s) && ByCaller(a)
    ensures CountInv(Step(s, a))
  {
    if Enabled(s, a) && a.Write? {
      assert Step(s, a).applied + Step(s, a).pipe == (s.applied + s.pipe) + [a.t];
    }
  }

  lemma WorkerKeepsCountInv(s: State, a: Action)
    requires Inv(s) && !ByCaller(a)
    ensures CountInv(Step(s, a))
  {
    if Enabled(s, a) {
      match a
      case WorkerApply => assert s.pipe == [s.pipe[0]] + s.pipe[1..];
      case WorkerSignal(t) => assert !Entering(s);
      case _ =>
    }
  }

  lemma StepKeepsCountInv(s: State, a: Action)
    requires Inv(s)
    ensures CountInv(Step(s, a))
  {
    if ByCaller(a) {
      CallerKeepsCountInv(s, a);
    } else {
      WorkerKeepsCountInv(s, a);
    }
  }

  lemma {:induction false} RunKeepsInv(callers: set<Tid>, acts: seq<Action>)
    ensures Inv(Run(Init(callers), acts))
  {
    if acts != [] {
      var n := |acts| - 1;
      RunKeepsInv(callers, acts[..n]);
      StepKeepsMutexInv(Run(Init(callers), acts[..n]), acts[n]);
      StepKeepsCountInv(Run(Init(callers), acts[..n]), acts[n]);
    }
  }

  // ---------------------------------------------------------------------------------------------
  // No wake-up is lost
  // ---------------------------------------------------------------------------------------------

  /**
   Whenever the worker is about to signal, the sleepers number the requests written minus the signals
   given, which is at least one; so no signal is ever lost.
   */
  lemma NoLostWakeup(callers: set<Tid>, acts: seq<Action>)
    ensures var s := Run(Init(callers), acts);
            && s.lost == 0
            && (s.worker == Signalling ==> |s.asleep| == |s.written| - s.signals >= 1)
  {
    RunKeepsInv(callers, acts);
    var s := Run(Init(callers), acts);
    if s.worker == Signalling {
      assert s.mutex == TheWorker && !Entering(s);
    }
  }

  // ---------------------------------------------------------------------------------------------
  // Who may return when
  // ---------------------------------------------------------------------------------------------

  ghost function OnTheWayOut(s: State): set<Tid> {
    set t | t in s.pc && IsOut(s.pc[t])
  }

  /** Every signal belongs to one return, past or still to come. */
  ghost predicate ReturnInv(s: State) {
    |s.returned| + |OnTheWayOut(s)| == s.signals
  }

  predicate IsOut(p: Pc) {
    p == Woken || p == Leaving
  }

  lemma OutUpdate(s: State, s': State, t: Tid, p: Pc)
    requires t in s.pc && s'.pc == s.pc[t := p]
    ensures |OnTheWayOut(s')| == |OnTheWayOut(s)| - AsNat(IsOut(s.pc[t])) + AsNat(IsOut(p))
  {
    var rest := OnTheWayOut(s) - {t};
    assert OnTheWayOut(s) == if IsOut(s.pc[t]) then rest + {t} else rest;
    assert OnTheWayOut(s') == if IsOut(p) then rest + {t} else rest;
  }

  lemma SignalFindsSleeper(s: State)
    requires Inv(s) && s.worker == Signalling
    ensures s.asleep != {}
  {
    assert !Entering(s);
  }

  lemma CallerKeepsReturnInv(s: State, a: Action)
    requires ReturnInv(s) && ByCaller(a)
    ensures ReturnInv(Step(s, a))
  {
    if Enabled(s, a) {
      OutUpdate(s, Step(s, a), a.t, Step(s, a).pc[a.t]);
    }
  }

  lemma WorkerKeepsReturnInv(s: State, a: Action)
    requires Inv(s) && ReturnInv(s) && !ByCaller(a)
    ensures ReturnInv(Step(s, a))
  {
    if a.WorkerSignal? && Enabled(s, a) {
      SignalFindsSleeper(s);
      OutUpdate(s, Step(s, a), a.t, Woken);
    } else {
      assert Step(s, a).pc == s.pc;
    }
  }

  lemma {:induction false} RunKeepsReturnInv(callers: set<Tid>, acts: seq<Action>)
    ensures ReturnInv(Run(Init(callers), acts))
  {
    if acts == [] {
      assert OnTheWayOut(Init(callers)) == {};
    } else {
      var n := |acts| - 1;
      RunKeepsInv(callers, acts[..n]);
      RunKeepsReturnInv(callers, acts[..n]);
      var s := Run(Init(callers), acts[..n]);
      if ByCaller(acts[n]) {
        CallerKeepsReturnInv(s, acts[n]);
      } else {
        WorkerKeepsReturnInv(s, acts[n]);
      }
    }
  }

  /** Calls never outrun the worker: returns <= requests applied, and requests apply once, in order. */
  lemma ReturnsNeverOutrunApplied(callers: set<Tid>, acts: seq<Action>)
    ensures var s := Run(Init(callers), acts);
            |s.returned| <= |s.applied| && s.applied <= s.written
  {
    RunKeepsInv(callers, acts);
    RunKeepsReturnInv(callers, acts);
  }

  /** While any call is under way, one of the calls or the worker can go on. */
  lemma OpenCallsGoOn(callers: set<Tid>, acts: seq<Action>, t: Tid) returns (a: Action)
    requires t in Run(Init(callers), acts).pc && Run(Init(callers), acts).pc[t] != Idle
    ensures Enabled(Run(Init(callers), acts), a) && !a.Lock?
  {
    var s := Run(Init(callers), acts);
    RunKeepsInv(callers, acts);
    if s.mutex.Caller? {
      var c := s.mutex.tid;
      a := if s.pc[c] == Locked then Write(c) else if s.pc[c] == Written then Wait(c) else Return(c);
    } else if s.worker == Signalling {
      var u := if s.asleep == {} then t else PickOne(s.asleep);
      a := WorkerSignal(u);
    } else if s.worker == Unlocking {
      a := WorkerUnlock;
    } else if s.worker == Applied {
      a := WorkerLock;
    } else if s.pipe != [] {
      a := WorkerApply;
    } else {
      assert s.asleep == {};
      assert !At(s, t, Asleep) && !HoldsMutex(s.pc[t]);
      a := Relock(t);
    }
  }

  ghost function PickOne(ts: set<Tid>): (t: Tid)
    requires ts != {}
    ensures t in ts
  {
    var t :| t in ts; t
  }

  // ---------------------------------------------------------------------------------------------
  // A lone caller
  // ---------------------------------------------------------------------------------------------

  /** With one caller, a request is open exactly while its call is between the write and the return. */
  ghost predicate LoneInv(s: State, t: Tid) {
    && s.pc.Keys == {t}
    && |s.written| == |s.returned| + AsNat(s.pc[t] != Idle && s.pc[t] != Locked)
    && (s.pc[t] == Idle || s.pc[t] == Locked || s.pc[t] == Woken || s.pc[t] == Leaving ==>
          s.applied == s.written && s.signals == |s.applied|)
  }

  lemma StepKeepsLoneInv(s: State, t: Tid, a: Action)
    requires Inv(s) && LoneInv(s, t)
    ensures LoneInv(Step(s, a), t)
  {
    var s' := Step(s, a);
    assert s.asleep <= {t};
    assert |s.asleep| <= |{t}| by {
      if s.asleep != {} { assert s.asleep == {t}; }
    }
    if Enabled(s, a) {
      assert s'.pc.Keys == {t};
      match a
      case WorkerSignal(u) =>
        assert s.asleep == {t};
        assert |s.pipe| == 0;
        assert s.applied == s.written;
      case WorkerApply => assert s.pipe != [] && s.pc[t] != Idle;
      case _ =>
    }
  }

  lemma {:induction false} RunKeepsLoneInv(t: Tid, acts: seq<Action>)
    ensures LoneInv(Run(Init({t}), acts), t)
  {
    if acts != [] {
      var n := |acts| - 1;
      RunKeepsInv({t}, acts[..n]);
      RunKeepsLoneInv(t, acts[..n]);
      StepKeepsLoneInv(Run(Init({t}), acts[..n]), t, acts[n]);
    }
  }

  /**
   A lone caller that can return has had every request it ever wrote applied exactly once, the last of
   them being the one it returns from.
   */
  lemma LoneCallerReturnsAfterItsRequest(t: Tid, acts: seq<Action>)
    requires Enabled(Run(Init({t}), acts), Return(t))
    ensures var s := Run(Init({t}), acts);
            s.applied == s.written && |s.applied| == |s.returned| + 1
  {
    RunKeepsLoneInv(t, acts);
  }

  /** One caller's way into the wait, undisturbed. */
  lemma GoesToSleep(s: State, t: Tid)
    requires At(s, t, Idle) && s.mutex == Nobody
    ensures Step(Step(Step(s, Lock(t)), Write(t)), Wait(t)) ==
            s.(pipe := s.pipe + [t], written := s.written + [t], asleep := s.asleep + {t}, pc := s.pc[t := Asleep])
  {
    assert s.pc[t := Locked][t := Written][t := Asleep] == s.pc[t := Asleep];
  }

  /** The front request applied, t chosen to be woken, and t back with the mutex. */
  lemma WakesUp(s: State, t: Tid)
    requires s.worker == Polling && s.pipe != [] && s.mutex == Nobody && t in s.asleep && At(s, t, Asleep)
    ensures var w := Step(Step(Step(s, WorkerApply), WorkerLock), WorkerSignal(t));
            var r := Step(Step(w, WorkerUnlock), Relock(t));
            At(r, t, Leaving) && r.pipe == s.pipe[1..] && r.applied == s.applied + [s.pipe[0]]
  {
  }

  /** Two callers asleep one after the other, the worker not yet awake. */
  lemma BothAsleep(callers: set<Tid>, u: Tid, t: Tid) returns (acts: seq<Action>)
    requires u in callers && t in callers && u != t
    ensures var s := Run(Init(callers), acts);
            && s.worker == Polling && s.mutex == Nobody && s.pipe == [u, t] && s.applied == []
            && t in s.asleep && At(s, t, Asleep)
  {
    var s0 := Init(callers);
    var a3 := Then(s0, [], Lock(u), Write(u), Wait(u));
    GoesToSleep(s0, u);
    acts := Then(s0, a3, Lock(t), Write(t), Wait(t));
    GoesToSleep(Run(s0, a3), t);
  }

  /** Beside any other caller u, t's call can be ready to return with none of t's requests applied. */
  lemma SecondCallerMayReturnEarly(callers: set<Tid>, u: Tid, t: Tid)
    requires u in callers && t in callers && u != t
    ensures exists acts :: var s := Run(Init(callers), acts);
                           Enabled(s, Return(t)) && t in s.pipe && t !in s.applied
  {
    var s0 := Init(callers);
    var a6 := BothAsleep(callers, u, t);
    var a9 := Then(s0, a6, WorkerApply, WorkerLock, WorkerSignal(t));
    Extend(s0, a9, WorkerUnlock);
    Extend(s0, a9 + [WorkerUnlock], Relock(t));
    WakesUp(Run(s0, a6), t);
    assert Enabled(Run(s0, a9 + [WorkerUnlock] + [Relock(t)]), Return(t));
  }

  /** Whenever a call of t can return, no request of t is left in the pipe. */
  ghost predicate AlwaysAnswered(callers: set<Tid>, t: Tid) {
    forall acts :: Enabled(Run(Init(callers), acts), Return(t)) ==> t !in Run(Init(callers), acts).pipe
  }

  /** A caller is sure that its request was applied exactly when nobody else calls. */
  lemma AnsweredIffAlone(callers: set<Tid>, t: Tid)
    requires t in callers
    ensures AlwaysAnswered(callers, t) <==> callers == {t}
  {
    if callers == {t} {
      forall acts | Enabled(Run(Init(callers), acts), Return(t)) ensures t !in Run(Init(callers), acts).pipe {
        RunKeepsInv(callers, acts);
        LoneCallerReturnsAfterItsRequest(t, acts);
      }
    } else {
      var u :| u in callers && u != t;
      SecondCallerMayReturnEarly(callers, u, t);
    }
  }

  // ---------------------------------------------------------------------------------------------
  // One call among others
  // ---------------------------------------------------------------------------------------------

  /**
   The request t writes in s is number |s.written|. However things go on, when this very call of t can
   return, that request has been applied.
   */
  ghost predicate CallAnswered(s: State, t: Tid) {
    forall more :: Return(t) !in more && Enabled(Run(Step(s, Write(t)), more), Return(t)) ==>
      |Run(Step(s, Write(t)), more).applied| > |s.written|
  }

  /** Either t still waits for a signal that comes after n others, or request number n is applied. */
  ghost predicate StillOwed(s: State, t: Tid, n: nat) {
    |s.applied| > n || ((At(s, t, Written) || At(s, t, Asleep)) && s.signals >= n)
  }

  lemma StepStaysOwed(s: State, t: Tid, n: nat, a: Action)
    requires Inv(s) && StillOwed(s, t, n) && a != Return(t)
    ensures StillOwed(Step(s, a), t, n)
  {
  }

  lemma {:induction false} StaysOwed(s: State, t: Tid, n: nat, more: seq<Action>)
    requires Inv(s) && StillOwed(s, t, n) && Return(t) !in more
    ensures Inv(Run(s, more)) && StillOwed(Run(s, more), t, n)
  {
    if more != [] {
      var k := |more| - 1;
      StaysOwed(s, t, n, more[..k]);
      StepStaysOwed(Run(s, more[..k]), t, n, more[k]);
      StepKeepsMutexInv(Run(s, more[..k]), more[k]);
      StepKeepsCountInv(Run(s, more[..k]), more[k]);
    }
  }

  /** With a signal owed and t asleep, that signal can be the one that lets t go. */
  lemma OwedSignalReturns(s: State, t: Tid) returns (acts: seq<Action>)
    requires s.worker == Applied && s.mutex == Nobody && t in s.asleep && At(s, t, Asleep)
    ensures Return(t) !in acts && Enabled(Run(s, acts), Return(t)) && Run(s, acts).applied == s.applied
  {
    acts := [WorkerLock, WorkerSignal(t), WorkerUnlock, Relock(t)];
    FourActs(s, WorkerLock, WorkerSignal(t), WorkerUnlock, Relock(t));
  }

  lemma FourActs(s: State, a: Action, b: Action, c: Action, d: Action)
    ensures Run(s, [a, b, c, d]) == Step(Step(Step(Step(s, a), b), c), d)
  {
    Extend(s, [], a);
    Extend(s, [a], b);
    Extend(s, [a, b], c);
    Extend(s, [a, b, c], d);
    assert [] + [a] == [a] && [a] + [b] == [a, b];
    assert [a, b] + [c] == [a, b, c] && [a, b, c] + [d] == [a, b, c, d];
  }

  /** From the write with a request of somebody open, a signal can come to be owed before t's own. */
  lemma OpenRequestOwes(s: State, t: Tid) returns (acts: seq<Action>)
    requires Inv(s) && At(s, t, Locked) && (s.pipe != [] || SignalOwed(s))
    ensures Return(t) !in acts
    ensures var r := Run(Step(s, Write(t)), acts);
            && r.worker == Applied && r.mutex == Nobody && t in r.asleep && At(r, t, Asleep)
            && |r.applied| <= |s.written|
  {
    var s1 := Step(s, Write(t));
    acts := [Wait(t)];
    Extend(s1, [], Wait(t));
    assert [] + [Wait(t)] == acts;
    if s.worker == Polling {
      acts := [Wait(t), WorkerApply];
      Extend(s1, [Wait(t)], WorkerApply);
      assert [Wait(t)] + [WorkerApply] == acts;
    }
  }

  lemma {:induction false} RunConcat(s: State, a: seq<Action>, b: seq<Action>)
    ensures Run(s, a + b) == Run(Run(s, a), b)
  {
    if b == [] {
      assert a + b == a;
    } else {
      var n := |b| - 1;
      RunConcat(s, a, b[..n]);
      Extend(s, a + b[..n], b[n]);
      assert a + b == a + b[..n] + [b[n]];
    }
  }

  lemma OpenRequestWakes(s: State, t: Tid)
    requires Inv(s) && At(s, t, Locked) && (s.pipe != [] || SignalOwed(s))
    ensures !CallAnswered(s, t)
  {
    var a := OpenRequestOwes(s, t);
    var b := OwedSignalReturns(Run(Step(s, Write(t)), a), t);
    RunConcat(Step(s, Write(t)), a, b);
    assert Return(t) !in a + b;
  }

  /** A call is sure of its answer exactly when no request is open at the moment it writes its own. */
  lemma CallAnsweredIff(s: State, t: Tid)
    requires Inv(s) && At(s, t, Locked)
    ensures CallAnswered(s, t) <==> s.pipe == [] && !SignalOwed(s)
  {
    if s.pipe != [] || SignalOwed(s) {
      OpenRequestWakes(s, t);
    } else {
      var s1 := Step(s, Write(t));
      StepKeepsMutexInv(s, Write(t));
      StepKeepsCountInv(s, Write(t));
      forall more | Return(t) !in more && Enabled(Run(s1, more), Return(t))
        ensures |Run(s1, more).applied| > |s.written|
      {
        StaysOwed(s1, t, |s.written|, more);
      }
    }
  }

  lemma Extend(s: State, acts: seq<Action>, a: Action)
    ensures Run(s, acts + [a]) == Step(Run(s, acts), a)
  {
    assert (acts + [a])[..|acts|] == acts;
  }

  lemma Then(s: State, acts: seq<Action>, a: Action, b: Action, c: Action) returns (longer: seq<Action>)
    ensures Run(s, longer) == Step(Step(Step(Run(s, acts), a), b), c)
  {
    longer := acts + [a] + [b] + [c];
    Extend(s, acts, a);
    Extend(s, acts + [a], b);
    Extend(s, acts + [a] + [b], c);
  }
}
