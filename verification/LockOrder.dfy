/**
 Lock discipline of the library (src/cc_of_lib.c, src/cc_of_util.c, src/cc_tcp_conn.c): the three table
 mutexes and the pool-list mutex, taken by any number of threads running any mix of operations whose
 callbacks do not re-enter the library. Waiting for a worker's answer is not a mutex and not covered.
 */
module LockOrder {
  import opened Lists

  datatype Lock = Dev | Chan | Rw | PoolList

  datatype Act = Acquire(l: Lock) | Release(l: Lock)

  /** `touches` counts the pool-list critical sections an operation happens to pass through. */
  datatype Operation =
    | Register
    | OpenChannel(touches: nat, failed: bool)
    | Accept(touches: nat, failed: bool, deviceGone: bool)
    | Read
    | Rename
    | Send(known: bool)
    | Destroy(known: bool, touches: nat)
    | DevFree(touches: nat)
    | LibFree(devices: seq<nat>)

  function Rank(l: Lock): nat {
    match l case Dev => 0 case Chan => 1 case Rw => 2 case PoolList => 3
  }

  function Touch(n: nat): seq<Act> {
    if n == 0 then [] else [Acquire(PoolList), Release(PoolList)] + Touch(n - 1)
  }

  const TABLES: seq<Act> := [Acquire(Dev), Acquire(Chan), Acquire(Rw)]
  const UNTABLES: seq<Act> := [Release(Rw), Release(Chan), Release(Dev)]

  /** cc_add_sockfd_rw_pollthr_safe: the tables are taken once, and again for the clean-up. */
  function AddScript(touches: nat, failed: bool): seq<Act> {
    Touch(touches) + (TABLES + UNTABLES + if failed then TABLES + UNTABLES else [])
  }

  function DrainScript(touches: nat): seq<Act> {
    [Acquire(Chan), Acquire(Rw)] + (Touch(touches) + [Release(Rw), Release(Chan)])
  }

  function DrainAll(devices: seq<nat>): seq<Act> {
    if devices == [] then [] else DrainScript(devices[0]) + DrainAll(devices[1..])
  }

  function Script(op: Operation): seq<Act> {
    match op
    case Register => [Acquire(Dev), Release(Dev)]
    case OpenChannel(n, failed) => AddScript(n, failed)
    case Accept(n, failed, gone) =>
      [Acquire(Dev), Release(Dev)] + (AddScript(n, failed) +
        if failed then []
        else [Acquire(Dev), Release(Dev)] + if gone then [] else [Acquire(Rw), Release(Rw)])
    case Read => TABLES + UNTABLES
    case Rename => [Acquire(Chan), Release(Chan)]
    case Send(known) =>
      if known then [Acquire(Chan), Acquire(Rw), Release(Rw), Release(Chan)]
      else [Acquire(Chan), Release(Chan)]
    case Destroy(known, n) =>
      if known then TABLES + (Touch(n) + UNTABLES)
      else [Acquire(Dev), Acquire(Chan), Release(Chan), Release(Dev)]
    case DevFree(n) => TABLES + (Touch(n) + UNTABLES)
    case LibFree(ds) =>
      [Acquire(Dev)] + (DrainAll(ds) + ([Release(Dev)] +
        [Acquire(Rw), Acquire(Chan), Release(Chan), Release(Rw), Acquire(PoolList), Release(PoolList)]))
  }

  /** Operations that take the channel lock and then, still holding it, the socket lock. */
  predicate NestsChanRw(op: Operation) {
    match op
    case OpenChannel(_, _) => true
    case Accept(_, _, _) => true
    case Read => true
    case Send(known) => known
    case Destroy(known, _) => known
    case DevFree(_) => true
    case LibFree(ds) => ds != []
    case _ => false
  }

  /** The tables and the list an operation reads or changes. */
  predicate Touches(op: Operation, l: Lock) {
    match op
    case Register => l == Dev
    case OpenChannel(n, _) => l != PoolList || n > 0
    case Accept(n, _, _) => l != PoolList || n > 0
    case Read => l != PoolList
    case Rename => l == Chan
    case Send(known) => l == Chan || (l == Rw && known)
    case Destroy(known, n) => l == Dev || l == Chan || (known && (l == Rw || n > 0))
    case DevFree(n) => l != PoolList || n > 0
    case LibFree(_) => true
  }

  function Acquired(acts: seq<Act>): set<Lock> {
    if acts == [] then {} else (if acts[0].Acquire? then {acts[0].l} else {}) + Acquired(acts[1..])
  }

  lemma {:induction false} AcquiredConcat(a: seq<Act>, b: seq<Act>)
    ensures Acquired(a + b) == Acquired(a) + Acquired(b)
  {
    if a == [] {
      assert a + b == b;
    } else {
      assert (a + b)[1..] == a[1..] + b;
      AcquiredConcat(a[1..], b);
    }
  }

  lemma AcquiredPair(x: Act, y: Act)
    ensures Acquired([x]) == (if x.Acquire? then {x.l} else {})
    ensures Acquired([x, y]) == Acquired([x]) + Acquired([y])
  {
    assert [x][1..] == [] && [y][1..] == [];
    assert [x, y] == [x] + [y];
    AcquiredConcat([x], [y]);
  }

  lemma {:induction false} AcquiredTouch(n: nat)
    ensures Acquired(Touch(n)) == if n > 0 then {PoolList} else {}
  {
    if n > 0 {
      AcquiredPair(Acquire(PoolList), Release(PoolList));
      AcquiredPair(Release(PoolList), Release(PoolList));
      AcquiredConcat([Acquire(PoolList), Release(PoolList)], Touch(n - 1));
      AcquiredTouch(n - 1);
    }
  }

  lemma AcquiredTables()
    ensures Acquired(TABLES) == {Dev, Chan, Rw} && Acquired(UNTABLES) == {}
    ensures Acquired(TABLES + UNTABLES) == {Dev, Chan, Rw}
  {
    assert TABLES[1..] == [Acquire(Chan), Acquire(Rw)] && UNTABLES[1..] == [Release(Chan), Release(Dev)];
    AcquiredPair(Acquire(Chan), Acquire(Rw));
    AcquiredPair(Acquire(Rw), Acquire(Rw));
    AcquiredPair(Release(Chan), Release(Dev));
    AcquiredPair(Release(Dev), Release(Dev));
    AcquiredConcat(TABLES, UNTABLES);
  }

  lemma AcquiredLock(l: Lock)
    ensures Acquired([Acquire(l), Release(l)]) == {l}
  {
    AcquiredPair(Acquire(l), Release(l));
    AcquiredPair(Release(l), Release(l));
  }

  lemma AcquiredNested(a: Lock, b: Lock)
    ensures Acquired([Acquire(a), Acquire(b), Release(b), Release(a)]) == {a, b}
  {
    var s := [Acquire(a), Acquire(b)] + [Release(b), Release(a)];
    assert s == [Acquire(a), Acquire(b), Release(b), Release(a)];
    AcquiredPair(Acquire(a), Acquire(b));
    AcquiredPair(Acquire(b), Acquire(b));
    AcquiredPair(Release(b), Release(a));
    AcquiredPair(Release(a), Release(a));
    AcquiredConcat([Acquire(a), Acquire(b)], [Release(b), Release(a)]);
  }

  lemma AcquiredAdd(n: nat, failed: bool)
    ensures Acquired(AddScript(n, failed)) == {Dev, Chan, Rw} + if n > 0 then {PoolList} else {}
  {
    var again := if failed then TABLES + UNTABLES else [];
    AcquiredTouch(n);
    AcquiredTables();
    AcquiredConcat(TABLES + UNTABLES, again);
    AcquiredConcat(Touch(n), TABLES + UNTABLES + again);
  }

  lemma AcquiredUnderTables(n: nat)
    ensures Acquired(TABLES + (Touch(n) + UNTABLES)) == {Dev, Chan, Rw} + if n > 0 then {PoolList} else {}
  {
    AcquiredTouch(n);
    AcquiredTables();
    AcquiredConcat(Touch(n), UNTABLES);
    AcquiredConcat(TABLES, Touch(n) + UNTABLES);
  }

  lemma AcquiredAccept(n: nat, failed: bool, gone: bool)
    ensures Acquired(Script(Accept(n, failed, gone))) == {Dev, Chan, Rw} + if n > 0 then {PoolList} else {}
  {
    var up := if gone then [] else [Acquire(Rw), Release(Rw)];
    var tail := if failed then [] else [Acquire(Dev), Release(Dev)] + up;
    AcquiredLock(Dev);
    AcquiredLock(Rw);
    AcquiredAdd(n, failed);
    AcquiredConcat([Acquire(Dev), Release(Dev)], up);
    AcquiredConcat(AddScript(n, failed), tail);
    AcquiredConcat([Acquire(Dev), Release(Dev)], AddScript(n, failed) + tail);
  }

  lemma AcquiredFree(ds: seq<nat>)
    ensures {Dev, Chan, Rw, PoolList} <= Acquired(Script(LibFree(ds)))
  {
    var last := [Acquire(PoolList), Release(PoolList)];
    AcquiredLock(PoolList);
    AcquiredNested(Rw, Chan);
    AcquiredConcat(REVERSED, last);
    AcquiredPair(Acquire(Dev), Acquire(Dev));
    AcquiredConcat([Acquire(Dev)], DrainAll(ds) + [Release(Dev)]);
    FreeSplits(ds);
    AcquiredConcat(BeforeReversed(ds), REVERSED + last);
    assert Acquired(REVERSED + last) == {Rw, Chan, PoolList};
  }

  /** An operation takes the lock of a table exactly when it touches that table. */
  lemma AcquiresWhatItTouches(op: Operation, l: Lock)
    ensures l in Acquired(Script(op)) <==> Touches(op, l)
  {
    match op
    case Register => AcquiredLock(Dev);
    case OpenChannel(n, failed) => AcquiredAdd(n, failed);
    case Accept(n, failed, gone) => AcquiredAccept(n, failed, gone);
    case Read => AcquiredTables();
    case Rename => AcquiredLock(Chan);
    case Send(known) => AcquiredLock(Chan); AcquiredNested(Chan, Rw);
    case Destroy(known, n) => AcquiredUnderTables(n); AcquiredNested(Dev, Chan);
    case DevFree(n) => AcquiredUnderTables(n);
    case LibFree(ds) => AcquiredFree(ds);
  }

  function Scripts(ops: seq<Operation>): (r: seq<seq<Act>>)
    ensures |r| == |ops|
  {
    seq(|ops|, i requires 0 <= i < |ops| => Script(ops[i]))
  }

  function Join(parts: seq<seq<Act>>): seq<Act> {
    if parts == [] then [] else parts[0] + Join(parts[1..])
  }

  /** One operation after the other. */
  function Program(ops: seq<Operation>): seq<Act> {
    Join(Scripts(ops))
  }

  // ---------------------------------------------------------------------------------------------
  // Ordered scripts
  // ---------------------------------------------------------------------------------------------

  /** Upwards only; a script that is not strict may also take Chan while holding Rw and nothing else. */
  predicate MayAcquire(strict: bool, held: set<Lock>, l: Lock) {
    (forall h :: h in held ==> Rank(h) < Rank(l)) || (!strict && held == {Rw} && l == Chan)
  }

  /** The locks held after a script, or None if an acquisition is out of order or a release unfounded. */
  function Exec(strict: bool, held: set<Lock>, acts: seq<Act>): Option<set<Lock>>
    decreases |acts|
  {
    if acts == [] then Some(held)
    else match acts[0]
      case Acquire(l) => if MayAcquire(strict, held, l) then Exec(strict, held + {l}, acts[1..]) else None
      case Release(l) => if l in held then Exec(strict, held - {l}, acts[1..]) else None
  }

  predicate Ordered(strict: bool, script: seq<Act>) {
    Exec(strict, {}, script) == Some({})
  }

  /** What a strict script does, it does without the exception. */
  lemma {:induction false} StrictIsEnough(held: set<Lock>, acts: seq<Act>)
    requires Exec(true, held, acts).Some?
    ensures Exec(false, held, acts) == Exec(true, held, acts)
    decreases |acts|
  {
    if acts != [] {
      match acts[0]
      case Acquire(l) => StrictIsEnough(held + {l}, acts[1..]);
      case Release(l) => StrictIsEnough(held - {l}, acts[1..]);
    }
  }

  lemma {:induction false} ExecConcat(strict: bool, held: set<Lock>, a: seq<Act>, b: seq<Act>)
    ensures Exec(strict, held, a + b) == if Exec(strict, held, a).None? then None else Exec(strict, Exec(strict, held, a).value, b)
    decreases |a|
  {
    if a == [] {
      assert a + b == b;
    } else {
      assert (a + b)[1..] == a[1..] + b;
      match a[0]
      case Acquire(l) => ExecConcat(strict, held + {l}, a[1..], b);
      case Release(l) => ExecConcat(strict, held - {l}, a[1..], b);
    }
  }

  lemma ExecTwo(strict: bool, held: set<Lock>, x: Act, y: Act)
    ensures Exec(strict, held, [x, y]) == if Exec(strict, held, [x]).None? then None else Exec(strict, Exec(strict, held, [x]).value, [y])
  {
    assert [x, y] == [x] + [y];
    ExecConcat(strict, held, [x], [y]);
  }

  lemma {:induction false} TouchKeeps(strict: bool, held: set<Lock>, n: nat)
    requires PoolList !in held
    ensures Exec(strict, held, Touch(n)) == Some(held)
  {
    if n > 0 {
      var one := [Acquire(PoolList), Release(PoolList)];
      ExecTwo(strict, held, Acquire(PoolList), Release(PoolList));
      assert held + {PoolList} - {PoolList} == held;
      ExecConcat(strict, held, one, Touch(n - 1));
      TouchKeeps(strict, held, n - 1);
    }
  }

  lemma TablesUp(strict: bool)
    ensures Exec(strict, {}, TABLES) == Some({Dev, Chan, Rw})
    ensures Exec(strict, {Dev, Chan, Rw}, UNTABLES) == Some({})
    ensures Exec(strict, {}, TABLES + UNTABLES) == Some({})
  {
    assert {} + {Dev} + {Chan} + {Rw} == {Dev, Chan, Rw};
    assert TABLES[1..] == [Acquire(Chan), Acquire(Rw)] && TABLES[1..][1..] == [Acquire(Rw)];
    assert {Dev, Chan, Rw} - {Rw} == {Dev, Chan};
    assert {Dev, Chan} - {Chan} == {Dev};
    assert {Dev} - {Dev} == {};
    assert UNTABLES[1..] == [Release(Chan), Release(Dev)] && UNTABLES[1..][1..] == [Release(Dev)];
    ExecConcat(strict, {}, TABLES, UNTABLES);
  }

  lemma OneLock(strict: bool, l: Lock)
    ensures Ordered(strict, [Acquire(l), Release(l)])
  {
    ExecTwo(strict, {}, Acquire(l), Release(l));
  }

  lemma Nested(strict: bool, a: Lock, b: Lock)
    requires Rank(a) < Rank(b)
    ensures Ordered(strict, [Acquire(a), Acquire(b), Release(b), Release(a)])
  {
    var s := [Acquire(a), Acquire(b)] + [Release(b), Release(a)];
    assert s == [Acquire(a), Acquire(b), Release(b), Release(a)];
    ExecTwo(strict, {}, Acquire(a), Acquire(b));
    ExecTwo(strict, {a, b}, Release(b), Release(a));
    assert {} + {a} + {b} == {a, b};
    assert {a, b} - {b} - {a} == {};
    ExecConcat(strict, {}, [Acquire(a), Acquire(b)], [Release(b), Release(a)]);
  }

  lemma OrderedConcat(strict: bool, a: seq<Act>, b: seq<Act>)
    requires Ordered(strict, a) && Ordered(strict, b)
    ensures Ordered(strict, a + b)
  {
    ExecConcat(strict, {}, a, b);
  }

  lemma AddOrdered(strict: bool, n: nat, failed: bool)
    ensures Ordered(strict, AddScript(n, failed))
  {
    TouchKeeps(strict, {}, n);
    TablesUp(strict);
    OrderedConcat(strict, TABLES + UNTABLES, if failed then TABLES + UNTABLES else []);
    OrderedConcat(strict, Touch(n), TABLES + UNTABLES + if failed then TABLES + UNTABLES else []);
  }

  lemma UnderTables(strict: bool, n: nat)
    ensures Ordered(strict, TABLES + (Touch(n) + UNTABLES))
  {
    TablesUp(strict);
    TouchKeeps(strict, {Dev, Chan, Rw}, n);
    ExecConcat(strict, {Dev, Chan, Rw}, Touch(n), UNTABLES);
    ExecConcat(strict, {}, TABLES, Touch(n) + UNTABLES);
  }

  /** Every operation but the library shutdown takes device, channel, socket, pool list in that order. */
  lemma OperationOrdered(op: Operation)
    requires !op.LibFree?
    ensures Ordered(true, Script(op))
  {
    match op
    case Register => OneLock(true, Dev);
    case OpenChannel(n, failed) => AddOrdered(true, n, failed);
    case Accept(n, failed, gone) =>
      OneLock(true, Dev);
      OneLock(true, Rw);
      AddOrdered(true, n, failed);
      var tail := if gone then [] else [Acquire(Rw), Release(Rw)];
      OrderedConcat(true, [Acquire(Dev), Release(Dev)], tail);
      var rest := if failed then [] else [Acquire(Dev), Release(Dev)] + tail;
      OrderedConcat(true, AddScript(n, failed), rest);
      OrderedConcat(true, [Acquire(Dev), Release(Dev)], AddScript(n, failed) + rest);
    case Read => TablesUp(true);
    case Rename => OneLock(true, Chan);
    case Send(known) => if known { Nested(true, Chan, Rw); } else { OneLock(true, Chan); }
    case Destroy(known, n) => if known { UnderTables(true, n); } else { Nested(true, Dev, Chan); }
    case DevFree(n) => UnderTables(true, n);
  }

  lemma {:induction false} DrainAllOrdered(ds: seq<nat>)
    ensures Exec(false, {Dev}, DrainAll(ds)) == Some({Dev})
  {
    if ds != [] {
      var up, down := [Acquire(Chan), Acquire(Rw)], [Release(Rw), Release(Chan)];
      ExecTwo(false, {Dev}, Acquire(Chan), Acquire(Rw));
      ExecTwo(false, {Dev, Chan, Rw}, Release(Rw), Release(Chan));
      assert {Dev} + {Chan} + {Rw} == {Dev, Chan, Rw};
      assert {Dev, Chan, Rw} - {Rw} - {Chan} == {Dev};
      TouchKeeps(false, {Dev, Chan, Rw}, ds[0]);
      ExecConcat(false, {Dev, Chan, Rw}, Touch(ds[0]), down);
      ExecConcat(false, {Dev}, up, Touch(ds[0]) + down);
      ExecConcat(false, {Dev}, DrainScript(ds[0]), DrainAll(ds[1..]));
      DrainAllOrdered(ds[1..]);
    }
  }

  /** The table locks cc_of_lib_free takes last, the wrong way round. */
  const REVERSED: seq<Act> := [Acquire(Rw), Acquire(Chan), Release(Chan), Release(Rw)]

  lemma ReversedIsTheException()
    ensures Ordered(false, REVERSED)
    ensures Exec(false, {}, REVERSED[..1]) == Some({Rw})
  {
    assert REVERSED == [Acquire(Rw), Acquire(Chan)] + [Release(Chan), Release(Rw)];
    assert REVERSED[..1] == [Acquire(Rw)] && REVERSED[..1][1..] == [];
    assert {} + {Rw} == {Rw} && {Rw} + {Chan} - {Chan} - {Rw} == {};
    ExecTwo(false, {}, Acquire(Rw), Acquire(Chan));
    ExecTwo(false, {Rw} + {Chan}, Release(Chan), Release(Rw));
    ExecConcat(false, {}, [Acquire(Rw), Acquire(Chan)], [Release(Chan), Release(Rw)]);
  }

  /** What a shutdown does before the reversed pair. */
  function BeforeReversed(ds: seq<nat>): seq<Act> {
    [Acquire(Dev)] + (DrainAll(ds) + [Release(Dev)])
  }

  lemma FreeSplits(ds: seq<nat>)
    ensures Script(LibFree(ds)) == BeforeReversed(ds) + (REVERSED + [Acquire(PoolList), Release(PoolList)])
  {
  }

  lemma BeforeReversedOrdered(ds: seq<nat>)
    ensures Ordered(false, BeforeReversed(ds))
  {
    DrainAllOrdered(ds);
    assert [Acquire(Dev)][1..] == [] && [Release(Dev)][1..] == [];
    assert {} + {Dev} == {Dev} && {Dev} - {Dev} == {};
    ExecConcat(false, {Dev}, DrainAll(ds), [Release(Dev)]);
    ExecConcat(false, {}, [Acquire(Dev)], DrainAll(ds) + [Release(Dev)]);
  }

  /** Every operation, shutdown included, is ordered up to the one exception. */
  lemma ScriptOrdered(op: Operation)
    ensures Ordered(false, Script(op))
  {
    if op.LibFree? {
      FreeSplits(op.devices);
      BeforeReversedOrdered(op.devices);
      ReversedIsTheException();
      OneLock(false, PoolList);
      OrderedConcat(false, REVERSED, [Acquire(PoolList), Release(PoolList)]);
      OrderedConcat(false, BeforeReversed(op.devices), REVERSED + [Acquire(PoolList), Release(PoolList)]);
    } else {
      OperationOrdered(op);
      StrictIsEnough({}, Script(op));
    }
  }

  ghost predicate AllOrdered(scripts: seq<seq<Act>>) {
    forall t :: 0 <= t < |scripts| ==> Ordered(false, scripts[t])
  }

  lemma {:induction false} JoinOrdered(parts: seq<seq<Act>>)
    requires AllOrdered(parts)
    ensures Ordered(false, Join(parts))
  {
    if parts != [] {
      JoinOrdered(parts[1..]);
      OrderedConcat(false, parts[0], Join(parts[1..]));
    }
  }

  lemma ScriptsOrdered(ops: seq<Operation>)
    ensures AllOrdered(Scripts(ops))
  {
    forall i | 0 <= i < |ops| ensures Ordered(false, Scripts(ops)[i]) {
      ScriptOrdered(ops[i]);
    }
  }

  // ---------------------------------------------------------------------------------------------
  // Threads
  // ---------------------------------------------------------------------------------------------

  datatype State = State(pc: seq<nat>, owner: map<Lock, nat>)

  type Threads = seq<seq<Act>>

  function Init(threads: Threads): State {
    State(seq(|threads|, _ => 0), map[])
  }

  predicate Unfinished(threads: Threads, s: State, t: nat) {
    t < |threads| && t < |s.pc| && s.pc[t] < |threads[t]|
  }

  predicate CanMove(threads: Threads, s: State, t: nat) {
    Unfinished(threads, s, t) && (threads[t][s.pc[t]].Acquire? ==> threads[t][s.pc[t]].l !in s.owner)
  }

  /** Thread t performs its next action if it can; otherwise nothing happens. */
  function Step(threads: Threads, s: State, t: nat): State {
    if !CanMove(threads, s, t) then s else
      var pc' := s.pc[t := s.pc[t] + 1];
      match threads[t][s.pc[t]]
      case Acquire(l) => State(pc', s.owner[l := t])
      case Release(l) => State(pc', s.owner - {l})
  }

  function Run(threads: Threads, schedule: seq<nat>): State {
    if schedule == [] then Init(threads)
    else Step(threads, Run(threads, schedule[..|schedule| - 1]), schedule[|schedule| - 1])
  }

  /** What a thread holds according to its own script. */
  function Holding(script: seq<Act>, pc: nat): Option<set<Lock>>
    requires pc <= |script|
  {
    Exec(false, {}, script[..pc])
  }

  ghost predicate Inv(threads: Threads, s: State) {
    && |s.pc| == |threads|
    && (forall t :: 0 <= t < |threads| ==> s.pc[t] <= |threads[t]| && Holding(threads[t], s.pc[t]).Some?)
    && (forall l :: l in s.owner ==> s.owner[l] < |threads|)
    && (forall t, l :: 0 <= t < |threads| ==>
          (l in Holding(threads[t], s.pc[t]).value <==> l in s.owner && s.owner[l] == t))
  }

  /** One action of an ordered script: what it held, what it does, what it holds then. */
  lemma ScriptStep(script: seq<Act>, pc: nat)
    requires Ordered(false, script) && pc < |script|
    ensures Holding(script, pc).Some? && Holding(script, pc + 1).Some?
    ensures var h := Holding(script, pc).value;
            match script[pc]
            case Acquire(l) =>
              && l !in h && MayAcquire(false, h, l)
              && Holding(script, pc + 1).value == h + {l}
            case Release(l) => l in h && Holding(script, pc + 1).value == h - {l}
  {
    ExecConcat(false, {}, script[..pc], script[pc..]);
    assert script[..pc] + script[pc..] == script;
    ExecConcat(false, {}, script[..pc], [script[pc]]);
    assert script[..pc + 1] == script[..pc] + [script[pc]];
    assert [script[pc]][1..] == [];
  }

  /** The pool list is taken before the tables when a thread is looked for, and under them when one is closed. */
  lemma PoolListPlaces(op: Operation)
    ensures (op.DevFree? || (op.Destroy? && op.known)) && op.touches > 0 ==>
              |Script(op)| > 3 && Script(op)[3] == Acquire(PoolList) && Holding(Script(op), 3) == Some({Dev, Chan, Rw})
    ensures op.OpenChannel? && op.touches > 0 ==> Script(op) != [] && Script(op)[0] == Acquire(PoolList)
  {
    if (op.DevFree? || (op.Destroy? && op.known)) && op.touches > 0 {
      TablesUp(false);
      assert Script(op)[..3] == TABLES;
    }
  }

  lemma ScriptEnd(script: seq<Act>)
    requires Ordered(false, script)
    ensures Holding(script, |script|) == Some({})
  {
    assert script[..|script|] == script;
  }

  lemma StepKeepsInv(threads: Threads, s: State, t: nat)
    requires AllOrdered(threads) && Inv(threads, s)
    ensures Inv(threads, Step(threads, s, t))
  {
    if CanMove(threads, s, t) {
      ScriptStep(threads[t], s.pc[t]);
      var s' := Step(threads, s, t);
      forall u, l | 0 <= u < |threads|
        ensures l in Holding(threads[u], s'.pc[u]).value <==> l in s'.owner && s'.owner[l] == u
      {
        assert l in Holding(threads[u], s.pc[u]).value <==> l in s.owner && s.owner[l] == u;
      }
    }
  }

  lemma {:induction false} RunKeepsInv(threads: Threads, schedule: seq<nat>)
    requires AllOrdered(threads)
    ensures Inv(threads, Run(threads, schedule))
  {
    if schedule == [] {
      forall t | 0 <= t < |threads| ensures Holding(threads[t], 0) == Some({}) {
        assert threads[t][..0] == [];
      }
    } else {
      var n := |schedule| - 1;
      RunKeepsInv(threads, schedule[..n]);
      StepKeepsInv(threads, Run(threads, schedule[..n]), schedule[n]);
    }
  }

  // ---------------------------------------------------------------------------------------------
  // Waiting
  // ---------------------------------------------------------------------------------------------

  predicate Waits(threads: Threads, s: State, t: nat) {
    Unfinished(threads, s, t) && !CanMove(threads, s, t)
  }

  function Wanted(threads: Threads, s: State, t: nat): Lock
    requires Waits(threads, s, t)
  {
    threads[t][s.pc[t]].l
  }

  predicate WaitsFor(threads: Threads, s: State, t: nat, u: nat) {
    Waits(threads, s, t) && s.owner[Wanted(threads, s, t)] == u
  }

  /** The thread waits for the channel lock and holds the socket lock alone. */
  predicate Descends(threads: Threads, s: State, t: nat)
    requires Inv(threads, s)
  {
    Waits(threads, s, t) && Wanted(threads, s, t) == Chan && Holding(threads[t], s.pc[t]) == Some({Rw})
  }

  /** The owner of a wanted lock is not finished; if it waits too, it wants a higher lock or descends. */
  lemma OwnerClimbsOrDescends(threads: Threads, s: State, t: nat, u: nat)
    requires AllOrdered(threads) && Inv(threads, s) && WaitsFor(threads, s, t, u)
    ensures Unfinished(threads, s, u)
    ensures Waits(threads, s, u) ==>
              Rank(Wanted(threads, s, t)) < Rank(Wanted(threads, s, u)) || Descends(threads, s, u)
  {
    var l := Wanted(threads, s, t);
    assert l in Holding(threads[u], s.pc[u]).value;
    if s.pc[u] == |threads[u]| {
      ScriptEnd(threads[u]);
    } else {
      ScriptStep(threads[u], s.pc[u]);
    }
  }

  /** Nobody who owns the pool-list lock waits. */
  lemma PoolOwnerMoves(threads: Threads, s: State, t: nat, u: nat)
    requires AllOrdered(threads) && Inv(threads, s)
    requires WaitsFor(threads, s, t, u) && Wanted(threads, s, t) == PoolList
    ensures CanMove(threads, s, u)
  {
    OwnerClimbsOrDescends(threads, s, t, u);
    assert PoolList in Holding(threads[u], s.pc[u]).value;
  }

  /** Each thread of the chain waits for the next one. */
  ghost predicate Chain(threads: Threads, s: State, ts: seq<nat>) {
    |ts| >= 2 && forall i, j :: 0 <= i && j == i + 1 < |ts| ==> WaitsFor(threads, s, ts[i], ts[j])
  }

  ghost predicate Cycle(threads: Threads, s: State, ts: seq<nat>) {
    Chain(threads, s, ts) && ts[0] == ts[|ts| - 1]
  }

  lemma {:induction false} ChainClimbsOrDescends(threads: Threads, s: State, ts: seq<nat>)
    requires AllOrdered(threads) && Inv(threads, s) && Chain(threads, s, ts)
    ensures Waits(threads, s, ts[0])
    ensures var last := ts[|ts| - 1];
            Waits(threads, s, last) ==>
              || Rank(Wanted(threads, s, ts[0])) < Rank(Wanted(threads, s, last))
              || exists i :: 1 <= i < |ts| && Descends(threads, s, ts[i])
  {
    var n := |ts| - 1;
    OwnerClimbsOrDescends(threads, s, ts[n - 1], ts[n]);
    if n > 1 {
      ChainClimbsOrDescends(threads, s, ts[..n]);
    }
  }

  /** The thread a member of a cycle waits for is a member itself, and so waits. */
  lemma CycleNext(threads: Threads, s: State, ts: seq<nat>, i: nat) returns (k: nat)
    requires Cycle(threads, s, ts) && i < |ts|
    ensures k < |ts| && WaitsFor(threads, s, ts[i], ts[k]) && Waits(threads, s, ts[k])
  {
    var here := if i == |ts| - 1 then 0 else i;
    k := here + 1;
    assert WaitsFor(threads, s, ts[here], ts[k]);
    if k == |ts| - 1 {
      assert WaitsFor(threads, s, ts[0], ts[1]);
    } else {
      assert WaitsFor(threads, s, ts[k], ts[k + 1]);
    }
  }

  // ---------------------------------------------------------------------------------------------
  // Which operations can meet in a deadlock
  // ---------------------------------------------------------------------------------------------

  function Programs(ops: seq<seq<Operation>>): (r: Threads)
    ensures |r| == |ops|
  {
    seq(|ops|, t requires 0 <= t < |ops| => Program(ops[t]))
  }

  /** A shutdown on one thread and, on another, an operation that nests the channel and socket locks. */
  ghost predicate Clash(ops: seq<seq<Operation>>) {
    exists t, u, i, j :: ClashAt(ops, t, u, i, j)
  }

  predicate ClashAt(ops: seq<seq<Operation>>, t: nat, u: nat, i: nat, j: nat) {
    && t < |ops| && u < |ops| && t != u && i < |ops[t]| && j < |ops[u]|
    && ops[t][i].LibFree? && NestsChanRw(ops[u][j])
  }

  lemma AllProgramsOrdered(ops: seq<seq<Operation>>)
    ensures AllOrdered(Programs(ops))
  {
    forall t | 0 <= t < |ops| ensures Ordered(false, Programs(ops)[t]) {
      ScriptsOrdered(ops[t]);
      JoinOrdered(Scripts(ops[t]));
    }
  }

  /** Behind an ordered script the next one holds what it would hold by itself. */
  lemma HoldingBehind(a: seq<Act>, b: seq<Act>, c: seq<Act>, k: nat)
    requires Ordered(false, a) && k <= |b|
    ensures Holding(a + (b + c), |a| + k) == Holding(b, k)
  {
    assert (a + (b + c))[..|a| + k] == a + b[..k];
    ExecConcat(false, {}, a, b[..k]);
  }

  /** The part of a joined script a program counter is in, and how far. */
  lemma {:induction false} Locate(parts: seq<seq<Act>>, pc: nat) returns (j: nat, off: nat)
    requires AllOrdered(parts) && pc < |Join(parts)|
    ensures j < |parts| && off < |parts[j]| && Join(parts)[pc] == parts[j][off]
    ensures Holding(Join(parts), pc) == Holding(parts[j], off)
  {
    var first, rest := parts[0], Join(parts[1..]);
    if pc < |first| {
      j, off := 0, pc;
      assert Join(parts)[..pc] == first[..pc];
    } else {
      j, off := Locate(parts[1..], pc - |first|);
      j := j + 1;
      HoldingBehind(first, rest, [], pc - |first|);
      assert first + (rest + []) == Join(parts);
    }
  }

  /** Only a shutdown takes the channel lock while it holds the socket lock. */
  lemma OnlyShutdownDescends(op: Operation, off: nat)
    requires off < |Script(op)| && Script(op)[off] == Acquire(Chan)
    requires Holding(Script(op), off) == Some({Rw})
    ensures op.LibFree?
  {
    if !op.LibFree? {
      var script := Script(op);
      OperationOrdered(op);
      assert script == script[..off] + script[off..];
      ExecConcat(true, {}, script[..off], script[off..]);
      StrictIsEnough({}, script[..off]);
    }
  }

  lemma FreeOfNothing()
    ensures Holding(Script(LibFree([])), 2) == Some({})
  {
    BeforeReversedOrdered([]);
    assert Script(LibFree([]))[..2] == BeforeReversed([]);
  }

  /** Only a nesting operation takes the socket lock while it holds the channel lock. */
  lemma OnlyNestingWantsRw(op: Operation, off: nat)
    requires off < |Script(op)| && Script(op)[off] == Acquire(Rw)
    requires Holding(Script(op), off).Some? && Chan in Holding(Script(op), off).value
    ensures NestsChanRw(op)
  {
    if op.LibFree? && op.devices == [] {
      FreeOfNothing();
    }
  }

  /** A descending thread is held up by a thread that wants the socket lock only if the operations clash. */
  lemma DescenderIsHeldUp(ops: seq<seq<Operation>>, s: State, d: nat, v: nat)
    requires Inv(Programs(ops), s)
    requires Descends(Programs(ops), s, d) && WaitsFor(Programs(ops), s, d, v) && Waits(Programs(ops), s, v)
    ensures Wanted(Programs(ops), s, v) == PoolList || Clash(ops)
  {
    var threads := Programs(ops);
    AllProgramsOrdered(ops);
    assert Chan in Holding(threads[v], s.pc[v]).value;
    ScriptStep(threads[v], s.pc[v]);
    if Wanted(threads, s, v) != PoolList {
      ScriptsOrdered(ops[d]);
      ScriptsOrdered(ops[v]);
      var i, off := Locate(Scripts(ops[d]), s.pc[d]);
      OnlyShutdownDescends(ops[d][i], off);
      var j, off' := Locate(Scripts(ops[v]), s.pc[v]);
      OnlyNestingWantsRw(ops[v][j], off');
      assert ClashAt(ops, d, v, i, j);
    }
  }

  lemma CycleMeansClash(ops: seq<seq<Operation>>, s: State, ts: seq<nat>)
    requires Inv(Programs(ops), s) && Cycle(Programs(ops), s, ts)
    ensures Clash(ops)
  {
    var threads := Programs(ops);
    AllProgramsOrdered(ops);
    var one := CycleNext(threads, s, ts, |ts| - 1);
    ChainClimbsOrDescends(threads, s, ts);
    var i :| 1 <= i < |ts| && Descends(threads, s, ts[i]);
    var k := CycleNext(threads, s, ts, i);
    DescenderIsHeldUp(ops, s, ts[i], ts[k]);
    if Wanted(threads, s, ts[k]) == PoolList {
      var k' := CycleNext(threads, s, ts, k);
      PoolOwnerMoves(threads, s, ts[k], ts[k']);
    }
  }

  /** Without a clash, following the owners of wanted locks leads to a thread that can move. */
  lemma {:induction false} Chase(ops: seq<seq<Operation>>, s: State, t: nat) returns (u: nat)
    requires !Clash(ops) && Inv(Programs(ops), s) && Unfinished(Programs(ops), s, t)
    ensures CanMove(Programs(ops), s, u)
    decreases if CanMove(Programs(ops), s, t) then 0 else 4 - Rank(Wanted(Programs(ops), s, t))
  {
    var threads := Programs(ops);
    AllProgramsOrdered(ops);
    u := t;
    if !CanMove(threads, s, t) {
      u := s.owner[Wanted(threads, s, t)];
      OwnerClimbsOrDescends(threads, s, t, u);
      if Descends(threads, s, u) {
        var v := s.owner[Chan];
        OwnerClimbsOrDescends(threads, s, u, v);
        if Waits(threads, s, v) {
          DescenderIsHeldUp(ops, s, u, v);
          PoolOwnerMoves(threads, s, v, s.owner[PoolList]);
          u := s.owner[PoolList];
        } else {
          u := v;
        }
      } else {
        u := Chase(ops, s, u);
      }
    }
  }

  /** As long as some thread is not finished, some thread can move. */
  lemma NoDeadlock(ops: seq<seq<Operation>>, schedule: seq<nat>, t: nat)
    requires !Clash(ops) && Unfinished(Programs(ops), Run(Programs(ops), schedule), t)
    ensures exists u :: CanMove(Programs(ops), Run(Programs(ops), schedule), u)
  {
    AllProgramsOrdered(ops);
    RunKeepsInv(Programs(ops), schedule);
    var u := Chase(ops, Run(Programs(ops), schedule), t);
  }

  // ---------------------------------------------------------------------------------------------
  // A clash can deadlock
  // ---------------------------------------------------------------------------------------------

  lemma Extend(threads: Threads, schedule: seq<nat>, t: nat)
    ensures Run(threads, schedule + [t]) == Step(threads, Run(threads, schedule), t)
  {
    assert (schedule + [t])[..|schedule|] == schedule;
  }

  /** Thread t runs by itself up to `end` when none of the locks on its way belongs to another thread. */
  lemma {:induction false} Solo(threads: Threads, schedule: seq<nat>, t: nat, end: nat) returns (longer: seq<nat>)
    requires AllOrdered(threads) && t < |threads| && end <= |threads[t]|
    requires Inv(threads, Run(threads, schedule)) && Run(threads, schedule).pc[t] <= end
    requires var s := Run(threads, schedule);
             forall i :: s.pc[t] <= i < end && threads[t][i].Acquire? && threads[t][i].l in s.owner ==>
               s.owner[threads[t][i].l] == t
    ensures Inv(threads, Run(threads, longer))
    ensures Run(threads, longer).pc == Run(threads, schedule).pc[t := end]
    decreases (end as int) - Run(threads, schedule).pc[t]
  {
    var s := Run(threads, schedule);
    longer := schedule;
    if s.pc[t] < end {
      ScriptStep(threads[t], s.pc[t]);
      assert CanMove(threads, s, t);
      Extend(threads, schedule, t);
      RunKeepsInv(threads, schedule + [t]);
      longer := Solo(threads, schedule + [t], t, end);
    }
  }

  function Start(parts: seq<seq<Act>>, i: nat): nat
    requires i < |parts|
  {
    if i == 0 then 0 else |parts[0]| + Start(parts[1..], i - 1)
  }

  /** Part i of a joined script does and holds what it does and holds by itself. */
  lemma {:induction false} PlaceOf(parts: seq<seq<Act>>, i: nat, k: nat)
    requires AllOrdered(parts) && i < |parts| && k < |parts[i]|
    ensures Start(parts, i) + k < |Join(parts)|
    ensures Join(parts)[Start(parts, i) + k] == parts[i][k]
    ensures Holding(Join(parts), Start(parts, i) + k) == Holding(parts[i], k)
  {
    var first, rest := parts[0], Join(parts[1..]);
    if i == 0 {
      assert Join(parts)[..k] == first[..k];
    } else {
      PlaceOf(parts[1..], i - 1, k);
      HoldingBehind(first, rest, [], Start(parts[1..], i - 1) + k);
      assert first + (rest + []) == Join(parts);
    }
  }

  lemma {:induction false} TouchIsPoolOnly(n: nat)
    ensures |Touch(n)| == 2 * n
    ensures forall i :: 0 <= i < 2 * n ==> Touch(n)[i] in {Acquire(PoolList), Release(PoolList)}
  {
    if n > 0 {
      TouchIsPoolOnly(n - 1);
    }
  }

  /** Where a nesting operation first takes the socket lock: right behind the channel lock. */
  lemma NestAt(op: Operation) returns (k: nat)
    requires NestsChanRw(op)
    ensures 0 < k < |Script(op)| && Script(op)[k - 1] == Acquire(Chan) && Script(op)[k] == Acquire(Rw)
    ensures forall i :: 0 <= i < k ==> Script(op)[i] != Acquire(Rw)
  {
    k := if op.Send? then 1 else 2;
    if op.OpenChannel? || op.Accept? {
      TouchIsPoolOnly(op.touches);
      k := 2 * op.touches + if op.Accept? then 4 else 2;
    }
  }

  /** Just inside the reversed pair of a shutdown: the socket lock held alone, the channel lock next. */
  lemma FreeGap(op: Operation) returns (off: nat)
    requires op.LibFree?
    ensures off < |Script(op)| && Script(op)[off] == Acquire(Chan)
    ensures Holding(Script(op), off) == Some({Rw})
  {
    var before := BeforeReversed(op.devices);
    FreeSplits(op.devices);
    BeforeReversedOrdered(op.devices);
    ReversedIsTheException();
    ExecConcat(false, {}, before, REVERSED[..1]);
    off := |before| + 1;
    assert Script(op)[..off] == before + REVERSED[..1];
  }

  /** While u is between operations and only t has run besides, every lock taken is one t holds. */
  lemma OnlyOneHolds(threads: Threads, s: State, t: nat, u: nat)
    requires Inv(threads, s) && t < |threads| && u < |threads|
    requires Holding(threads[u], s.pc[u]) == Some({})
    requires forall v :: 0 <= v < |threads| && v != t && v != u ==> s.pc[v] == 0
    ensures forall l :: l in s.owner ==> s.owner[l] == t && l in Holding(threads[t], s.pc[t]).value
  {
    forall v | 0 <= v < |threads| && v != t ensures Holding(threads[v], s.pc[v]) == Some({}) {
      assert threads[v][..0] == [];
    }
    forall l | l in s.owner ensures s.owner[l] == t && l in Holding(threads[t], s.pc[t]).value {
      assert l in Holding(threads[s.owner[l]], s.pc[s.owner[l]]).value;
    }
  }

  /** A thread whose next lock another thread holds waits for that thread. */
  lemma WantsWhatItHolds(threads: Threads, s: State, t: nat, u: nat, l: Lock)
    requires Inv(threads, s) && Unfinished(threads, s, t) && u < |threads|
    requires threads[t][s.pc[t]] == Acquire(l) && l in Holding(threads[u], s.pc[u]).value
    ensures WaitsFor(threads, s, t, u)
  {
  }

  /** Thread u stops between two operations, then t runs up to `gap`: no other lock is taken. */
  lemma SoloInTurn(threads: Threads, t: nat, gap: nat, u: nat, from: nat) returns (schedule: seq<nat>)
    requires AllOrdered(threads) && t < |threads| && u < |threads| && t != u
    requires gap <= |threads[t]| && from <= |threads[u]| && Holding(threads[u], from) == Some({})
    ensures var s := Run(threads, schedule);
            && Inv(threads, s) && s.pc[t] == gap && s.pc[u] == from
            && forall l :: l in s.owner ==> s.owner[l] == t && l in Holding(threads[t], gap).value
  {
    RunKeepsInv(threads, []);
    var first := Solo(threads, [], u, from);
    assert Holding(threads[t], 0) == Some({}) by {
      assert threads[t][..0] == [];
    }
    OnlyOneHolds(threads, Run(threads, first), t, u);
    schedule := Solo(threads, first, t, gap);
    OnlyOneHolds(threads, Run(threads, schedule), t, u);
  }

  /** Two ordered scripts that take a pair of locks in opposite orders can be run into each other. */
  lemma OppositeOrders(threads: Threads, t: nat, gap: nat, u: nat, from: nat, last: nat)
    returns (schedule: seq<nat>)
    requires AllOrdered(threads) && t < |threads| && u < |threads| && t != u
    requires gap < |threads[t]| && threads[t][gap] == Acquire(Chan)
    requires Holding(threads[t], gap) == Some({Rw})
    requires from < last < |threads[u]| && Holding(threads[u], from) == Some({})
    requires threads[u][last - 1] == Acquire(Chan) && threads[u][last] == Acquire(Rw)
    requires forall i :: from <= i < last ==> threads[u][i] != Acquire(Rw)
    ensures WaitsFor(threads, Run(threads, schedule), t, u)
    ensures WaitsFor(threads, Run(threads, schedule), u, t)
  {
    var before := SoloInTurn(threads, t, gap, u, from);
    schedule := Solo(threads, before, u, last);
    ScriptStep(threads[u], last - 1);
    WantsWhatItHolds(threads, Run(threads, schedule), t, u, Chan);
    WantsWhatItHolds(threads, Run(threads, schedule), u, t, Rw);
  }

  lemma FreeAt(ops: seq<Operation>, i: nat) returns (gap: nat)
    requires i < |ops| && ops[i].LibFree?
    ensures gap < |Program(ops)| && Program(ops)[gap] == Acquire(Chan)
    ensures Holding(Program(ops), gap) == Some({Rw})
  {
    ScriptsOrdered(ops);
    var off := FreeGap(ops[i]);
    PlaceOf(Scripts(ops), i, off);
    gap := Start(Scripts(ops), i) + off;
  }

  lemma NestedPart(parts: seq<seq<Act>>, j: nat, k: nat) returns (from: nat, last: nat)
    requires AllOrdered(parts) && j < |parts| && 0 < k < |parts[j]|
    requires parts[j][k - 1] == Acquire(Chan) && parts[j][k] == Acquire(Rw)
    requires forall i :: 0 <= i < k ==> parts[j][i] != Acquire(Rw)
    ensures from < last < |Join(parts)| && Holding(Join(parts), from) == Some({})
    ensures Join(parts)[last - 1] == Acquire(Chan) && Join(parts)[last] == Acquire(Rw)
    ensures forall p :: from <= p < last ==> Join(parts)[p] != Acquire(Rw)
  {
    from, last := Start(parts, j), Start(parts, j) + k;
    assert parts[j][..0] == [];
    PlaceOf(parts, j, 0);
    PlaceOf(parts, j, k - 1);
    PlaceOf(parts, j, k);
    forall p | from <= p < last ensures Join(parts)[p] != Acquire(Rw) {
      PlaceOf(parts, j, p - from);
    }
  }

  lemma NestingAt(ops: seq<Operation>, j: nat) returns (from: nat, last: nat)
    requires j < |ops| && NestsChanRw(ops[j])
    ensures from < last < |Program(ops)| && Holding(Program(ops), from) == Some({})
    ensures Program(ops)[last - 1] == Acquire(Chan) && Program(ops)[last] == Acquire(Rw)
    ensures forall p :: from <= p < last ==> Program(ops)[p] != Acquire(Rw)
  {
    ScriptsOrdered(ops);
    var k := NestAt(ops[j]);
    from, last := NestedPart(Scripts(ops), j, k);
  }

  /** A clash can end with the shutdown and the other operation waiting for each other. */
  lemma ShutdownCanDeadlock(ops: seq<seq<Operation>>, t: nat, u: nat, i: nat, j: nat)
    returns (schedule: seq<nat>)
    requires ClashAt(ops, t, u, i, j)
    ensures WaitsFor(Programs(ops), Run(Programs(ops), schedule), t, u)
    ensures WaitsFor(Programs(ops), Run(Programs(ops), schedule), u, t)
  {
    AllProgramsOrdered(ops);
    var gap := FreeAt(ops[t], i);
    var from, last := NestingAt(ops[u], j);
    schedule := OppositeOrders(Programs(ops), t, gap, u, from, last);
  }

  ghost predicate ReachesCycle(ops: seq<seq<Operation>>, schedule: seq<nat>, ts: seq<nat>) {
    Cycle(Programs(ops), Run(Programs(ops), schedule), ts)
  }

  lemma CycleOfRun(ops: seq<seq<Operation>>, schedule: seq<nat>, ts: seq<nat>)
    requires ReachesCycle(ops, schedule, ts)
    ensures Clash(ops)
  {
    AllProgramsOrdered(ops);
    RunKeepsInv(Programs(ops), schedule);
    CycleMeansClash(ops, Run(Programs(ops), schedule), ts);
  }

  /** The waits-for graph has no cycle, for any threads, operations and schedule without a clash. */
  lemma WaitsForIsAcyclic(ops: seq<seq<Operation>>, schedule: seq<nat>, ts: seq<nat>)
    requires !Clash(ops) && Chain(Programs(ops), Run(Programs(ops), schedule), ts)
    ensures ts[0] != ts[|ts| - 1]
  {
    if ts[0] == ts[|ts| - 1] {
      CycleOfRun(ops, schedule, ts);
    }
  }

  lemma MutualIsCycle(threads: Threads, s: State, t: nat, u: nat)
    requires WaitsFor(threads, s, t, u) && WaitsFor(threads, s, u, t)
    ensures Cycle(threads, s, [t, u, t])
  {
  }

  lemma ClashReachesCycle(ops: seq<seq<Operation>>, t: nat, u: nat, i: nat, j: nat) returns (schedule: seq<nat>)
    requires ClashAt(ops, t, u, i, j)
    ensures ReachesCycle(ops, schedule, [t, u, t])
  {
    schedule := ShutdownCanDeadlock(ops, t, u, i, j);
    MutualIsCycle(Programs(ops), Run(Programs(ops), schedule), t, u);
  }

  /** Some schedule closes a waits-for cycle if and only if a shutdown runs beside a nesting operation. */
  lemma DeadlockIff(ops: seq<seq<Operation>>)
    ensures (exists schedule, ts :: ReachesCycle(ops, schedule, ts)) <==> Clash(ops)
  {
    if Clash(ops) {
      var t, u, i, j :| ClashAt(ops, t, u, i, j);
      var schedule := ClashReachesCycle(ops, t, u, i, j);
    }
    if exists schedule, ts :: ReachesCycle(ops, schedule, ts) {
      var schedule, ts :| ReachesCycle(ops, schedule, ts);
      CycleOfRun(ops, schedule, ts);
    }
  }

  /** Two threads that wait for each other do so for the rest of the run. */
  lemma {:induction false} MutualWaitIsForGood(threads: Threads, schedule: seq<nat>, more: seq<nat>, t: nat, u: nat)
    requires AllOrdered(threads)
    requires WaitsFor(threads, Run(threads, schedule), t, u) && WaitsFor(threads, Run(threads, schedule), u, t)
    ensures WaitsFor(threads, Run(threads, schedule + more), t, u)
    ensures WaitsFor(threads, Run(threads, schedule + more), u, t)
    decreases |more|
  {
    if more == [] {
      assert schedule + more == schedule;
    } else {
      var n := |more| - 1;
      MutualWaitIsForGood(threads, schedule, more[..n], t, u);
      var s := Run(threads, schedule + more[..n]);
      RunKeepsInv(threads, schedule + more[..n]);
      assert schedule + more == (schedule + more[..n]) + [more[n]];
      Extend(threads, schedule + more[..n], more[n]);
      if CanMove(threads, s, more[n]) {
        ScriptStep(threads[more[n]], s.pc[more[n]]);
      }
    }
  }
}
