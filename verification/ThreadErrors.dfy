/** Thread-local errno and dlerror under goroutine migration: any number of goroutines move freely
    between OS threads, in the middle of a call too, unless they are locked to their thread or have a
    C frame on it, and any number of error-returning calls are in progress, nested through callbacks.

    An error-returning call and Dlopen follow the same protocol: lock the thread, clear the variable,
    call C, read the variable, unlock. For errno, clearing stores 0 and reading leaves it; for dlerror,
    both are calls of dlerror itself, which returns the pending text and forgets it. Only C code called
    through this package writes the variables. */
module ThreadErrors {
  import opened Words

  type Gid = nat
  type Tid = nat

  datatype Var = Errno | Dlerror

  /** `Nothing` is an errno of 0 as clearing stores it, and no pending text. */
  datatype Content = Nothing | Number(n: int) | Text(text: string)

  /** A thread-local variable's value and the goroutine whose C call wrote it, if any did since it was
      cleared. */
  datatype Local = Local(value: Content, writer: Option<Gid>)

  const CLEAR: Local := Local(Nothing, None)

  /** `Blind` is inside C without a variable to watch, because errno's address was not found. */
  datatype Stage = Locked | Blind | Cleared | InC | Returned | Reported

  /** A call in progress. `ptr` is the thread whose variable was cleared, `started` the variable when C
      was entered, `left` when it returned, `reported` what the call reads. A `Plain` call uses neither
      lock nor variable. */
  datatype Call =
    | Guarded(v: Var, stage: Stage, ptr: Tid, started: Local, left: Local, reported: Content)
    | Plain

  /** A goroutine: the thread it is on (kept while it is locked there), how often the user's code and
      in all it is locked, and its calls, the innermost last. */
  datatype Goroutine = Goroutine(on: Option<Tid>, userLocks: nat, locks: nat, calls: seq<Call>)

  datatype State = State(gs: map<Gid, Goroutine>, locals: map<(Tid, Var), Local>)

  const INITIAL: State := State(map[], map[])

  function Get(locals: map<(Tid, Var), Local>, t: Tid, v: Var): Local {
    if (t, v) in locals then locals[(t, v)] else CLEAR
  }

  datatype Step =
    | Spawn(g: Gid)
    | Schedule(g: Gid, t: Tid)
    | Park(g: Gid)
    | UserLock(g: Gid)
    | UserUnlock(g: Gid)
    | Begin(g: Gid, v: Var)       // LockOSThread
    | Clear(g: Gid)               // errno := 0, or a first dlerror()
    | Enter(g: Gid)               // CallFunction
    | CWrite(g: Gid, v: Var, value: Content)
    | Return(g: Gid)
    | EnterBlind(g: Gid)          // CallFunction where errno's address was not found
    | ReturnBlind(g: Gid)
    | Report(g: Gid)              // getErr, or a second dlerror()
    | Exit(g: Gid)                // UnlockOSThread on return
    | BeginPlain(g: Gid)
    | ReturnPlain(g: Gid)
    | Panic(g: Gid)               // the deferred UnlockOSThread, from wherever the call has got to

  predicate IsInC(c: Call) {
    c.Plain? || c.stage == InC || c.stage == Blind
  }

  predicate Calling(gr: Goroutine) {
    gr.calls != []
  }

  function Top(gr: Goroutine): Call
    requires Calling(gr)
  {
    gr.calls[|gr.calls| - 1]
  }

  function SetTop(gr: Goroutine, c: Call): Goroutine
    requires Calling(gr)
  {
    gr.(calls := gr.calls[|gr.calls| - 1 := c])
  }

  function Push(gr: Goroutine, c: Call): Goroutine {
    gr.(calls := gr.calls + [c])
  }

  function Pop(gr: Goroutine): Goroutine
    requires Calling(gr)
  {
    gr.(calls := gr.calls[..|gr.calls| - 1])
  }

  predicate AtStage(gr: Goroutine, stage: Stage) {
    gr.on.Some? && Calling(gr) && Top(gr).Guarded? && Top(gr).stage == stage
  }

  /** The goroutine runs Go code of its own: outside all calls, or in a callback from C. */
  predicate RunsGo(gr: Goroutine) {
    gr.on.Some? && (Calling(gr) ==> IsInC(Top(gr)))
  }

  /** The scheduler may take the goroutine off its thread: it is not locked, and no C frame of its own
      lies on the thread's stack. */
  predicate Movable(gr: Goroutine) {
    gr.on.Some? && gr.locks == 0 && forall i :: 0 <= i < |gr.calls| ==> !IsInC(gr.calls[i])
  }

  predicate Enabled(s: State, step: Step) {
    if step.Spawn? then step.g !in s.gs
    else
      step.g in s.gs &&
      var gr := s.gs[step.g];
      match step
      case Schedule(g, t) => gr.on.None? && forall h :: h in s.gs ==> s.gs[h].on != Some(t)
      case Park(g) => Movable(gr)
      case UserLock(g) => RunsGo(gr)
      case UserUnlock(g) => RunsGo(gr) && gr.userLocks > 0 && gr.locks > 0
      case Begin(g, v) => RunsGo(gr)
      case Clear(g) => AtStage(gr, Locked)
      case Enter(g) => AtStage(gr, Cleared)
      case CWrite(g, v, value) => gr.on.Some? && Calling(gr) && IsInC(Top(gr))
      case Return(g) => AtStage(gr, InC)
      case EnterBlind(g) => AtStage(gr, Locked) && Top(gr).v == Errno
      case ReturnBlind(g) => AtStage(gr, Blind)
      case Report(g) => AtStage(gr, Returned)
      case Exit(g) => (AtStage(gr, Locked) || AtStage(gr, Returned) || AtStage(gr, Reported)) && gr.locks > 0
      case BeginPlain(g) => RunsGo(gr)
      case ReturnPlain(g) => gr.on.Some? && Calling(gr) && Top(gr).Plain?
      case Panic(g) => gr.on.Some? && Calling(gr) && (Top(gr).Guarded? ==> gr.locks > 0)
      case Spawn(_) => false
  }

  function Apply(s: State, step: Step): State
    requires Enabled(s, step)
  {
    match step
    case Spawn(g) => s.(gs := s.gs[g := Goroutine(None, 0, 0, [])])
    case Schedule(g, t) => s.(gs := s.gs[g := s.gs[g].(on := Some(t))])
    case Park(g) => s.(gs := s.gs[g := s.gs[g].(on := None)])
    case UserLock(g) => s.(gs := s.gs[g := s.gs[g].(userLocks := s.gs[g].userLocks + 1, locks := s.gs[g].locks + 1)])
    case UserUnlock(g) => s.(gs := s.gs[g := s.gs[g].(userLocks := s.gs[g].userLocks - 1, locks := s.gs[g].locks - 1)])
    case Begin(g, v) =>
      s.(gs := s.gs[g := Push(s.gs[g].(locks := s.gs[g].locks + 1), Guarded(v, Locked, 0, CLEAR, CLEAR, Nothing))])
    case Clear(g) =>
      var gr := s.gs[g];
      var c, t := Top(gr), gr.on.value;
      State(s.gs[g := SetTop(gr, c.(stage := Cleared, ptr := t))], s.locals[(t, c.v) := CLEAR])
    case Enter(g) =>
      var gr := s.gs[g];
      var c := Top(gr);
      s.(gs := s.gs[g := SetTop(gr, c.(stage := InC, started := Get(s.locals, gr.on.value, c.v)))])
    case CWrite(g, v, value) => s.(locals := s.locals[(s.gs[g].on.value, v) := Local(value, Some(g))])
    case Return(g) =>
      var gr := s.gs[g];
      var c := Top(gr);
      s.(gs := s.gs[g := SetTop(gr, c.(stage := Returned, left := Get(s.locals, gr.on.value, c.v)))])
    case EnterBlind(g) => s.(gs := s.gs[g := SetTop(s.gs[g], Top(s.gs[g]).(stage := Blind))])
    case ReturnBlind(g) => s.(gs := s.gs[g := SetTop(s.gs[g], Top(s.gs[g]).(stage := Locked))])
    case Report(g) =>
      var gr := s.gs[g];
      var c := Top(gr);
      var gs := s.gs[g := SetTop(gr, c.(stage := Reported, reported := Get(s.locals, c.ptr, c.v).value))];
      if c.v == Dlerror then State(gs, s.locals[(c.ptr, c.v) := CLEAR]) else s.(gs := gs)
    case Exit(g) => s.(gs := s.gs[g := Pop(s.gs[g].(locks := s.gs[g].locks - 1))])
    case BeginPlain(g) => s.(gs := s.gs[g := Push(s.gs[g], Plain)])
    case ReturnPlain(g) => s.(gs := s.gs[g := Pop(s.gs[g])])
    case Panic(g) =>
      var gr := s.gs[g];
      s.(gs := s.gs[g := Pop(if Top(gr).Guarded? then gr.(locks := gr.locks - 1) else gr)])
  }

  function Run(s: State, steps: seq<Step>): Option<State>
    decreases |steps|
  {
    if steps == [] then Some(s)
    else if Enabled(s, steps[0]) then Run(Apply(s, steps[0]), steps[1..])
    else None
  }

  // ---------- The invariant ----------

  function GuardedCalls(calls: seq<Call>): nat {
    if calls == [] then 0
    else GuardedCalls(calls[..|calls| - 1]) + if calls[|calls| - 1].Guarded? then 1 else 0
  }

  predicate OwnOrClear(l: Local, g: Gid) {
    l == CLEAR || l.writer == Some(g)
  }

  /** What is known of one call of goroutine `g` on thread `t`. */
  predicate CallOk(g: Gid, t: Tid, c: Call, locals: map<(Tid, Var), Local>) {
    c.Plain? || c.stage == Locked || c.stage == Blind ||
    ( && c.ptr == t
      && (c.stage == Cleared || c.started == CLEAR)
      && (c.stage == Cleared ==> Get(locals, t, c.v) == CLEAR)
      && (c.stage == InC ==> OwnOrClear(Get(locals, t, c.v), g))
      && (c.stage == Returned ==> Get(locals, t, c.v) == c.left)
      && (c.stage == Returned || c.stage == Reported ==> OwnOrClear(c.left, g))
      && (c.stage == Reported ==> c.reported == c.left.value))
  }

  predicate GoroutineOk(g: Gid, gr: Goroutine, locals: map<(Tid, Var), Local>) {
    && gr.locks == gr.userLocks + GuardedCalls(gr.calls)
    && (gr.locks > 0 || gr.calls != [] ==> gr.on.Some?)
    && (forall i :: 0 <= i < |gr.calls| - 1 ==> IsInC(gr.calls[i]))
    && (gr.on.Some? ==> forall i :: 0 <= i < |gr.calls| ==> CallOk(g, gr.on.value, gr.calls[i], locals))
  }

  /** No two goroutines share a thread. */
  predicate Exclusive(s: State) {
    forall g, h :: g in s.gs && h in s.gs && g != h && s.gs[g].on.Some? ==> s.gs[g].on != s.gs[h].on
  }

  predicate Inv(s: State) {
    Exclusive(s) && forall g :: g in s.gs ==> GoroutineOk(g, s.gs[g], s.locals)
  }

  /** A goroutine sees only its own thread's variables. */
  lemma OtherThreads(g: Gid, gr: Goroutine, locals: map<(Tid, Var), Local>, locals': map<(Tid, Var), Local>)
    requires GoroutineOk(g, gr, locals)
    requires gr.on.Some? ==> forall v :: Get(locals', gr.on.value, v) == Get(locals, gr.on.value, v)
    ensures GoroutineOk(g, gr, locals')
  {
    if gr.on.Some? {
      forall i | 0 <= i < |gr.calls| ensures CallOk(g, gr.on.value, gr.calls[i], locals') {
        assert CallOk(g, gr.on.value, gr.calls[i], locals);
      }
    }
  }

  /** Writing a variable of its own thread leaves the calls of a goroutine valid, as long as they are
      all inside C. */
  lemma OwnWrite(g: Gid, t: Tid, c: Call, locals: map<(Tid, Var), Local>, v: Var, l: Local)
    requires CallOk(g, t, c, locals) && IsInC(c) && OwnOrClear(l, g)
    ensures CallOk(g, t, c, locals[(t, v) := l])
  {
  }

  lemma SetTopOk(g: Gid, gr: Goroutine, c: Call, locals: map<(Tid, Var), Local>, locals': map<(Tid, Var), Local>)
    requires GoroutineOk(g, gr, locals) && Calling(gr) && gr.on.Some?
    requires c.Guarded? <==> Top(gr).Guarded?
    requires CallOk(g, gr.on.value, c, locals')
    requires forall i :: 0 <= i < |gr.calls| - 1 ==> CallOk(g, gr.on.value, gr.calls[i], locals')
    ensures GoroutineOk(g, SetTop(gr, c), locals')
  {
    var n := |gr.calls| - 1;
    assert SetTop(gr, c).calls[..n] == gr.calls[..n];
  }

  lemma PushOk(g: Gid, gr: Goroutine, c: Call, locals: map<(Tid, Var), Local>)
    requires GoroutineOk(g, gr, locals) && RunsGo(gr)
    requires c.Plain? || c.stage == Locked
    ensures GoroutineOk(g, Push(gr.(locks := gr.locks + if c.Guarded? then 1 else 0), c), locals)
  {
    var calls := gr.calls + [c];
    assert calls[..|gr.calls|] == gr.calls;
  }

  lemma PopOk(g: Gid, gr: Goroutine, locals: map<(Tid, Var), Local>)
    requires GoroutineOk(g, gr, locals) && Calling(gr) && gr.on.Some?
    ensures Top(gr).Guarded? ==> gr.locks > 0
    ensures GoroutineOk(g, Pop(if Top(gr).Guarded? then gr.(locks := gr.locks - 1) else gr), locals)
  {
  }

  /** The calls below the top are inside C, so a write to the goroutine's own thread leaves them valid. */
  lemma LowerCallsKeep(g: Gid, gr: Goroutine, locals: map<(Tid, Var), Local>, v: Var, l: Local)
    requires GoroutineOk(g, gr, locals) && gr.on.Some? && OwnOrClear(l, g)
    ensures forall i :: 0 <= i < |gr.calls| - 1 ==> CallOk(g, gr.on.value, gr.calls[i], locals[(gr.on.value, v) := l])
  {
    forall i | 0 <= i < |gr.calls| - 1 ensures CallOk(g, gr.on.value, gr.calls[i], locals[(gr.on.value, v) := l]) {
      OwnWrite(g, gr.on.value, gr.calls[i], locals, v, l);
    }
  }

  /** The steps that move a guarded call on to its next stage. */
  predicate MovesOn(step: Step) {
    step.Clear? || step.Enter? || step.Return? || step.EnterBlind? || step.ReturnBlind? || step.Report?
  }

  /** The goroutine after its step, on its own: the steps of one guarded call ... */
  lemma GuardedStep(s: State, step: Step)
    requires Inv(s) && Enabled(s, step) && MovesOn(step)
    ensures GoroutineOk(step.g, Apply(s, step).gs[step.g], Apply(s, step).locals)
  {
    var s', g, gr := Apply(s, step), step.g, s.gs[step.g];
    assert GoroutineOk(g, gr, s.locals);
    var c, c' := Top(gr), Top(s'.gs[g]);
    assert c == gr.calls[|gr.calls| - 1] && CallOk(g, gr.on.value, c, s.locals);
    LowerCallsKeep(g, gr, s.locals, c.v, CLEAR);
    SetTopOk(g, gr, c', s.locals, s'.locals);
  }

  /** ... and all others. */
  lemma OtherStep(s: State, step: Step)
    requires Inv(s) && Enabled(s, step)
    requires !MovesOn(step) && !step.CWrite?
    ensures GoroutineOk(step.g, Apply(s, step).gs[step.g], Apply(s, step).locals)
  {
    var s', g := Apply(s, step), step.g;
    if !step.Spawn? {
      var gr := s.gs[g];
      assert GoroutineOk(g, gr, s.locals);
      match step
      case Begin(_, v) => PushOk(g, gr, Guarded(v, Locked, 0, CLEAR, CLEAR, Nothing), s.locals);
      case BeginPlain(_) => PushOk(g, gr, Plain, s.locals);
      case Exit(_) => PopOk(g, gr, s.locals);
      case ReturnPlain(_) => PopOk(g, gr, s.locals);
      case Panic(_) => PopOk(g, gr, s.locals);
      case _ =>
    }
  }

  lemma WriteStep(s: State, g: Gid, v: Var, value: Content)
    requires Inv(s) && Enabled(s, CWrite(g, v, value))
    ensures GoroutineOk(g, s.gs[g], Apply(s, CWrite(g, v, value)).locals)
  {
    var gr, l := s.gs[g], Local(value, Some(g));
    assert GoroutineOk(g, gr, s.locals);
    var t := gr.on.value;
    var locals' := s.locals[(t, v) := l];
    forall i | 0 <= i < |gr.calls| ensures CallOk(g, t, gr.calls[i], locals') {
      assert IsInC(gr.calls[i]);
      OwnWrite(g, t, gr.calls[i], s.locals, v, l);
    }
  }

  lemma ReportsOwnThread(s: State, h: Gid)
    requires Inv(s) && Enabled(s, Report(h))
    ensures Top(s.gs[h]).ptr == s.gs[h].on.value
  {
    var gr := s.gs[h];
    assert GoroutineOk(h, gr, s.locals);
    assert CallOk(h, gr.on.value, gr.calls[|gr.calls| - 1], s.locals);
  }

  /** A step touches the variables of its own goroutine's thread only. */
  lemma OthersKeep(s: State, step: Step, h: Gid)
    requires Inv(s) && Enabled(s, step) && h in s.gs && h != step.g
    ensures GoroutineOk(h, s.gs[h], Apply(s, step).locals)
  {
    var s' := Apply(s, step);
    assert GoroutineOk(h, s.gs[h], s.locals);
    if step.Report? {
      ReportsOwnThread(s, step.g);
    }
    OtherThreads(h, s.gs[h], s.locals, s'.locals);
  }

  lemma ExclusiveKept(s: State, step: Step)
    requires Exclusive(s) && Enabled(s, step)
    ensures Exclusive(Apply(s, step))
  {
    var s' := Apply(s, step);
    assert step.g in s'.gs;
    assert forall h :: h in s'.gs && h != step.g ==> h in s.gs && s'.gs[h] == s.gs[h];
    if step.g in s.gs && !step.Schedule? && !step.Park? {
      assert s'.gs[step.g].on == s.gs[step.g].on;
    }
  }

  lemma StepKeeps(s: State, step: Step)
    requires Inv(s) && Enabled(s, step)
    ensures Inv(Apply(s, step))
  {
    var s' := Apply(s, step);
    ExclusiveKept(s, step);
    forall h | h in s'.gs ensures GoroutineOk(h, s'.gs[h], s'.locals) {
      if h != step.g {
        OthersKeep(s, step, h);
      } else if step.CWrite? {
        WriteStep(s, h, step.v, step.value);
      } else if MovesOn(step) {
        GuardedStep(s, step);
      } else {
        OtherStep(s, step);
      }
    }
  }

  // ---------- What holds in every reachable state ----------

  ghost predicate Reachable(s: State) {
    exists steps :: Run(INITIAL, steps) == Some(s)
  }

  lemma {:induction false} RunKeeps(s: State, steps: seq<Step>)
    requires Inv(s) && Run(s, steps).Some?
    ensures Inv(Run(s, steps).value)
    decreases |steps|
  {
    if steps != [] {
      StepKeeps(s, steps[0]);
      RunKeeps(Apply(s, steps[0]), steps[1..]);
    }
  }

  lemma ReachableInv(s: State)
    requires Reachable(s)
    ensures Inv(s)
  {
    var steps :| Run(INITIAL, steps) == Some(s);
    RunKeeps(INITIAL, steps);
  }

  /** Every guarded call enters C with its variable clear on its own thread, and reports what that
      variable held when C returned, which no other goroutine wrote. */
  lemma GuardedCallsReportTheirOwn(s: State, g: Gid, i: nat)
    requires Reachable(s) && g in s.gs && i < |s.gs[g].calls| && s.gs[g].calls[i].Guarded?
    ensures var c := s.gs[g].calls[i];
            && s.gs[g].on.Some?
            && (c.stage == InC || c.stage == Returned || c.stage == Reported ==>
                  c.started == CLEAR && c.ptr == s.gs[g].on.value)
            && (c.stage == Returned || c.stage == Reported ==> c.left == CLEAR || c.left.writer == Some(g))
            && (c.stage == Reported ==> c.reported == c.left.value)
  {
    ReachableInv(s);
    var gr := s.gs[g];
    assert GoroutineOk(g, gr, s.locals);
    assert CallOk(g, gr.on.value, gr.calls[i], s.locals);
  }

  /** While a guarded call is in progress nobody else is on its thread, so `left` is its own thread's
      errno as the C function left it. */
  lemma ThreadIsOwn(s: State, g: Gid)
    requires Reachable(s) && g in s.gs && Calling(s.gs[g])
    ensures s.gs[g].on.Some? && !Movable(s.gs[g])
    ensures forall h :: h in s.gs && h != g ==> s.gs[h].on != s.gs[g].on
  {
    ReachableInv(s);
    assert GoroutineOk(g, s.gs[g], s.locals);
    InProgressStays(g, s.gs[g], s.locals);
  }

  lemma InProgressStays(g: Gid, gr: Goroutine, locals: map<(Tid, Var), Local>)
    requires GoroutineOk(g, gr, locals) && Calling(gr)
    ensures gr.on.Some? && !Movable(gr)
  {
    var top := gr.calls[|gr.calls| - 1];
    assert IsInC(top) || gr.locks > 0;
  }

  /** Lock counts nest and are restored: a goroutine is locked once for each guarded call in progress
      on top of its own locks, however earlier calls ended, so one without calls has only its own. */
  lemma LocksRestored(s: State, g: Gid)
    requires Reachable(s) && g in s.gs
    ensures s.gs[g].locks == s.gs[g].userLocks + GuardedCalls(s.gs[g].calls)
    ensures s.gs[g].calls == [] ==> s.gs[g].locks == s.gs[g].userLocks
  {
    ReachableInv(s);
    assert GoroutineOk(g, s.gs[g], s.locals);
  }

  /** The unlock a call has deferred never lacks a lock to undo. */
  lemma UnlockAlwaysPossible(s: State, g: Gid)
    requires Reachable(s) && g in s.gs && Calling(s.gs[g])
    ensures Enabled(s, Panic(g))
    ensures AtStage(s.gs[g], Returned) || AtStage(s.gs[g], Reported) ==> Enabled(s, Exit(g))
  {
    ReachableInv(s);
    PopOk(g, s.gs[g], s.locals);
  }

  // ---------- Why the lock is there ----------

  /** What Begin would do without LockOSThread. */
  function BeginUnlocked(s: State, g: Gid, v: Var): State
    requires g in s.gs
  {
    s.(gs := s.gs[g := Push(s.gs[g], Guarded(v, Locked, 0, CLEAR, CLEAR, Nothing))])
  }

  ghost predicate Reaches(s: State, s': State) {
    exists steps :: Run(s, steps) == Some(s')
  }

  lemma {:induction false} RunConcat(s: State, a: seq<Step>, b: seq<Step>)
    requires Run(s, a).Some?
    ensures Run(s, a + b) == Run(Run(s, a).value, b)
    decreases |a|
  {
    if a == [] {
      assert a + b == b;
    } else {
      RunConcat(Apply(s, a[0]), a[1..], b);
      assert (a + b)[1..] == a[1..] + b;
    }
  }

  /** One more step of a run. */
  lemma Then(s: State, mid: State, step: Step, s': State)
    requires Reaches(s, mid) && Enabled(mid, step)
    requires Apply(mid, step).gs == s'.gs && Apply(mid, step).locals == s'.locals
    ensures Reaches(s, s')
  {
    var steps :| Run(s, steps) == Some(mid);
    RunConcat(s, steps, [step]);
    assert [step][1..] == [] && Run(s', []) == Some(s');
    assert Run(mid, [step]) == Some(s');
  }

  /** Goroutine 0 on thread 0 in a guarded call at `stage`, with errno as cleared. */
  function Lone(stage: Stage): State {
    State(map[0 := Goroutine(Some(0), 0, 0, [Guarded(Errno, stage, 0, CLEAR, CLEAR, Nothing)])],
          map[(0, Errno) := CLEAR])
  }

  /** The same goroutine on thread `on` or none, and goroutine 1 on thread `on1` or none, which has
      `calls`; `errno` is that of thread 0. */
  function Both(stage: Stage, reported: Content, on: Option<Tid>, on1: Option<Tid>, calls: seq<Call>, errno: Local): State {
    State(map[0 := Goroutine(on, 0, 0, [Guarded(Errno, stage, 0, CLEAR, CLEAR, reported)]),
              1 := Goroutine(on1, 0, 0, calls)],
          map[(0, Errno) := errno])
  }

  const FAILED: Local := Local(Number(5), Some(1))

  /** Without the lock the protocol fails: a call whose C function left errno clear reports the 5 that
      another goroutine's call left behind, on the thread the first has been moved away from. */
  lemma UnlockedCallMisreports()
    ensures var started := State(map[0 := Goroutine(Some(0), 0, 0, [])], map[]);
            && Reachable(started)
            && Reaches(BeginUnlocked(started, 0, Errno), Both(Reported, Number(5), Some(1), Some(0), [Plain], FAILED))
  {
    Starts();
    var started := State(map[0 := Goroutine(Some(0), 0, 0, [])], map[]);
    var begun := BeginUnlocked(started, 0, Errno);
    assert begun.gs[0].calls == [Guarded(Errno, Locked, 0, CLEAR, CLEAR, Nothing)];
    CallsUnlocked(begun);
    ErrnoOverwritten(begun);
  }

  lemma Starts()
    ensures Reachable(State(map[0 := Goroutine(Some(0), 0, 0, [])], map[]))
  {
    var spawned := State(map[0 := Goroutine(None, 0, 0, [])], map[]);
    assert Run(INITIAL, []) == Some(INITIAL);
    Then(INITIAL, INITIAL, Spawn(0), spawned);
    Then(INITIAL, spawned, Schedule(0, 0), State(map[0 := Goroutine(Some(0), 0, 0, [])], map[]));
  }

  lemma CallsUnlocked(s: State)
    requires s == State(map[0 := Goroutine(Some(0), 0, 0, [Guarded(Errno, Locked, 0, CLEAR, CLEAR, Nothing)])], map[])
    ensures Reaches(s, Lone(Returned))
  {
    assert Run(s, []) == Some(s);
    OnlyCall(Guarded(Errno, Locked, 0, CLEAR, CLEAR, Nothing), Guarded(Errno, Cleared, 0, CLEAR, CLEAR, Nothing));
    Then(s, s, Clear(0), Lone(Cleared));
    MovesLone(s, Cleared, Enter(0), InC);
    MovesLone(s, InC, Return(0), Returned);
  }

  lemma OnlyCall(c: Call, c': Call)
    ensures [c][0 := c'] == [c']
  {
  }

  lemma MovesLone(s: State, stage: Stage, step: Step, stage': Stage)
    requires Reaches(s, Lone(stage))
    requires || (stage == Cleared && step == Enter(0) && stage' == InC)
             || (stage == InC && step == Return(0) && stage' == Returned)
    ensures Reaches(s, Lone(stage'))
  {
    OnlyCall(Guarded(Errno, stage, 0, CLEAR, CLEAR, Nothing), Guarded(Errno, stage', 0, CLEAR, CLEAR, Nothing));
    Then(s, Lone(stage), step, Lone(stage'));
  }

  lemma ErrnoOverwritten(s: State)
    requires Reaches(s, Lone(Returned))
    ensures Reaches(s, Both(Reported, Number(5), Some(1), Some(0), [Plain], FAILED))
  {
    LosesThread(s);
    ThreadTaken(s);
    OtherFails(s);
    ReportsElsewhere(s);
  }

  lemma LosesThread(s: State)
    requires Reaches(s, Lone(Returned))
    ensures Reaches(s, Both(Returned, Nothing, None, None, [], CLEAR))
  {
    Then(s, Lone(Returned), Spawn(1), Both(Returned, Nothing, Some(0), None, [], CLEAR));
    Then(s, Both(Returned, Nothing, Some(0), None, [], CLEAR), Park(0), Both(Returned, Nothing, None, None, [], CLEAR));
  }

  lemma ThreadTaken(s: State)
    requires Reaches(s, Both(Returned, Nothing, None, None, [], CLEAR))
    ensures Reaches(s, Both(Returned, Nothing, None, Some(0), [Plain], CLEAR))
  {
    var taken := Both(Returned, Nothing, None, Some(0), [], CLEAR);
    Then(s, Both(Returned, Nothing, None, None, [], CLEAR), Schedule(1, 0), taken);
    assert [] + [Plain] == [Plain];
    Then(s, taken, BeginPlain(1), Both(Returned, Nothing, None, Some(0), [Plain], CLEAR));
  }

  lemma OtherFails(s: State)
    requires Reaches(s, Both(Returned, Nothing, None, Some(0), [Plain], CLEAR))
    ensures Reaches(s, Both(Returned, Nothing, Some(1), Some(0), [Plain], FAILED))
  {
    Then(s, Both(Returned, Nothing, None, Some(0), [Plain], CLEAR), CWrite(1, Errno, Number(5)),
         Both(Returned, Nothing, None, Some(0), [Plain], FAILED));
    MovedElsewhere(s);
  }

  lemma MovedElsewhere(s: State)
    requires Reaches(s, Both(Returned, Nothing, None, Some(0), [Plain], FAILED))
    ensures Reaches(s, Both(Returned, Nothing, Some(1), Some(0), [Plain], FAILED))
  {
    Then(s, Both(Returned, Nothing, None, Some(0), [Plain], FAILED), Schedule(0, 1),
         Both(Returned, Nothing, Some(1), Some(0), [Plain], FAILED));
  }

  lemma ReportsElsewhere(s: State)
    requires Reaches(s, Both(Returned, Nothing, Some(1), Some(0), [Plain], FAILED))
    ensures Reaches(s, Both(Reported, Number(5), Some(1), Some(0), [Plain], FAILED))
  {
    var moved := Both(Returned, Nothing, Some(1), Some(0), [Plain], FAILED);
    var c := Guarded(Errno, Reported, 0, CLEAR, CLEAR, Number(5));
    assert moved.gs[0].calls[0 := c] == [c];
    Then(s, moved, Report(0), Both(Reported, Number(5), Some(1), Some(0), [Plain], FAILED));
  }
}
