/** The context pools under concurrency: any number of calls, on any goroutines and nested through
    callbacks, draw contexts from the pools and return them. */
module PoolIsolation {
  import opened Words

  type ContextId = nat
  type CallId = nat

  /** The three pools; only slow contexts hold values to keep alive. */
  datatype PoolKind = Fast | Slow | Syscall

  const SLOTS: nat := 32

  /** What a context holds: argument cells, kept values, the result area. Everything but the kept values
      stays behind when a context goes back to its pool. */
  datatype Context = Context(kind: PoolKind, args: seq<int>, keep: seq<Option<int>>, result: int)

  /** How far a call has come: filling its slots, inside C, back from C, or done reading the result. */
  datatype Phase = Filling | InC | Back | ResultRead

  /** A call in flight. `values` are its arguments, `filled` how many are packed; `seen` is what C was
      given, `answer` what its own C call stored and `got` what it read. */
  datatype Call = Call(ctx: ContextId, phase: Phase, values: seq<int>, filled: nat, seen: seq<int>, answer: int, got: int)

  datatype State = State(pool: set<ContextId>, contexts: map<ContextId, Context>, calls: map<CallId, Call>)

  const INITIAL: State := State({}, map[], map[])

  datatype Step =
    | GetPooled(k: CallId, c: ContextId, values: seq<int>)
    | GetNew(k: CallId, c: ContextId, kind: PoolKind, values: seq<int>)
    | Fill(k: CallId)
    | Enter(k: CallId)
    | Leave(k: CallId, answer: int)
    | Read(k: CallId)
    | Put(k: CallId)        // after reading
    | Unwind(k: CallId)     // a panic at any earlier point; the only way on when the slots run out
    | Collect(c: ContextId) // the garbage collector empties a pool slot

  function Fresh(kind: PoolKind): Context {
    Context(kind, seq(SLOTS, _ => 0), seq(SLOTS, _ => None), 0)
  }

  predicate Enabled(s: State, step: Step) {
    match step
    case GetPooled(k, c, values) => k !in s.calls && c in s.pool && c in s.contexts
    case GetNew(k, c, kind, values) => k !in s.calls && c !in s.contexts
    case Fill(k) => Owns(s, k, Filling) && s.calls[k].filled < |s.calls[k].values| && s.calls[k].filled < SLOTS
    case Enter(k) => Owns(s, k, Filling) && s.calls[k].filled == |s.calls[k].values| <= SLOTS
    case Leave(k, _) => Owns(s, k, InC)
    case Read(k) => Owns(s, k, Back)
    case Put(k) => Owns(s, k, ResultRead)
    case Unwind(k) => k in s.calls && s.calls[k].ctx in s.contexts && s.calls[k].phase != ResultRead
    case Collect(c) => c in s.pool
  }

  predicate Owns(s: State, k: CallId, phase: Phase) {
    && k in s.calls && s.calls[k].phase == phase && s.calls[k].ctx in s.contexts
    && var ctx := s.contexts[s.calls[k].ctx]; |ctx.args| == SLOTS && |ctx.keep| == SLOTS
  }

  /** The deferred clearing loop, over the slots this call used. */
  function ClearKeep(keep: seq<Option<int>>, used: nat): seq<Option<int>> {
    seq(|keep|, i requires 0 <= i < |keep| => if i < used then None else keep[i])
  }

  /** Giving a context back. The slow path clears what it kept, also on panic; the fast path and SyscallN
      hold nothing, and a panic through them simply loses the context. */
  function GiveBack(s: State, k: CallId, panicking: bool): State
    requires k in s.calls && s.calls[k].ctx in s.contexts
  {
    var c := s.calls[k].ctx;
    var ctx := s.contexts[c];
    State(if panicking && ctx.kind != Slow then s.pool else s.pool + {c},
          s.contexts[c := ctx.(keep := ClearKeep(ctx.keep, s.calls[k].filled))],
          s.calls - {k})
  }

  function Apply(s: State, step: Step): State
    requires Enabled(s, step)
  {
    match step
    case GetPooled(k, c, values) =>
      s.(pool := s.pool - {c}, calls := s.calls[k := Call(c, Filling, values, 0, [], 0, 0)])
    case GetNew(k, c, kind, values) =>
      s.(contexts := s.contexts[c := Fresh(kind)], calls := s.calls[k := Call(c, Filling, values, 0, [], 0, 0)])
    case Fill(k) =>
      var call := s.calls[k];
      var ctx, n := s.contexts[call.ctx], call.filled;
      var keep := if ctx.kind == Slow then ctx.keep[n := Some(call.values[n])] else ctx.keep;
      s.(contexts := s.contexts[call.ctx := ctx.(args := ctx.args[n := call.values[n]], keep := keep)],
         calls := s.calls[k := call.(filled := n + 1)])
    case Enter(k) =>
      var call := s.calls[k];
      s.(calls := s.calls[k := call.(phase := InC, seen := s.contexts[call.ctx].args[..call.filled])])
    case Leave(k, answer) =>
      var call := s.calls[k];
      s.(contexts := s.contexts[call.ctx := s.contexts[call.ctx].(result := answer)],
         calls := s.calls[k := call.(phase := Back, answer := answer)])
    case Read(k) =>
      var call := s.calls[k];
      s.(calls := s.calls[k := call.(phase := ResultRead, got := s.contexts[call.ctx].result)])
    case Put(k) => GiveBack(s, k, false)
    case Unwind(k) => GiveBack(s, k, true)
    case Collect(c) => s.(pool := s.pool - {c})
  }

  function Run(s: State, steps: seq<Step>): Option<State>
    decreases |steps|
  {
    if steps == [] then Some(s)
    else if Enabled(s, steps[0]) then Run(Apply(s, steps[0]), steps[1..])
    else None
  }

  // ---------- The invariant ----------

  /** A call's context holds what the call put there. */
  predicate CallOk(s: State, call: Call) {
    && call.ctx in s.contexts && call.ctx !in s.pool
    && call.filled <= |call.values| && call.filled <= SLOTS
    && var ctx := s.contexts[call.ctx];
       && |ctx.args| == SLOTS && |ctx.keep| == SLOTS
       && ctx.args[..call.filled] == call.values[..call.filled]
       && (forall i :: 0 <= i < SLOTS ==>
             ctx.keep[i] == if ctx.kind == Slow && i < call.filled then Some(call.values[i]) else None)
       && (call.phase != Filling ==> call.filled == |call.values| && call.seen == call.values)
       && (call.phase == Back || call.phase == ResultRead ==> ctx.result == call.answer)
       && (call.phase == ResultRead ==> call.got == call.answer)
  }

  predicate PooledOk(s: State, c: ContextId) {
    && c in s.contexts
    && |s.contexts[c].args| == SLOTS && |s.contexts[c].keep| == SLOTS
    && forall i :: 0 <= i < SLOTS ==> s.contexts[c].keep[i].None?
  }

  predicate Isolated(calls: map<CallId, Call>) {
    forall k, k' :: k in calls && k' in calls && k != k' ==> calls[k].ctx != calls[k'].ctx
  }

  predicate Inv(s: State) {
    && Isolated(s.calls)
    && (forall k :: k in s.calls ==> CallOk(s, s.calls[k]))
    && (forall c :: c in s.pool ==> PooledOk(s, c))
  }

  /** A step concerns one context only. */
  function Touched(s: State, step: Step): ContextId
    requires Enabled(s, step)
  {
    match step
    case GetPooled(_, c, _) => c
    case GetNew(_, c, _, _) => c
    case Collect(c) => c
    case _ => s.calls[step.k].ctx
  }

  lemma OthersKeep(s: State, step: Step, k: CallId)
    requires Inv(s) && Enabled(s, step) && k in s.calls && (step.Collect? || k != step.k)
    ensures CallOk(Apply(s, step), s.calls[k]) && s.calls[k].ctx != Touched(s, step)
  {
    assert CallOk(s, s.calls[k]);
    if step.GetPooled? || step.Collect? {
      assert s.calls[k].ctx !in s.pool;
    }
  }

  lemma OwnKeeps(s: State, step: Step)
    requires Inv(s) && Enabled(s, step) && !step.Collect?
    ensures var s' := Apply(s, step); step.k in s'.calls ==> CallOk(s', s'.calls[step.k])
  {
    var s' := Apply(s, step);
    if step.k in s.calls {
      assert CallOk(s, s.calls[step.k]);
      if step.Fill? {
        var call, n := s.calls[step.k], s.calls[step.k].filled;
        assert s'.contexts[call.ctx].args[..n + 1] == s.contexts[call.ctx].args[..n] + [call.values[n]];
        assert call.values[..n + 1] == call.values[..n] + [call.values[n]];
      }
      if step.Enter? {
        var call := s.calls[step.k];
        assert call.values[..call.filled] == call.values;
      }
    } else if step.GetPooled? {
      assert PooledOk(s, step.c);
    }
  }

  lemma PoolKeeps(s: State, step: Step, c: ContextId)
    requires Inv(s) && Enabled(s, step) && c in Apply(s, step).pool
    ensures PooledOk(Apply(s, step), c)
  {
    if c in s.pool {
      assert PooledOk(s, c);
    }
    if !step.Collect? && step.k in s.calls {
      assert CallOk(s, s.calls[step.k]);
    }
  }

  lemma StepKeeps(s: State, step: Step)
    requires Inv(s) && Enabled(s, step)
    ensures Inv(Apply(s, step))
  {
    var s' := Apply(s, step);
    forall k | k in s'.calls ensures CallOk(s', s'.calls[k]) {
      if step.Collect? || k != step.k {
        OthersKeep(s, step, k);
      } else {
        OwnKeeps(s, step);
      }
    }
    forall c | c in s'.pool ensures PooledOk(s', c) {
      PoolKeeps(s, step, c);
    }
    IsolatedKept(s, step);
  }

  lemma IsolatedKept(s: State, step: Step)
    requires Inv(s) && Enabled(s, step)
    ensures Isolated(Apply(s, step).calls)
  {
    var s' := Apply(s, step);
    forall k, k' | k in s'.calls && k' in s'.calls && k != k' ensures s'.calls[k].ctx != s'.calls[k'].ctx {
      if !step.Collect? && k == step.k { OthersKeep(s, step, k'); }
      if !step.Collect? && k' == step.k { OthersKeep(s, step, k); }
    }
  }

  ghost predicate Reachable(s: State) {
    exists steps :: Run(INITIAL, steps) == Some(s)
  }

  lemma {:induction false} RunKeeps(s: State, steps: seq<Step>)
    requires Inv(s) && Run(s, steps).Some?
    ensures Inv(Run(s, steps).value)
    decreases |steps|
  {
    if steps != [] {
      StepKeeps(s, steps[0]);
      RunKeeps(Apply(s, steps[0]), steps[1..]);
    }
  }

  lemma ReachableInv(s: State)
    requires Reachable(s)
    ensures Inv(s)
  {
    var steps :| Run(INITIAL, steps) == Some(s);
    RunKeeps(INITIAL, steps);
  }

  /** No context is owned by two calls in flight, or by a call and a pool. */
  lemma OneOwner(s: State, k: CallId, k': CallId)
    requires Reachable(s) && k in s.calls && k' in s.calls && k != k'
    ensures s.calls[k].ctx != s.calls[k'].ctx && s.calls[k].ctx !in s.pool
  {
    ReachableInv(s);
    assert CallOk(s, s.calls[k]);
  }

  /** C is given exactly the call's own arguments, and the result a call reads is the one its own C call
      stored, whatever ran in between. */
  lemma CallsSeeTheirOwn(s: State, k: CallId)
    requires Reachable(s) && k in s.calls
    ensures s.calls[k].phase != Filling ==> s.calls[k].seen == s.calls[k].values
    ensures s.calls[k].phase == ResultRead ==> s.calls[k].got == s.calls[k].answer
  {
    ReachableInv(s);
    assert CallOk(s, s.calls[k]);
  }

  /** How a call gives its context up: one that has read its result, and a slow call that panics, put it
      back, emptied of what it kept; a panic through the fast path or SyscallN loses it. */
  lemma GivesUp(s: State, step: Step)
    requires Reachable(s) && Enabled(s, step) && (step.Put? || step.Unwind?)
    ensures var s', c := Apply(s, step), s.calls[step.k].ctx;
            && step.k !in s'.calls
            && (c in s'.pool <==> step.Put? || s.contexts[c].kind == Slow)
            && (forall i :: 0 <= i < 32 ==> |s'.contexts[c].keep| == 32 && s'.contexts[c].keep[i].None?)
  {
    ReachableInv(s);
    assert CallOk(s, s.calls[step.k]);
  }

  /** A call can always give its context up: by putting it back once it has read its result, and at any
      point before that by a panic. */
  lemma CanGiveUp(s: State, k: CallId)
    requires Reachable(s) && k in s.calls
    ensures if s.calls[k].phase == ResultRead then Enabled(s, Put(k)) else Enabled(s, Unwind(k))
  {
    ReachableInv(s);
    assert CallOk(s, s.calls[k]);
  }

  /** While a slow call is inside C all its arguments are held by its context, and a context in the pool
      holds nothing, also after panics part-way through packing. */
  lemma KeepAliveDiscipline(s: State)
    requires Reachable(s)
    ensures forall k, i :: k in s.calls && s.calls[k].phase == InC && s.calls[k].ctx in s.contexts
                           && s.contexts[s.calls[k].ctx].kind == Slow && 0 <= i < |s.calls[k].values| ==>
              |s.contexts[s.calls[k].ctx].keep| == SLOTS && i < SLOTS
              && s.contexts[s.calls[k].ctx].keep[i] == Some(s.calls[k].values[i])
    ensures forall c, i :: c in s.pool && 0 <= i < SLOTS ==>
              c in s.contexts && |s.contexts[c].keep| == SLOTS && s.contexts[c].keep[i].None?
  {
    ReachableInv(s);
    forall k | k in s.calls ensures CallOk(s, s.calls[k]) {
    }
    forall c | c in s.pool ensures PooledOk(s, c) {
    }
  }

  // ---------- Every call can be carried through ----------

  lemma {:induction false} RunConcat(s: State, a: seq<Step>, b: seq<Step>)
    requires Run(s, a).Some?
    ensures Run(s, a + b) == Run(Run(s, a).value, b)
    decreases |a|
  {
    if a == [] {
      assert a + b == b;
    } else {
      RunConcat(Apply(s, a[0]), a[1..], b);
      assert (a + b)[1..] == a[1..] + b;
    }
  }

  ghost predicate Reaches(s: State, s': State) {
    exists steps :: Run(s, steps) == Some(s')
  }

  /** One more step of a run that keeps the invariant. */
  lemma Then(s: State, mid: State, step: Step)
    requires Reaches(s, mid) && Inv(mid) && Enabled(mid, step)
    ensures Reaches(s, Apply(mid, step)) && Inv(Apply(mid, step))
  {
    var steps :| Run(s, steps) == Some(mid);
    RunConcat(s, steps, [step]);
    assert [step][1..] == [] && Run(Apply(mid, step), []) == Some(Apply(mid, step));
    assert Run(mid, [step]) == Some(Apply(mid, step));
    StepKeeps(mid, step);
  }

  /** Filling goes on until all values are packed. */
  lemma {:induction false} FillsUp(s: State, mid: State, k: CallId) returns (s': State)
    requires Reaches(s, mid) && Inv(mid) && k in mid.calls && mid.calls[k].phase == Filling
    requires |mid.calls[k].values| <= 32
    ensures Reaches(s, s') && Inv(s') && k in s'.calls && s'.calls[k].phase == Filling
    ensures s'.calls[k].values == mid.calls[k].values && s'.calls[k].filled == |s'.calls[k].values|
    ensures s'.calls[k].ctx == mid.calls[k].ctx
    decreases |mid.calls[k].values| - mid.calls[k].filled
  {
    assert CallOk(mid, mid.calls[k]);
    if mid.calls[k].filled == |mid.calls[k].values| {
      s' := mid;
    } else {
      Then(s, mid, Fill(k));
      s' := FillsUp(s, Apply(mid, Fill(k)), k);
    }
  }

  /** From every reachable state a call of up to 32 values on any pooled or new context can be carried
      through: C is given the values, and the answer C stores is read. */
  lemma CallCompletes(s: State, k: CallId, c: ContextId, kind: PoolKind, values: seq<int>, answer: int) returns (s': State)
    requires Reachable(s) && k !in s.calls && |values| <= 32
    requires c in s.pool || c !in s.contexts
    ensures Reaches(s, s') && Reachable(s') && k in s'.calls
    ensures s'.calls[k].ctx == c && s'.calls[k].phase == ResultRead
    ensures s'.calls[k].seen == values && s'.calls[k].got == answer
  {
    ReachableInv(s);
    assert Run(s, []) == Some(s);
    if c in s.pool {
      assert PooledOk(s, c);
    }
    var get := if c in s.pool then GetPooled(k, c, values) else GetNew(k, c, kind, values);
    Then(s, s, get);
    var filled := FillsUp(s, Apply(s, get), k);
    s' := Answered(s, filled, k, answer);
    FromStart(s, s');
  }

  lemma Answered(s: State, mid: State, k: CallId, answer: int) returns (s': State)
    requires Reaches(s, mid) && Inv(mid) && k in mid.calls && mid.calls[k].phase == Filling
    requires mid.calls[k].filled == |mid.calls[k].values|
    ensures Reaches(s, s') && Inv(s') && k in s'.calls
    ensures s'.calls[k].ctx == mid.calls[k].ctx && s'.calls[k].phase == ResultRead
    ensures s'.calls[k].seen == mid.calls[k].values && s'.calls[k].got == answer
  {
    assert CallOk(mid, mid.calls[k]);
    Then(s, mid, Enter(k));
    var entered := Apply(mid, Enter(k));
    assert CallOk(entered, entered.calls[k]);
    Then(s, entered, Leave(k, answer));
    var left := Apply(entered, Leave(k, answer));
    assert CallOk(left, left.calls[k]);
    Then(s, left, Read(k));
    s' := Apply(left, Read(k));
    assert CallOk(s', s'.calls[k]);
  }

  lemma FromStart(s: State, s': State)
    requires Reachable(s) && Reaches(s, s')
    ensures Reachable(s')
  {
    var a :| Run(INITIAL, a) == Some(s);
    var b :| Run(s, b) == Some(s');
    RunConcat(INITIAL, a, b);
  }
}
