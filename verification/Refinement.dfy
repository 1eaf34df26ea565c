/** The fast path refines the reflect path: same interface, same bytes behind every slot, same result. */
module Refinement {
  import opened Words
  import opened GoTypes
  import opened Descriptors
  import opened Marshal
  import opened FastTable
  import opened Classifier
  import opened ReflectCall
  import opened FastCall
  import opened ErrorCalls
  import Threads = ThreadErrors

  /** A registration that took the fast path: what RegisterFunc guarantees of it. */
  predicate RegisteredFast(w: Installed, plan: Plan) {
    && PlanOk(plan)
    && plan.startIn == StartIn(plan.ty)
    && !plan.ty.isVariadic && !HasError(plan.ty)
    && FastEligible(plan.ty) && Fits(w, plan.ty)
  }

  lemma EligibleCounts(ty: FuncType)
    requires FastEligible(ty)
    ensures NumFloats(ty.ins) <= 1 && |ty.ins| <= 15
    ensures forall i :: 0 <= i < |ty.ins| ==> FastKind(ty.ins[i])
  {
    if NumFloats(ty.ins) > 1 {
      ManyFloatsShape(ty.ins);
    }
  }

  lemma WordsFitContext(ins: seq<GoType>)
    requires NumFloats(ins) <= 1 && |ins| <= 15
    requires forall i :: 0 <= i < |ins| ==> FastKind(ins[i])
    ensures ArgDescriptors(ins).Some? && FitsContext(ArgDescriptors(ins).value)
  {
    FastDescriptors(ins);
    FastDescriptorSizes(ins);
  }

  /** A marker is not of a fast kind, so a marked signature never takes the fast path. */
  lemma MarkedIsNotEligible(ty: FuncType)
    requires StartIn(ty) == 1
    ensures !FastEligible(ty)
  {
    assert !FastKind(ty.ins[0]);
  }

  /** The registers a Go function returns in. A wrapper returns a uintptr, so it sets the first integer
      register and leaves whatever the first float register holds. */
  datatype Registers = Registers(general: word, float: word)

  /** What a caller under the registered type reads after the call: the low bytes, as many as its result
      has, of the register of the result's class. */
  function FastResultOf(ty: FuncType, regs: Registers): GoResult
    requires ty.outs != [] ==> GoSize(ty.outs[0]) <= 8
  {
    if ty.outs == [] then NoResult
    else
      var r := if TypeClass(ty.outs[0]) == FloatClass then regs.float else regs.general;
      Memory(LittleEndian(r, 8)[..GoSize(ty.outs[0])])
  }

  /** Fast results are exactly those a wrapper's uintptr can stand for: a value of at most eight bytes that
      is returned in an integer register and needs nothing done to it, as a function would. */
  lemma FastResultIff(t: GoType)
    ensures FastResult([t]) <==>
              GoSize(t) <= 8 && !t.Func? && TypeClass(t) in {SignedClass, UnsignedClass, PointerClass}
  {
  }

  lemma FastResultSize(ty: FuncType)
    requires FastResult(ty.outs) && !HasError(ty) && ResultDescriptor(ty).Some? && |ty.outs| <= 1
    ensures ResultDescriptor(ty).value.size <= 8
    ensures ty.outs != [] ==> HasResult(ty) && ResultDescriptor(ty).value.size == GoSize(ty.outs[0]) <= 8
  {
  }

  lemma {:induction false} PackAllWords(args: seq<GoValue>, callback: nat -> word)
    requires forall i :: 0 <= i < |args| ==> PackArg(args[i], callback).Some?
    ensures PackAll(args, callback).Some?
  {
    if args != [] {
      PackAllWords(Front(args), callback);
    }
  }

  /** The reflect path's packArg loop makes the cells of wrapper and fastCallIF. */
  lemma SameCells(w: Installed, ty: FuncType, args: seq<GoValue>, callback: nat -> word)
    requires Fits(w, ty) && NumFloats(ty.ins) <= 1 && |ty.ins| <= 15 && ArgsMatch(args, ty.ins)
    requires forall i :: 0 <= i < |ty.ins| ==> FastKind(ty.ins[i])
    requires ArgDescriptors(ty.ins).Some? && FitsContext(ArgDescriptors(ty.ins).value)
    ensures PackAll(args, callback).Some?
    ensures var bits := AllBits(args, ty.ins);
            PackAll(args, callback).value.0 ==
            FastCells(ArgDescriptors(ty.ins).value, WrapperInts(w.wrapper, bits), WrapperFloats(w.wrapper, bits))
  {
    var ds, bits := ArgDescriptors(ty.ins).value, AllBits(args, ty.ins);
    var cells := FastCells(ds, WrapperInts(w.wrapper, bits), WrapperFloats(w.wrapper, bits));
    forall p | 0 <= p < |args|
      ensures PackArg(args[p], callback).Some? && cells[p] == PackArg(args[p], callback).value.0
    {
      CellMatches(w, ty, args, callback, p);
    }
    PackAllWords(args, callback);
    var packed := PackAll(args, callback).value.0;
    forall p | 0 <= p < |args| ensures packed[p] == cells[p] {
      PackAllAt(args, callback, p);
    }
  }

  /** The cells behind the slots of an installed wrapper's call. */
  function WrapperCells(w: Installed, plan: Plan, args: seq<GoValue>): seq<Cell>
    requires |w.wrapper.params| == |args| && (forall s :: s in w.wrapper.stores ==> s.slot < 15)
    requires FitsContext(plan.fixedArgTypes) && ArgsMatch(args, plan.ty.ins) && AllFast(plan.ty.ins)
  {
    var bits := AllBits(args, plan.ty.ins);
    FastCells(plan.fixedArgTypes, WrapperInts(w.wrapper, bits), WrapperFloats(w.wrapper, bits))
  }

  /** The interface and every cell the wrapper hands to the engine are those of the reflect path. */
  lemma SameCall(w: Installed, plan: Plan, args: seq<GoValue>, f: Foreign)
    requires RegisteredFast(w, plan) && ArgsMatch(args, plan.ty.ins)
    ensures plan.startIn == 0 && FitsContext(plan.fixedArgTypes) && AllFast(plan.ty.ins)
    ensures |w.wrapper.params| == |args| && forall s :: s in w.wrapper.stores ==> s.slot < 15
    ensures Marshalled(plan, args, [], f) == Some((FixedInterface(plan), WrapperCells(w, plan, args)))
  {
    FastPlan(w, plan);
    SameCells(w, plan.ty, args, f.callback);
    assert args[0..] == args;
  }

  /** What the plan of a fast signature holds. */
  lemma FastPlan(w: Installed, plan: Plan)
    requires RegisteredFast(w, plan)
    ensures plan.startIn == 0 && AllFast(plan.ty.ins) && NumFloats(plan.ty.ins) <= 1 && |plan.ty.ins| <= 15
    ensures ArgDescriptors(plan.ty.ins) == Some(plan.fixedArgTypes) && FitsContext(plan.fixedArgTypes)
    ensures |w.wrapper.params| == |plan.ty.ins| && forall s :: s in w.wrapper.stores ==> s.slot < 15
  {
    EligibleCounts(plan.ty);
    WordsFitContext(plan.ty.ins);
    if StartIn(plan.ty) == 1 {
      MarkedIsNotEligible(plan.ty);
    }
    assert plan.ty.ins[0..|plan.ty.ins|] == plan.ty.ins;
  }

  /** What the engine answers to the reflect path's call. */
  function Answer(plan: Plan, args: seq<GoValue>, f: Foreign, cfn: word): CallOutcome
    requires plan.startIn <= |args| && Marshalled(plan, args, [], f).Some?
  {
    var (cif, cells) := Marshalled(plan, args, [], f).value;
    f.call(cif, cfn, cells)
  }

  /** The engine reports no error, and a C bool is 0 or 1. */
  predicate IsPlain(ty: FuncType, outcome: CallOutcome) {
    outcome.Returned? && (ty.outs != [] && ty.outs[0].Bool? ==> |outcome.bytes| > 0 && outcome.bytes[0] <= 1)
  }

  /** The two results are equal, whatever the float register holds, exactly if the answer is plain: the
      wrapper drops an error the reflect path raises, and passes on a byte it would normalise. */
  lemma SameResultIff(plan: Plan, args: seq<GoValue>, f: Foreign, cfn: word, found: bool, junk: word)
    requires PlanOk(plan) && !HasError(plan.ty) && FastResult(plan.ty.outs) && |plan.ty.outs| <= 1
    requires plan.startIn <= |args| && Marshalled(plan, args, [], f).Some? && Honest(f)
    ensures AnswerSize(plan, Answer(plan, args, f, cfn))
    ensures ReflectResult(plan, args, [], f, cfn, found)
            == Done(FastResultOf(plan.ty, Registers(ReturnWord(Answer(plan, args, f, cfn)), junk)), None)
            <==> IsPlain(plan.ty, Answer(plan, args, f, cfn))
  {
    var outcome := Answer(plan, args, f, cfn);
    FastResultSize(plan.ty);
    if outcome.Returned? {
      StoredBytesAreLow(0, outcome.bytes);
      if plan.ty.outs != [] {
        UnpackFast(plan.ty.outs[0], outcome.bytes);
      }
    }
  }

  /** An answer fits the returned word, and the word holds the whole result. */
  predicate AnswerSize(plan: Plan, outcome: CallOutcome) {
    && (outcome.Returned? ==> |outcome.bytes| == plan.retType.size <= 8)
    && (plan.ty.outs != [] ==> plan.retType.size == GoSize(plan.ty.outs[0]) <= 8)
  }

  lemma UnpackFast(t: GoType, bytes: seq<byte>)
    requires FastResult([t]) && |bytes| == GoSize(t)
    ensures Unpack(t, bytes) == Memory(bytes) <==> (t.Bool? ==> bytes[0] <= 1)
  {
    if t.Bool? {
      assert bytes == [bytes[0]];
    }
  }

  /** An installed wrapper can be run, and hands the engine the reflect path's call. */
  lemma InstalledCall(w: Installed, plan: Plan, args: seq<GoValue>, f: Foreign)
    requires RegisteredFast(w, plan) && |plan.ty.outs| <= 1 && ArgsMatch(args, plan.ty.ins)
    ensures plan.startIn == 0 && FitsContext(plan.fixedArgTypes) && AllFast(plan.ty.ins) && plan.retType.size <= 8
    ensures |w.wrapper.params| == |args| && forall s :: s in w.wrapper.stores ==> s.slot < 15
    ensures Marshalled(plan, args, [], f) == Some((FixedInterface(plan), WrapperCells(w, plan, args)))
    ensures plan.ty.outs != [] ==> GoSize(plan.ty.outs[0]) <= 8
  {
    SameCall(w, plan, args, f);
    FastResultSize(plan.ty);
  }

  /** A call through an installed wrapper, on whatever context the pool hands out, end to end. */
  method CallInstalled(pool: FastPool, w: Installed, plan: Plan, args: seq<GoValue>, f: Foreign, cfn: word,
                       ghost found: bool)
    returns (result: GoResult)
    requires pool.Valid() && Honest(f)
    requires RegisteredFast(w, plan) && |plan.ty.outs| <= 1 && ArgsMatch(args, plan.ty.ins)
    modifies pool, pool.idle, pool.WordArrays(), pool.SlotArrays()
    ensures pool.Valid()
    ensures plan.startIn <= |args| && Marshalled(plan, args, [], f).Some?
    ensures ReflectResult(plan, args, [], f, cfn, found) == Done(result, None) <==>
            IsPlain(plan.ty, Answer(plan, args, f, cfn))
  {
    InstalledCall(w, plan, args, f);
    var r := pool.RunWrapper(w, AllBits(args, plan.ty.ins), f, FixedInterface(plan), cfn);
    assert r == ReturnWord(Answer(plan, args, f, cfn));
    var junk: word := *;
    SameResultIff(plan, args, f, cfn, found, junk);
    result := FastResultOf(plan.ty, Registers(r, junk));
  }

  lemma FastRegistration(ty: FuncType, target: Target, w: Installed)
    requires IsFuncType(ty) && PlanFor(ty, target).Some?
    requires !ty.isVariadic && !HasError(ty) && FastEligible(ty) && Fits(w, ty)
    ensures RegisteredFast(w, PlanFor(ty, target).value) && |ty.outs| <= 1
  {
    PlanForIsOk(ty, target);
  }

  /** The only calls on which the two paths may differ: the engine reports an error, or a C bool is
      neither 0 nor 1. */
  ghost predicate PathsDiffer(plan: Plan, args: seq<GoValue>, f: Foreign, cfn: word)
    requires plan.startIn <= |args|
  {
    Marshalled(plan, args, [], f).Some? && !IsPlain(plan.ty, Answer(plan, args, f, cfn))
  }

  /** What RegisterFunc guarantees of a registration it did not reject. */
  predicate Registered(reg: Registration, ty: FuncType, target: Target) {
    && IsFuncType(ty) && PlanFor(ty, target).Some? && !reg.Rejected?
    && (reg.ReflectPath? ==> reg.plan == PlanFor(ty, target).value)
    && (reg.FastPath? ==> !ty.isVariadic && !HasError(ty) && FastEligible(ty) && Fits(reg.installed, ty))
  }

  /** What a caller gets: the reflect path's result and error, except that a call over the fast path
      differs exactly where the paths do. */
  ghost predicate CallerSees(r: CallResult, fast: bool, ty: FuncType, target: Target, args: seq<GoValue>, tail: seq<TailValue>,
                             f: Foreign, cfn: word, found: bool)
    requires IsFuncType(ty) && PlanFor(ty, target).Some? && Honest(f)
  {
    var plan := PlanFor(ty, target).value;
    && PlanOk(plan) && plan.startIn <= |args|
    && (r != ReflectResult(plan, args, tail, f, cfn, found) <==> fast && PathsDiffer(plan, args, f, cfn))
  }

  /** One call of a function registered on the fast path. */
  method CallFast(reg: Registration, ty: FuncType, cfn: word, target: Target, f: Foreign, args: seq<GoValue>,
                  pool: FastPool, ghost found: bool)
    returns (r: CallResult)
    requires Registered(reg, ty, target) && reg.FastPath? && Honest(f) && pool.Valid() && ArgsMatch(args, ty.ins)
    modifies pool, pool.idle, pool.WordArrays(), pool.SlotArrays()
    ensures CallerSees(r, true, ty, target, args, [], f, cfn, found)
    ensures pool.Valid()
  {
    PlanForIsOk(ty, target);
    FastRegistration(ty, target, reg.installed);
    var plan := PlanFor(ty, target);
    var result := CallInstalled(pool, reg.installed, plan.value, args, f, cfn, found);
    r := Done(result, None);
  }

  /** One call of a function registered on the reflect path. */
  method CallSlow(reg: Registration, ty: FuncType, cfn: word, target: Target, f: Foreign, args: seq<GoValue>,
                  tail: seq<TailValue>, slow: SlowPool, p: Process, g: Threads.Gid, found: bool,
                  world: nat -> seq<Threads.Step>)
    returns (r: CallResult)
    requires Registered(reg, ty, target) && reg.ReflectPath? && Honest(f) && slow.Valid()
    requires ArgsMatch(args, ty.ins[..if ty.isVariadic then |ty.ins| - 1 else |ty.ins|])
    requires Threads.Reachable(p.s) && g in p.s.gs && Threads.RunsGo(p.s.gs[g])
    modifies slow, slow.KeptArrays(), slow.CellArrays(), slow.Buffers(), p
    ensures CallerSees(r, false, ty, target, args, tail, f, cfn, found)
    ensures slow.Valid()
    ensures Threads.Reachable(p.s) && g in p.s.gs && p.s.gs[g] == old(p.s.gs[g])
  {
    PlanForIsOk(ty, target);
    r := slow.Call(reg.plan, args, tail, f, cfn, p, g, found, world);
  }

  lemma AllArguments(args: seq<GoValue>, ty: FuncType)
    requires !ty.isVariadic && ArgsMatch(args, ty.ins[..|ty.ins|])
    ensures ArgsMatch(args, ty.ins)
  {
    assert ty.ins[..|ty.ins|] == ty.ins;
  }

  /** One call of a registered function, by whichever path registration chose. */
  method CallRegistered(reg: Registration, ty: FuncType, cfn: word, target: Target, f: Foreign,
                        args: seq<GoValue>, tail: seq<TailValue>, pool: FastPool, slow: SlowPool,
                        p: Process, g: Threads.Gid, found: bool, world: nat -> seq<Threads.Step>)
    returns (r: CallResult)
    requires Registered(reg, ty, target) && Honest(f) && pool.Valid() && slow.Valid()
    requires ArgsMatch(args, ty.ins[..if ty.isVariadic then |ty.ins| - 1 else |ty.ins|])
    requires !ty.isVariadic ==> tail == []
    requires Threads.Reachable(p.s) && g in p.s.gs && Threads.RunsGo(p.s.gs[g])
    modifies pool, pool.idle, pool.WordArrays(), pool.SlotArrays()
    modifies slow, slow.KeptArrays(), slow.CellArrays(), slow.Buffers(), p
    ensures CallerSees(r, reg.FastPath?, ty, target, args, tail, f, cfn, found)
    ensures if reg.FastPath? then pool.Valid() else slow.Valid()
    ensures Threads.Reachable(p.s) && g in p.s.gs && p.s.gs[g] == old(p.s.gs[g])
  {
    if reg.FastPath? {
      AllArguments(args, ty);
      r := CallFast(reg, ty, cfn, target, f, args, pool, found);
    } else {
      r := CallSlow(reg, ty, cfn, target, f, args, tail, slow, p, g, found, world);
    }
  }

  /** Registers a C function under a Go type and calls it once. The caller sees the reflect path's result
      and error, except exactly where the paths differ, and the calling goroutine is locked no more than
      before. */
  method RegisterAndCall(t: Tables, ty: FuncType, cfn: word, target: Target, f: Foreign,
                         args: seq<GoValue>, tail: seq<TailValue>, pool: FastPool, slow: SlowPool,
                         p: Process, g: Threads.Gid, found: bool, world: nat -> seq<Threads.Step>)
    returns (registered: bool, r: CallResult)
    requires Generated(t) && IsFuncType(ty) && Honest(f) && pool.Valid() && slow.Valid()
    requires ArgsMatch(args, ty.ins[..if ty.isVariadic then |ty.ins| - 1 else |ty.ins|])
    requires !ty.isVariadic ==> tail == []
    requires Threads.Reachable(p.s) && g in p.s.gs && Threads.RunsGo(p.s.gs[g])
    modifies pool, pool.idle, pool.WordArrays(), pool.SlotArrays()
    modifies slow, slow.KeptArrays(), slow.CellArrays(), slow.Buffers(), p
    ensures registered <==>
              cfn != 0 && PlanFor(ty, target).Some? &&
              (ty.isVariadic || f.prepares(FixedInterface(PlanFor(ty, target).value)))
    ensures !registered ==> r == Panicked
    ensures registered ==>
              var fast := target.fastPlatform && !ty.isVariadic && !HasError(ty) && FastEligible(ty);
              && CallerSees(r, fast, ty, target, args, tail, f, cfn, found)
              && if fast then pool.Valid() else slow.Valid()
    ensures Threads.Reachable(p.s) && g in p.s.gs && p.s.gs[g] == old(p.s.gs[g])
  {
    var reg := RegisterFunc(t, ty, cfn, target, f);
    registered, r := !reg.Rejected?, Panicked;
    if registered {
      r := CallRegistered(reg, ty, cfn, target, f, args, tail, pool, slow, p, g, found, world);
    }
  }

  // ---------- Both differences occur ----------

  const FAILING: Foreign := Foreign(_ => true, (_, _, _) => CallFailed, (_, _, _) => None, _ => 0)

  /** Stores the byte 2 all over the result. */
  const STORES_TWO: Foreign :=
    Foreign(_ => true, (cif: CallInterface, _, _) => Returned(seq(cif.ret.size, _ => 2)), (_, _, _) => None, _ => 0)

  /** The plan of a function without parameters. */
  function NullaryPlan(outs: seq<GoType>, ret: Descriptor): Plan {
    Plan(FuncType([], outs, false), 0, 0, false, false, false, [], ret)
  }

  /** On a failing engine func() panics on the reflect path and returns on the fast path; where C stores
      2, func() bool gives 1 on the reflect path and 2 on the fast path. */
  lemma PathsCanDiffer(found: bool, junk: word)
    ensures var plan := NullaryPlan([], VOID_DESCRIPTOR);
            && FastEligible(plan.ty) && Honest(FAILING)
            && ReflectResult(plan, [], [], FAILING, 1, found) == Panicked
            && FastResultOf(plan.ty, Registers(ReturnWord(Answer(plan, [], FAILING, 1)), junk)) == NoResult
    ensures var plan := NullaryPlan([Bool], Scalar(UInt8, 1));
            && FastEligible(plan.ty) && Honest(STORES_TWO)
            && ReflectResult(plan, [], [], STORES_TWO, 1, found) == Done(Memory([1]), None)
            && FastResultOf(plan.ty, Registers(ReturnWord(Answer(plan, [], STORES_TWO, 1)), junk)) == Memory([2])
  {
    var two: seq<byte> := seq(1, _ => 2);
    assert two == [2];
    StoredBytesAreLow(0, two);
  }
}
