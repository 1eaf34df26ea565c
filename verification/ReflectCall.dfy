/** Registration of a C function under a Go type, and the reflect path of a call. */
module ReflectCall {
  import opened Words
  import opened GoTypes
  import opened Descriptors
  import opened Marshal
  import opened FastTable
  import opened Classifier
  import opened ErrorCalls
  import Threads = ThreadErrors

  /** What registration fixes for all later calls. */
  datatype Plan = Plan(
    ty: FuncType,
    startIn: nat,
    fixedIn: nat,
    hasError: bool,
    cVariadic: bool,
    cdecl: bool,
    fixedArgTypes: seq<Descriptor>,
    retType: Descriptor)

  datatype Registration = Rejected | FastPath(installed: Installed, cif: CallInterface) | ReflectPath(plan: Plan)

  /** A variadic Go function's last parameter is a slice. */
  predicate IsFuncType(ty: FuncType) {
    ty.isVariadic ==> ty.ins != [] && Last(ty.ins).Slice?
  }

  /** What the platform says about the C function: the GOARCH/GOOS guard of the fast path, whether
      this is darwin, and the symbol name found for the address ("" if none). */
  datatype Target = Target(fastPlatform: bool, darwin: bool, symbol: string)

  const MSG_SEND: string := "objc_msgSend"

  function StartIn(ty: FuncType): nat {
    if ty.ins != [] && IsMarker(ty.ins[0]) then 1 else 0
  }

  function HasError(ty: FuncType): bool {
    |ty.outs| == 2 || (|ty.outs| == 1 && ty.outs[0].ErrorType?)
  }

  /** True C variadics: marked ones, and unmarked Go-variadic ones unless the target is an Objective-C
      dispatcher or, on darwin, unknown. */
  function IsCVariadic(ty: FuncType, target: Target): bool {
    if ty.ins != [] && ty.ins[0] == VARIADIC then true
    else ty.isVariadic && !(MSG_SEND <= target.symbol) && !(target.symbol == "" && target.darwin)
  }

  function ArgDescriptors(ts: seq<GoType>): (ds: Option<seq<Descriptor>>)
    ensures ds.Some? ==> |ds.value| == |ts|
  {
    if ts == [] then Some([])
    else
      var front, last := ArgDescriptors(Front(ts)), GoArgTypeToFfiType(Last(ts));
      if front.None? || last.None? then None else Some(front.value + [last.value])
  }

  function ResultDescriptor(ty: FuncType): Option<Descriptor> {
    if |ty.outs| == 2 || (|ty.outs| == 1 && !HasError(ty)) then GoTypeToFfiType(ty.outs[0]) else Some(VOID_DESCRIPTOR)
  }

  /** `None` is a panic during registration. */
  function PlanFor(ty: FuncType, target: Target): (plan: Option<Plan>)
    requires IsFuncType(ty)
  {
    if |ty.outs| > 2 || (|ty.outs| == 2 && !ty.outs[1].ErrorType?) then None
    else
      var startIn, fixedIn := StartIn(ty), if ty.isVariadic then |ty.ins| - 1 else |ty.ins|;
      var args, ret := ArgDescriptors(ty.ins[startIn..fixedIn]), ResultDescriptor(ty);
      if args.None? || ret.None? then None
      else Some(Plan(ty, startIn, fixedIn, HasError(ty), IsCVariadic(ty, target),
                     ty.ins != [] && ty.ins[0] == CDECL, args.value, ret.value))
  }

  function FixedInterface(plan: Plan): CallInterface {
    CallInterface(plan.cdecl, plan.retType, plan.fixedArgTypes, None)
  }

  method RegisterFunc(t: Tables, ty: FuncType, cfn: word, target: Target, f: Foreign) returns (r: Registration)
    requires Generated(t) && IsFuncType(ty)
    ensures r.Rejected? <==>
              || cfn == 0
              || PlanFor(ty, target).None?
              || (!ty.isVariadic && !f.prepares(FixedInterface(PlanFor(ty, target).value)))
    ensures r.ReflectPath? ==> Some(r.plan) == PlanFor(ty, target)
    ensures r.FastPath? ==>
              && PlanFor(ty, target).Some? && r.cif == FixedInterface(PlanFor(ty, target).value)
              && Fits(r.installed, ty)
    ensures r.FastPath? <==>
              !r.Rejected? && target.fastPlatform && !ty.isVariadic && !HasError(ty) && FastEligible(ty)
  {
    if cfn == 0 {
      return Rejected;
    }
    var plan := PlanFor(ty, target);
    if plan.None? {
      return Rejected;
    }
    if !ty.isVariadic && !f.prepares(FixedInterface(plan.value)) {
      return Rejected;
    }
    if !ty.isVariadic && !plan.value.hasError {
      var ok, installed := TryRegisterFastPath(t, target.fastPlatform, ty);
      if ok {
        return FastPath(installed.value, FixedInterface(plan.value));
      }
    }
    return ReflectPath(plan.value);
  }

  // ---------- The call ----------

  /** An element of the variadic slice; `None` is a nil interface. */
  type TailValue = Option<GoValue>

  /** The result variable after the call: its memory, a C string to copy, or a C function to bind. */
  datatype GoResult = NoResult | Memory(bytes: seq<byte>) | EmptyText | CText(addr: word) | NilFunc | FuncAt(addr: word)

  /** `error` is the syscall.Errno of an error-returning signature, None for nil. */
  datatype CallResult = Panicked | Done(result: GoResult, error: Option<int>)

  const SLOTS: nat := 32

  /** Packs values left to right; `None` is the panic on an unsupported kind. */
  function PackAll(vs: seq<GoValue>, callback: nat -> word): (r: Option<(seq<Cell>, seq<Kept>)>)
    ensures r.Some? ==> |r.value.0| == |vs| && |r.value.1| <= |vs|
  {
    if vs == [] then Some(([], []))
    else
      var front, last := PackAll(Front(vs), callback), PackArg(Last(vs), callback);
      if front.None? || last.None? then None
      else
        var (cell, kept) := last.value;
        Some((front.value.0 + [cell], front.value.1 + if kept.Some? then [kept.value] else []))
  }

  function TailTypes(vs: seq<GoValue>): seq<GoType> {
    seq(|vs|, i requires 0 <= i < |vs| => TypeOf(vs[i]))
  }

  function NonNil(tail: seq<TailValue>): Option<seq<GoValue>> {
    if tail == [] then Some([])
    else
      var front := NonNil(Front(tail));
      if front.None? || Last(tail).None? then None else Some(front.value + [Last(tail).value])
  }

  /** The interface and cells handed to the engine; `None` is a panic while packing. */
  function Marshalled(plan: Plan, args: seq<GoValue>, tail: seq<TailValue>, f: Foreign): Option<(CallInterface, seq<Cell>)>
    requires plan.startIn <= |args|
  {
    if !plan.ty.isVariadic then
      var packed := PackAll(args[plan.startIn..], f.callback);
      if packed.None? || |args| - plan.startIn > SLOTS then None
      else Some((FixedInterface(plan), packed.value.0))
    else
      var values := NonNil(tail);
      if values.None? then None
      else
        var all := args[plan.startIn..] + values.value;
        var packed, types := PackAll(all, f.callback), ArgDescriptors(TailTypes(values.value));
        if packed.None? || types.None? || |all| > SLOTS then None
        else
          var cif := CallInterface(plan.cdecl, plan.retType, plan.fixedArgTypes + types.value,
                                   if plan.cVariadic then Some(|plan.fixedArgTypes|) else None);
          if f.prepares(cif) then Some((cif, packed.value.0)) else None
  }

  /** The values handed to C, in order. */
  function PassedValues(plan: Plan, args: seq<GoValue>, tail: seq<TailValue>): seq<GoValue>
    requires plan.startIn <= |args|
  {
    args[plan.startIn..] + if plan.ty.isVariadic && NonNil(tail).Some? then NonNil(tail).value else []
  }

  function Zeros(n: nat): seq<byte> {
    seq(n, _ => 0)
  }

  /** What unpackRet leaves in a result of type `t` when the engine stored `bytes`. */
  function Unpack(t: GoType, bytes: seq<byte>): GoResult
    requires |bytes| == (if t.String? || t.Slice? then 8 else GoSize(t))
  {
    match t
    case String => var a := Address(bytes); if a == 0 then EmptyText else CText(a)
    case Bool => Memory([if bytes[0] != 0 then 1 else 0])
    case Slice => Memory(bytes + Zeros(16))
    case Func => var a := Address(bytes); if a == 0 then NilFunc else FuncAt(a)
    case _ => Memory(bytes)
  }

  function Address(bytes: seq<byte>): word
    requires |bytes| == 8
  {
    FromLittleEndianBound(bytes);
    Pow256Of8();
    FromLittleEndian(bytes)
  }

  /** The engine stores exactly the result its interface declares. */
  ghost predicate Honest(f: Foreign) {
    forall cif, cfn, cells ::
      f.call(cif, cfn, cells).Returned? ==> |f.call(cif, cfn, cells).bytes| == cif.ret.size
  }

  predicate HasResult(ty: FuncType) {
    |ty.outs| == 2 || (|ty.outs| == 1 && !HasError(ty))
  }

  /** What a call with this interface and these cells gives its caller; `found` says whether errno's
      address could be looked up. */
  function Outcome(plan: Plan, f: Foreign, cif: CallInterface, cells: seq<Cell>, cfn: word, found: bool): CallResult
    requires ResultDescriptor(plan.ty) == Some(plan.retType) == Some(cif.ret) && Honest(f)
  {
    match f.call(cif, cfn, cells)
    case CallFailed => Panicked
    case Returned(bytes) =>
      var error := if plan.hasError then ReportedErrno(found, f.errno(cif, cfn, cells)) else None;
      if !HasResult(plan.ty) then Done(NoResult, error)
      else ResultSize(plan.ty.outs[0]); Done(Unpack(plan.ty.outs[0], bytes), error)
  }

  /** One call over the reflect path. */
  function ReflectResult(plan: Plan, args: seq<GoValue>, tail: seq<TailValue>, f: Foreign, cfn: word,
                         found: bool): CallResult
    requires plan.startIn <= |args| && ResultDescriptor(plan.ty) == Some(plan.retType) && Honest(f)
  {
    var m := Marshalled(plan, args, tail, f);
    if m.None? then Panicked else Outcome(plan, f, m.value.0, m.value.1, cfn, found)
  }

  lemma ResultSize(t: GoType)
    requires GoTypeToFfiType(t).Some?
    ensures GoTypeToFfiType(t).value.size == if t.String? || t.Slice? then 8 else GoSize(t)
  {
  }

  // ---------- A failing prefix fails the whole list ----------

  lemma {:induction false} PackAllFails(vs: seq<GoValue>, n: nat, callback: nat -> word)
    requires n <= |vs|
    ensures PackAll(vs[..n], callback).None? ==> PackAll(vs, callback).None?
  {
    if n < |vs| {
      PackAllFails(Front(vs), n, callback);
      assert Front(vs)[..n] == vs[..n];
    } else {
      assert vs[..n] == vs;
    }
  }

  lemma {:induction false} ArgDescriptorsFail(ts: seq<GoType>, n: nat)
    requires n <= |ts|
    ensures ArgDescriptors(ts[..n]).None? ==> ArgDescriptors(ts).None?
  {
    if n < |ts| {
      ArgDescriptorsFail(Front(ts), n);
      assert Front(ts)[..n] == ts[..n];
    } else {
      assert ts[..n] == ts;
    }
  }

  lemma {:induction false} NonNilFails(tail: seq<TailValue>, n: nat)
    requires n <= |tail|
    ensures NonNil(tail[..n]).None? ==> NonNil(tail).None?
    ensures NonNil(tail).Some? ==>
              |NonNil(tail).value| == |tail| && NonNil(tail[..n]) == Some(NonNil(tail).value[..n])
  {
    if n < |tail| {
      NonNilFails(Front(tail), n);
      assert Front(tail)[..n] == tail[..n];
      if NonNil(tail).Some? {
        assert NonNil(tail).value[..n] == NonNil(Front(tail)).value[..n];
      }
    } else {
      assert tail[..n] == tail;
      NonNilLength(tail);
      if NonNil(tail).Some? {
        assert NonNil(tail).value[..n] == NonNil(tail).value;
      }
    }
  }

  lemma {:induction false} NonNilLength(tail: seq<TailValue>)
    ensures NonNil(tail).Some? ==> |NonNil(tail).value| == |tail|
  {
    if tail != [] {
      NonNilLength(Front(tail));
    }
  }

  lemma TailStep(tail: seq<TailValue>, i: nat, values: seq<GoValue>, elem: GoValue, before: seq<GoValue>)
    requires i < |tail| && NonNil(tail[..i]) == Some(values) && tail[i] == Some(elem)
    ensures var values' := values + [elem];
            && NonNil(tail[..i + 1]) == Some(values')
            && Front(before + values') == before + values && Last(before + values') == elem
            && Front(TailTypes(values')) == TailTypes(values) && Last(TailTypes(values')) == TypeOf(elem)
  {
    assert Front(tail[..i + 1]) == tail[..i];
    assert before + (values + [elem]) == (before + values) + [elem];
  }

  lemma TailFails(tail: seq<TailValue>, n: nat, before: seq<GoValue>, callback: nat -> word)
    requires n <= |tail| && NonNil(tail[..n]).Some?
    ensures NonNil(tail).Some? ==>
              var part, whole := NonNil(tail[..n]).value, NonNil(tail).value;
              && (ArgDescriptors(TailTypes(part)).None? ==> ArgDescriptors(TailTypes(whole)).None?)
              && (PackAll(before + part, callback).None? ==> PackAll(before + whole, callback).None?)
              && |part| <= |whole|
  {
    NonNilFails(tail, n);
    if NonNil(tail).Some? {
      var whole := NonNil(tail).value;
      var part := whole[..n];
      assert TailTypes(whole)[..n] == TailTypes(part);
      ArgDescriptorsFail(TailTypes(whole), n);
      assert (before + whole)[..|before| + n] == before + part;
      PackAllFails(before + whole, |before| + n, callback);
    }
  }

  lemma FixedFails(plan: Plan, args: seq<GoValue>, tail: seq<TailValue>, f: Foreign)
    requires plan.startIn <= |args|
    ensures PackAll(args[plan.startIn..], f.callback).None? || |args| - plan.startIn > SLOTS ==>
              Marshalled(plan, args, tail, f).None?
  {
    var fixed := args[plan.startIn..];
    if NonNil(tail).Some? {
      var all := fixed + NonNil(tail).value;
      assert all[..|fixed|] == fixed;
      PackAllFails(all, |fixed|, f.callback);
    }
  }

  // ---------- The pooled context and the closure that uses it ----------

  class SlowCallContext {
    const keepAlive: array<Option<Kept>>
    const ffiArgs: array<Cell>
    const retBuf: array<byte>

    ghost predicate Valid() {
      keepAlive.Length == SLOTS && ffiArgs.Length == SLOTS && retBuf.Length == 32
    }

    /** Nothing of an earlier call is held. */
    ghost predicate Clean()
      requires Valid()
      reads keepAlive
    {
      forall i :: 0 <= i < SLOTS ==> keepAlive[i].None?
    }

    /** No two contexts share memory. */
    ghost predicate Apart(other: SlowCallContext) {
      keepAlive != other.keepAlive && ffiArgs != other.ffiArgs && retBuf != other.retBuf
    }

    constructor ()
      ensures Valid() && Clean() && fresh(keepAlive) && fresh(ffiArgs) && fresh(retBuf)
    {
      keepAlive := new Option<Kept>[SLOTS](_ => None);
      ffiArgs := new Cell[SLOTS](_ => Bytes([]));
      retBuf := new byte[32](_ => 0);
    }

    /** The slots filled so far: the cells in order, everything to be kept alive, and nothing else. */
    ghost predicate Holds(cells: seq<Cell>, kept: seq<Kept>)
      requires Valid()
      reads keepAlive, ffiArgs
    {
      && |kept| <= |cells| <= SLOTS
      && ffiArgs[..|cells|] == cells
      && (forall i :: 0 <= i < |kept| ==> keepAlive[i] == Some(kept[i]))
      && (forall i :: |kept| <= i < SLOTS ==> keepAlive[i].None?)
    }

    /** Packs one argument into the next slots. */
    method Push(v: GoValue, callback: nat -> word, ghost cells: seq<Cell>, ghost kept: seq<Kept>,
                argCount: nat, keepCount: nat)
      returns (panicked: bool, argCount': nat, keepCount': nat)
      requires Valid() && Holds(cells, kept) && argCount == |cells| && keepCount == |kept|
      modifies keepAlive, ffiArgs
      ensures panicked <==> PackArg(v, callback).None? || argCount == SLOTS
      ensures panicked ==> Holds(cells, kept) && argCount' == argCount && keepCount' == keepCount
      ensures !panicked ==>
                var (cell, k) := PackArg(v, callback).value;
                var cells', kept' := cells + [cell], kept + if k.Some? then [k.value] else [];
                Holds(cells', kept') && argCount' == |cells'| && keepCount' == |kept'|
    {
      argCount', keepCount' := argCount, keepCount;
      var packed := PackArg(v, callback);
      if packed.None? || argCount == SLOTS {
        return true, argCount, keepCount;
      }
      ffiArgs[argCount] := packed.value.0;
      argCount' := argCount + 1;
      if packed.value.1.Some? {
        keepAlive[keepCount] := packed.value.1;
        keepCount' := keepCount + 1;
      }
      panicked := false;
    }

    /** All of a call's values are packed: the cells C will read are in ffiArgs, and everything packArg
        returned to keep, for every one of the values, is in keepAlive. */
    ghost predicate Loaded(plan: Plan, args: seq<GoValue>, tail: seq<TailValue>, f: Foreign, cif: CallInterface,
                           cells: seq<Cell>, kept: seq<Kept>)
      requires Valid() && plan.startIn <= |args|
      reads keepAlive, ffiArgs
    {
      && Holds(cells, kept)
      && Marshalled(plan, args, tail, f) == Some((cif, cells))
      && PackAll(PassedValues(plan, args, tail), f.callback) == Some((cells, kept))
    }

    /** The foreign call. While it runs, everything packArg returned to keep is in a keepAlive slot; it
        reads the cells through ffiArgs[..n] only and stores into retBuf only when asked to. */
    method CallEngine(f: Foreign, cif: CallInterface, cfn: word, n: nat, viaRetBuf: bool,
                      ghost plan: Plan, ghost args: seq<GoValue>, ghost tail: seq<TailValue>,
                      ghost cells: seq<Cell>, ghost kept: seq<Kept>)
      returns (outcome: CallOutcome, written: Option<int>)
      requires Valid() && plan.startIn <= |args|
      requires Loaded(plan, args, tail, f, cif, cells, kept) && n == |cells|
      requires viaRetBuf ==> cif.ret.size <= 32 && Honest(f)
      modifies retBuf
      ensures outcome == f.call(cif, cfn, cells) && written == f.errno(cif, cfn, cells)
      ensures viaRetBuf && outcome.Returned? ==> |outcome.bytes| <= 32 && retBuf[..|outcome.bytes|] == outcome.bytes
    {
      outcome, written := f.call(cif, cfn, ffiArgs[..n]), f.errno(cif, cfn, ffiArgs[..n]);
      if viaRetBuf && outcome.Returned? {
        for i := 0 to |outcome.bytes|
          invariant |outcome.bytes| <= 32
          invariant retBuf[..i] == outcome.bytes[..i]
        {
          retBuf[i] := outcome.bytes[i];
        }
      }
    }

    /** The deferred function: forgets the kept values of this call. */
    method ClearKeepAlive(keepCount: nat, ghost cells: seq<Cell>, ghost kept: seq<Kept>)
      requires Valid() && Holds(cells, kept) && keepCount == |kept|
      modifies keepAlive
      ensures Clean()
    {
      for i := 0 to keepCount
        invariant forall j :: 0 <= j < i || keepCount <= j < SLOTS ==> keepAlive[j].None?
      {
        keepAlive[i] := None;
      }
    }

    method PackFixed(plan: Plan, args: seq<GoValue>, callback: nat -> word)
      returns (panicked: bool, argCount: nat, keepCount: nat, ghost cells: seq<Cell>, ghost kept: seq<Kept>)
      requires Valid() && Clean() && plan.startIn <= plan.fixedIn == |args|
      modifies keepAlive, ffiArgs
      ensures Holds(cells, kept) && argCount == |cells| && keepCount == |kept|
      ensures panicked <==> PackAll(args[plan.startIn..], callback).None? || |args| - plan.startIn > SLOTS
      ensures !panicked ==> PackAll(args[plan.startIn..], callback) == Some((cells, kept))
    {
      cells, kept, argCount, keepCount := [], [], 0, 0;
      var vs := args[plan.startIn..];
      for i := plan.startIn to plan.fixedIn
        invariant Holds(cells, kept) && argCount == |cells| && keepCount == |kept|
        invariant PackAll(vs[..i - plan.startIn], callback) == Some((cells, kept))
      {
        var n := i - plan.startIn;
        assert Front(vs[..n + 1]) == vs[..n] && Last(vs[..n + 1]) == vs[n] == args[i];
        panicked, argCount, keepCount := Push(args[i], callback, cells, kept, argCount, keepCount);
        if panicked {
          PackAllFails(vs, n + 1, callback);
          return;
        }
        var (cell, k) := PackArg(args[i], callback).value;
        cells, kept := cells + [cell], kept + if k.Some? then [k.value] else [];
      }
      assert vs[..|vs|] == vs;
      panicked := false;
    }

    /** Packs the variadic values behind the fixed ones and collects their descriptors. */
    method PackTail(before: seq<GoValue>, tail: seq<TailValue>, callback: nat -> word,
                    argCount: nat, keepCount: nat, ghost cells: seq<Cell>, ghost kept: seq<Kept>)
      returns (panicked: bool, types: seq<Descriptor>, argCount': nat, keepCount': nat,
               ghost cells': seq<Cell>, ghost kept': seq<Kept>)
      requires Valid() && Holds(cells, kept) && argCount == |cells| && keepCount == |kept|
      requires PackAll(before, callback) == Some((cells, kept))
      modifies keepAlive, ffiArgs
      ensures Holds(cells', kept') && argCount' == |cells'| && keepCount' == |kept'|
      ensures panicked <==>
                || NonNil(tail).None?
                || ArgDescriptors(TailTypes(NonNil(tail).value)).None?
                || PackAll(before + NonNil(tail).value, callback).None?
                || |before + NonNil(tail).value| > SLOTS
      ensures !panicked ==>
                && PackAll(before + NonNil(tail).value, callback) == Some((cells', kept'))
                && ArgDescriptors(TailTypes(NonNil(tail).value)) == Some(types)
    {
      types, argCount', keepCount', cells', kept' := [], argCount, keepCount, cells, kept;
      assert before + [] == before;
      ghost var values: seq<GoValue> := [];
      for i := 0 to |tail|
        invariant Holds(cells', kept') && argCount' == |cells'| && keepCount' == |kept'|
        invariant NonNil(tail[..i]) == Some(values)
        invariant ArgDescriptors(TailTypes(values)) == Some(types)
        invariant PackAll(before + values, callback) == Some((cells', kept'))
      {
        assert Front(tail[..i + 1]) == tail[..i] && Last(tail[..i + 1]) == tail[i];
        if tail[i].None? {
          NonNilFails(tail, i + 1);
          return true, types, argCount', keepCount', cells', kept';
        }
        var elem := tail[i].value;
        ghost var values' := values + [elem];
        TailStep(tail, i, values, elem, before);
        var d := GoArgTypeToFfiType(TypeOf(elem));
        if d.None? {
          TailFails(tail, i + 1, before, callback);
          return true, types, argCount', keepCount', cells', kept';
        }
        types := types + [d.value];
        panicked, argCount', keepCount' := Push(elem, callback, cells', kept', argCount', keepCount');
        if panicked {
          TailFails(tail, i + 1, before, callback);
          return;
        }
        var (cell, k) := PackArg(elem, callback).value;
        cells', kept' := cells' + [cell], kept' + if k.Some? then [k.value] else [];
        values := values';
      }
      assert tail[..|tail|] == tail;
      panicked := false;
    }

    /** Packs all arguments and settles the interface; `panicked` covers a refused interface. */
    method Pack(plan: Plan, args: seq<GoValue>, tail: seq<TailValue>, f: Foreign)
      returns (panicked: bool, cif: CallInterface, argCount: nat, keepCount: nat,
               ghost cells: seq<Cell>, ghost kept: seq<Kept>)
      requires Valid() && Clean() && plan.startIn <= plan.fixedIn == |args|
      modifies keepAlive, ffiArgs
      ensures Holds(cells, kept) && argCount == |cells| && keepCount == |kept|
      ensures if panicked then Marshalled(plan, args, tail, f).None? else Loaded(plan, args, tail, f, cif, cells, kept)
    {
      assert args[plan.startIn..] + [] == args[plan.startIn..];
      panicked, argCount, keepCount, cells, kept := PackFixed(plan, args, f.callback);
      cif := FixedInterface(plan);
      if !panicked && plan.ty.isVariadic {
        var types;
        panicked, types, argCount, keepCount, cells, kept :=
          PackTail(args[plan.startIn..], tail, f.callback, argCount, keepCount, cells, kept);
        cif := CallInterface(plan.cdecl, plan.retType, plan.fixedArgTypes + types,
                             if plan.cVariadic then Some(|plan.fixedArgTypes|) else None);
        panicked := panicked || !f.prepares(cif);
      }
      FixedFails(plan, args, tail, f);
    }

    /** What another call may leave in a context; what it kept it has cleared. */
    method Scribble()
      modifies ffiArgs, retBuf
    {
      for i := 0 to ffiArgs.Length {
        ffiArgs[i] := *;
      }
      for i := 0 to retBuf.Length {
        retBuf[i] := *;
      }
    }
  }

  /** The pool of contexts: whatever is in it holds nothing of an earlier call. */
  class SlowPool {
    var idle: set<SlowCallContext>

    ghost predicate Valid()
      reads this, KeptArrays()
    {
      && (forall c :: c in idle ==> c.Valid() && c.Clean())
      && (forall c, d :: c in idle && d in idle && c != d ==> c.Apart(d))
    }

    /** A context that has been taken out, so that no other call touches it. */
    ghost predicate Taken(mine: SlowCallContext)
      reads this
    {
      mine.Valid() && forall c :: c in idle ==> mine.Apart(c)
    }

    ghost function KeptArrays(): set<array<Option<Kept>>>
      reads this
    {
      set c | c in idle :: c.keepAlive
    }

    ghost function CellArrays(): set<array<Cell>>
      reads this
    {
      set c | c in idle :: c.ffiArgs
    }

    ghost function Buffers(): set<array<byte>>
      reads this
    {
      set c | c in idle :: c.retBuf
    }

    constructor ()
      ensures Valid() && idle == {}
    {
      idle := {};
    }

    method Get() returns (c: SlowCallContext)
      requires Valid()
      modifies this
      ensures Valid() && Taken(c) && c.Clean() && idle <= old(idle)
      ensures c in old(idle) || (fresh(c.keepAlive) && fresh(c.ffiArgs) && fresh(c.retBuf))
    {
      if idle == {} {
        c := new SlowCallContext();
      } else {
        c :| c in idle;
        idle := idle - {c};
      }
    }

    /** From here on any other call may take the context and write to it. */
    method Put(c: SlowCallContext)
      requires Valid() && Taken(c) && c.Clean()
      modifies this, c.ffiArgs, c.retBuf
      ensures Valid() && idle == old(idle) + {c}
    {
      idle := idle + {c};
      c.Scribble();
    }

    method ScribbleAll(mine: SlowCallContext)
      requires Valid() && Taken(mine)
      modifies CellArrays(), Buffers()
      ensures Valid() && unchanged(mine.ffiArgs, mine.retBuf)
    {
      var rest := idle;
      while rest != {}
        invariant rest <= idle && Valid()
        invariant unchanged(mine.ffiArgs, mine.retBuf)
        decreases |rest|
      {
        var c :| c in rest;
        assert mine.Apart(c);
        c.Scribble();
        rest := rest - {c};
      }
    }

    method Shuffle(mine: SlowCallContext)
      requires Valid() && Taken(mine)
      modifies this
      ensures Valid() && Taken(mine)
      ensures forall c :: c in idle ==>
                c in old(idle) || (fresh(c.keepAlive) && fresh(c.ffiArgs) && fresh(c.retBuf))
    {
      var left: set<SlowCallContext> :| left <= idle;
      idle := left;
      if * {
        var c := new SlowCallContext();
        c.Scribble();
        idle := idle + {c};
      }
    }

    /** What other calls do between two statements of one that has taken `mine`: they take contexts,
        write anything into their cells and buffers, and put back some of them or others. */
    method Others(mine: SlowCallContext)
      requires Valid() && Taken(mine)
      modifies this, CellArrays(), Buffers()
      ensures Valid() && Taken(mine) && unchanged(mine.ffiArgs, mine.retBuf)
      ensures forall c :: c in idle ==>
                c in old(idle) || (fresh(c.keepAlive) && fresh(c.ffiArgs) && fresh(c.retBuf))
    {
      ScribbleAll(mine);
      Shuffle(mine);
    }

    /** Where the result goes: into the context, or into memory of its own. */
    static function ViaRetBuf(plan: Plan): bool {
      HasResult(plan.ty) &&
      var out := plan.ty.outs[0];
      out.String? || out.Bool? || IsPointerKind(out) || out.Func? || out.Slice?
    }

    /** The call and everything up to the result. In an error-returning signature it runs in the window
        the goroutine has opened, and errno is read first, before the result is unpacked. */
    method CallPrepared(ctx: SlowCallContext, plan: Plan, ghost args: seq<GoValue>, ghost tail: seq<TailValue>,
                        f: Foreign, cif: CallInterface, cfn: word, n: nat, ghost cells: seq<Cell>, ghost kept: seq<Kept>,
                        p: Process, g: Threads.Gid, found: bool, world: nat -> seq<Threads.Step>,
                        ghost before: Threads.Goroutine, ghost c: Threads.Call)
      returns (r: CallResult, ghost c': Threads.Call)
      requires Valid() && Taken(ctx) && plan.startIn <= |args| && Honest(f)
      requires ctx.Loaded(plan, args, tail, f, cif, cells, kept) && n == |cells|
      requires ResultDescriptor(plan.ty) == Some(plan.retType) == Some(cif.ret)
      requires plan.hasError ==> p.Opened(g, found, before, c)
      modifies this, CellArrays(), Buffers(), ctx.retBuf, p
      ensures Valid() && Taken(ctx) && unchanged(ctx.ffiArgs)
      ensures forall c :: c in idle ==>
                c in old(idle) || (fresh(c.keepAlive) && fresh(c.ffiArgs) && fresh(c.retBuf))
      ensures r == Outcome(plan, f, cif, cells, cfn, found)
      ensures plan.hasError ==> p.Window(g, before, c') && (r.Done? ==> c'.stage in {Threads.Locked, Threads.Reported})
      ensures !plan.hasError ==> p.s == old(p.s)
    {
      c' := c;
      RetTypeSize(plan);
      var outcome, written := ctx.CallEngine(f, cif, cfn, n, ViaRetBuf(plan), plan, args, tail, cells, kept);
      Others(ctx);
      var error := None;
      if plan.hasError {
        error, c' := p.CallWatched(g, found, written, outcome.CallFailed?, before, c, world);
      }
      if outcome.CallFailed? {
        return Panicked, c';
      }
      var stored := if ViaRetBuf(plan) then ctx.retBuf[..plan.retType.size] else outcome.bytes;
      r := Done(if HasResult(plan.ty) then Unpack(plan.ty.outs[0], stored) else NoResult, error);
    }

    /** Packs the arguments and makes the call. Whatever was packed by then is still held afterwards. */
    method PackAndCall(ctx: SlowCallContext, plan: Plan, args: seq<GoValue>, tail: seq<TailValue>, f: Foreign, cfn: word,
                       p: Process, g: Threads.Gid, found: bool, world: nat -> seq<Threads.Step>,
                       ghost before: Threads.Goroutine, ghost c: Threads.Call)
      returns (r: CallResult, ghost c': Threads.Call, keepCount: nat, ghost cells: seq<Cell>, ghost kept: seq<Kept>)
      requires Valid() && Taken(ctx) && ctx.Clean() && Honest(f)
      requires plan.startIn <= plan.fixedIn == |args| && ResultDescriptor(plan.ty) == Some(plan.retType)
      requires plan.hasError ==> p.Opened(g, found, before, c)
      modifies this, CellArrays(), Buffers(), ctx.keepAlive, ctx.ffiArgs, ctx.retBuf, p
      ensures Valid() && Taken(ctx) && ctx.Holds(cells, kept) && keepCount == |kept|
      ensures r == ReflectResult(plan, args, tail, f, cfn, found)
      ensures plan.hasError ==> p.Window(g, before, c') && (r.Done? ==> c'.stage in {Threads.Locked, Threads.Reported})
      ensures !plan.hasError ==> p.s == old(p.s)
    {
      var panicked, cif, argCount;
      panicked, cif, argCount, keepCount, cells, kept := ctx.Pack(plan, args, tail, f);
      Others(ctx);
      if panicked {
        return Panicked, c, keepCount, cells, kept;
      }
      r, c' := CallPrepared(ctx, plan, args, tail, f, cif, cfn, argCount, cells, kept, p, g, found, world, before, c);
    }

    /** The closure from the lock to the deferred clearing, on the context it has taken. */
    method OnContext(ctx: SlowCallContext, plan: Plan, args: seq<GoValue>, tail: seq<TailValue>, f: Foreign, cfn: word,
                     p: Process, g: Threads.Gid, found: bool, world: nat -> seq<Threads.Step>)
      returns (r: CallResult)
      requires Valid() && Taken(ctx) && ctx.Clean() && Honest(f)
      requires plan.startIn <= plan.fixedIn == |args| && ResultDescriptor(plan.ty) == Some(plan.retType)
      requires plan.hasError ==> Threads.Reachable(p.s) && g in p.s.gs && Threads.RunsGo(p.s.gs[g])
      modifies this, CellArrays(), Buffers(), ctx.keepAlive, ctx.ffiArgs, ctx.retBuf, p
      ensures Valid() && Taken(ctx) && ctx.Clean()
      ensures r == ReflectResult(plan, args, tail, f, cfn, found)
      ensures if plan.hasError then Threads.Reachable(p.s) && g in p.s.gs && p.s.gs[g] == old(p.s.gs[g])
              else p.s == old(p.s)
    {
      ghost var before, c := Threads.Goroutine(None, 0, 0, []), Threads.Plain;
      if plan.hasError {
        before := p.s.gs[g];
        c := p.OpenWindow(g, found, world);
      }
      var keepCount;
      ghost var cells, kept;
      r, c, keepCount, cells, kept := PackAndCall(ctx, plan, args, tail, f, cfn, p, g, found, world, before, c);
      if plan.hasError {
        p.UnlockOSThread(g, before, c, r.Panicked?);
      }
      ctx.ClearKeepAlive(keepCount, cells, kept);
    }

    /** The body of the closure that reflect.MakeFunc installs, run by goroutine `g` of process `p`.
        Whatever an earlier call left in the context the pool hands out, and whatever other goroutines do
        meanwhile, with the pool and with their threads, result and error depend on this call's arguments
        only. The context goes back last, holding nothing, and the goroutine is locked no more than
        before, whether the call returns or panics. */
    method Call(plan: Plan, args: seq<GoValue>, tail: seq<TailValue>, f: Foreign, cfn: word,
                p: Process, g: Threads.Gid, found: bool, world: nat -> seq<Threads.Step>)
      returns (r: CallResult)
      requires Valid() && Honest(f)
      requires plan.startIn <= plan.fixedIn == |args| && ResultDescriptor(plan.ty) == Some(plan.retType)
      requires plan.hasError ==> Threads.Reachable(p.s) && g in p.s.gs && Threads.RunsGo(p.s.gs[g])
      modifies this, KeptArrays(), CellArrays(), Buffers(), p
      ensures Valid()
      ensures r == ReflectResult(plan, args, tail, f, cfn, found)
      ensures if plan.hasError then Threads.Reachable(p.s) && g in p.s.gs && p.s.gs[g] == old(p.s.gs[g])
              else p.s == old(p.s)
    {
      var ctx := Get();
      Others(ctx);
      r := OnContext(ctx, plan, args, tail, f, cfn, p, g, found, world);
      Put(ctx);
    }
  }

  lemma RetTypeSize(plan: Plan)
    requires ResultDescriptor(plan.ty) == Some(plan.retType)
    ensures HasResult(plan.ty) ==>
              var out := plan.ty.outs[0];
              && plan.retType.size == (if out.String? || out.Slice? then 8 else GoSize(out))
              && (out.String? || out.Bool? || IsPointerKind(out) || out.Func? || out.Slice? ==> plan.retType.size <= 8)
  {
    if HasResult(plan.ty) {
      ResultSize(plan.ty.outs[0]);
    }
  }

  // ---------- Descriptors and cells agree ----------

  /** The arguments are values of the parameter types. */
  predicate ArgsMatch(args: seq<GoValue>, ts: seq<GoType>) {
    |args| == |ts| && forall i :: 0 <= i < |ts| ==> WellTyped(args[i]) && TypeOf(args[i]) == ts[i]
  }

  lemma {:induction false} PackAllAt(vs: seq<GoValue>, callback: nat -> word, k: nat)
    requires PackAll(vs, callback).Some? && k < |vs|
    ensures PackArg(vs[k], callback).Some?
    ensures PackAll(vs, callback).value.0[k] == PackArg(vs[k], callback).value.0
  {
    if k < |vs| - 1 {
      PackAllAt(Front(vs), callback, k);
    }
  }

  lemma {:induction false} ArgDescriptorsAt(ts: seq<GoType>, k: nat)
    requires ArgDescriptors(ts).Some? && k < |ts|
    ensures GoArgTypeToFfiType(ts[k]) == Some(ArgDescriptors(ts).value[k])
  {
    if k < |ts| - 1 {
      ArgDescriptorsAt(Front(ts), k);
    }
  }

  /** A kept value keeps the memory behind a cell alive: the cell itself where packArg made one for a
      number, a bool or a function; the argument where the cell is or refers to the argument's own memory;
      and for a string whichever of its text and a longer copy the cell refers to. */
  predicate Backs(kept: Kept, cell: Cell, v: GoValue) {
    match v
    case NumberValue(_, _) | BoolValue(_) | FuncValue(_) => kept == KeptCell(cell)
    case AddressValue(_, _) | ArrayValue(_, _) | StructValue(_, _) => kept == KeptValue(v)
    case StringValue(text) =>
      kept == (match cell
               case Bytes(_) => KeptCell(cell)
               case AddressOf(buffer) => if buffer == text then KeptValue(v) else KeptBuffer(buffer))
    case OtherValue => false
  }

  /** packArg returns something to keep for every argument, so what a call holds backs each of its
      cells. */
  lemma {:induction false} EveryCellIsBacked(vs: seq<GoValue>, callback: nat -> word)
    requires PackAll(vs, callback).Some?
    ensures var (cells, kept) := PackAll(vs, callback).value;
            |cells| == |kept| == |vs| && forall k :: 0 <= k < |vs| ==> Backs(kept[k], cells[k], vs[k])
  {
    if vs != [] {
      EveryCellIsBacked(Front(vs), callback);
      assert PackArg(Last(vs), callback).value.1.Some?;
    }
  }

  /** What registration guarantees of a plan. */
  predicate PlanOk(plan: Plan) {
    && plan.startIn <= plan.fixedIn <= |plan.ty.ins|
    && plan.fixedIn == |plan.ty.ins| - (if plan.ty.isVariadic then 1 else 0)
    && ArgDescriptors(plan.ty.ins[plan.startIn..plan.fixedIn]) == Some(plan.fixedArgTypes)
    && ResultDescriptor(plan.ty) == Some(plan.retType)
    && plan.hasError == HasError(plan.ty)
  }

  lemma PlanForIsOk(ty: FuncType, target: Target)
    requires IsFuncType(ty) && PlanFor(ty, target).Some?
    ensures PlanOk(PlanFor(ty, target).value) && PlanFor(ty, target).value.ty == ty
  {
  }

  /** On every call of every signature with every tail: one descriptor per cell, each describing the
      value and the bytes packed at its position; the fixed descriptors lead unchanged; and a C-variadic
      interface counts exactly the non-marker fixed parameters as fixed. */
  lemma DescriptorsMatchCells(plan: Plan, args: seq<GoValue>, tail: seq<TailValue>, f: Foreign)
    requires PlanOk(plan)
    requires ArgsMatch(args, plan.ty.ins[..plan.fixedIn])
    requires forall i :: 0 <= i < |tail| && tail[i].Some? ==> WellTyped(tail[i].value)
    requires Marshalled(plan, args, tail, f).Some?
    ensures var (cif, cells) := Marshalled(plan, args, tail, f).value;
            && |cells| <= SLOTS
            && Matched(cif, PassedValues(plan, args, tail), cells)
            && plan.fixedArgTypes <= cif.argTypes
            && cif.variadicAfter == (if plan.ty.isVariadic && plan.cVariadic then Some(plan.fixedIn - plan.startIn) else None)
            && |cells| == plan.fixedIn - plan.startIn + (if plan.ty.isVariadic then |tail| else 0)
  {
    FixedArgsMatch(plan, args);
    if plan.ty.isVariadic {
      VariadicMatch(plan, args, tail, f);
    } else {
      FixedMatch(plan, args, tail, f);
    }
  }

  /** Interface and cells describe each other. */
  predicate Matched(cif: CallInterface, values: seq<GoValue>, cells: seq<Cell>) {
    && |cif.argTypes| == |cells| == |values|
    && forall k :: 0 <= k < |cells| ==> Describes(cif.argTypes[k], values[k], cells[k])
  }

  lemma FixedMatch(plan: Plan, args: seq<GoValue>, tail: seq<TailValue>, f: Foreign)
    requires PlanOk(plan) && !plan.ty.isVariadic && plan.startIn <= |args|
    requires ArgsMatch(args[plan.startIn..], plan.ty.ins[plan.startIn..plan.fixedIn])
    requires Marshalled(plan, args, tail, f).Some?
    ensures var (cif, cells) := Marshalled(plan, args, tail, f).value;
            Matched(cif, PassedValues(plan, args, tail), cells)
  {
    var fixed := args[plan.startIn..];
    assert PassedValues(plan, args, tail) == fixed;
    CellsDescribed(fixed, plan.ty.ins[plan.startIn..plan.fixedIn], f.callback);
  }

  lemma VariadicMatch(plan: Plan, args: seq<GoValue>, tail: seq<TailValue>, f: Foreign)
    requires PlanOk(plan) && plan.ty.isVariadic && plan.startIn <= |args|
    requires ArgsMatch(args[plan.startIn..], plan.ty.ins[plan.startIn..plan.fixedIn])
    requires forall i :: 0 <= i < |tail| && tail[i].Some? ==> WellTyped(tail[i].value)
    requires Marshalled(plan, args, tail, f).Some?
    ensures NonNil(tail).Some? && |NonNil(tail).value| == |tail|
    ensures var (cif, cells) := Marshalled(plan, args, tail, f).value;
            Matched(cif, PassedValues(plan, args, tail), cells)
  {
    TailDescribed(args[plan.startIn..], plan.ty.ins[plan.startIn..plan.fixedIn], tail, f.callback);
  }

  lemma FixedArgsMatch(plan: Plan, args: seq<GoValue>)
    requires PlanOk(plan) && ArgsMatch(args, plan.ty.ins[..plan.fixedIn])
    ensures ArgsMatch(args[plan.startIn..], plan.ty.ins[plan.startIn..plan.fixedIn])
  {
    ArgsMatchSuffix(args, plan.ty.ins[..plan.fixedIn], plan.startIn);
    assert plan.ty.ins[..plan.fixedIn][plan.startIn..] == plan.ty.ins[plan.startIn..plan.fixedIn];
  }

  lemma ArgsMatchSuffix(args: seq<GoValue>, ts: seq<GoType>, n: nat)
    requires ArgsMatch(args, ts) && n <= |ts|
    ensures ArgsMatch(args[n..], ts[n..])
  {
  }

  lemma TailDescribed(fixed: seq<GoValue>, fixedTypes: seq<GoType>, tail: seq<TailValue>, callback: nat -> word)
    requires ArgsMatch(fixed, fixedTypes) && ArgDescriptors(fixedTypes).Some?
    requires forall i :: 0 <= i < |tail| && tail[i].Some? ==> WellTyped(tail[i].value)
    requires NonNil(tail).Some? && ArgDescriptors(TailTypes(NonNil(tail).value)).Some?
    requires PackAll(fixed + NonNil(tail).value, callback).Some?
    ensures |NonNil(tail).value| == |tail|
    ensures var ds := ArgDescriptors(fixedTypes).value + ArgDescriptors(TailTypes(NonNil(tail).value)).value;
            var cells := PackAll(fixed + NonNil(tail).value, callback).value.0;
            && |ds| == |cells|
            && forall k :: 0 <= k < |cells| ==> Describes(ds[k], (fixed + NonNil(tail).value)[k], cells[k])
  {
    var values := NonNil(tail).value;
    NonNilLength(tail);
    TailMatches(tail);
    ArgsMatchConcat(fixed, fixedTypes, values, TailTypes(values));
    ArgDescriptorsConcat(fixedTypes, TailTypes(values));
    CellsDescribed(fixed + values, fixedTypes + TailTypes(values), callback);
  }

  lemma TailMatches(tail: seq<TailValue>)
    requires forall i :: 0 <= i < |tail| && tail[i].Some? ==> WellTyped(tail[i].value)
    requires NonNil(tail).Some?
    ensures ArgsMatch(NonNil(tail).value, TailTypes(NonNil(tail).value))
  {
    NonNilLength(tail);
    forall j | 0 <= j < |tail| ensures WellTyped(NonNil(tail).value[j]) {
      NonNilAt(tail, j);
    }
  }

  lemma ArgsMatchConcat(a: seq<GoValue>, ta: seq<GoType>, b: seq<GoValue>, tb: seq<GoType>)
    requires ArgsMatch(a, ta) && ArgsMatch(b, tb)
    ensures ArgsMatch(a + b, ta + tb)
  {
  }

  lemma CellsDescribed(vs: seq<GoValue>, ts: seq<GoType>, callback: nat -> word)
    requires ArgsMatch(vs, ts) && ArgDescriptors(ts).Some? && PackAll(vs, callback).Some?
    ensures forall k :: 0 <= k < |vs| ==> Describes(ArgDescriptors(ts).value[k], vs[k], PackAll(vs, callback).value.0[k])
  {
    forall k | 0 <= k < |vs| ensures Describes(ArgDescriptors(ts).value[k], vs[k], PackAll(vs, callback).value.0[k]) {
      PackAllAt(vs, callback, k);
      ArgDescriptorsAt(ts, k);
      DescriptorMatchesCell(vs[k], callback);
    }
  }

  lemma {:induction false} ArgDescriptorsConcat(a: seq<GoType>, b: seq<GoType>)
    requires ArgDescriptors(a).Some? && ArgDescriptors(b).Some?
    ensures ArgDescriptors(a + b) == Some(ArgDescriptors(a).value + ArgDescriptors(b).value)
    decreases |b|
  {
    var da, db := ArgDescriptors(a).value, ArgDescriptors(b).value;
    if b == [] {
      assert a + b == a && da + db == da;
    } else {
      ArgDescriptorsConcat(a, Front(b));
      assert Front(a + b) == a + Front(b);
      assert da + db == (da + Front(db)) + [Last(db)];
    }
  }

  lemma {:induction false} NonNilAt(tail: seq<TailValue>, j: nat)
    requires NonNil(tail).Some? && j < |tail|
    ensures |NonNil(tail).value| == |tail| && tail[j] == Some(NonNil(tail).value[j])
  {
    NonNilLength(tail);
    NonNilLength(Front(tail));
    if j < |tail| - 1 {
      NonNilAt(Front(tail), j);
    }
  }
}
