/** What registration and a call over the reflect path come to, said without the functions that compute
    it: when they panic, what the engine is given, what C finds, and what the caller gets back. */
module CallMeaning {
  import opened Words
  import opened GoTypes
  import opened Descriptors
  import opened Marshal
  import opened ReflectCall

  // ---------- Registration ----------

  /** A type that is, or holds by value, one that cannot be handed to C. */
  ghost predicate HoldsUnsupported(t: GoType)
    decreases t
  {
    match t
    case ErrorType | Unsupported => true
    case Array(_, item) => HoldsUnsupported(item)
    case Struct(_, _, fields) => exists i :: 0 <= i < |fields| && HoldsUnsupported(fields[i])
    case _ => false
  }

  lemma {:induction false} TranslationPanicsIff(t: GoType)
    ensures GoTypeToFfiType(t).None? <==> HoldsUnsupported(t)
    decreases t, 0
  {
    match t
    case Array(_, item) => TranslationPanicsIff(item);
    case Struct(_, _, fields) => FieldsPanicIff(fields);
    case _ =>
  }

  lemma {:induction false} FieldsPanicIff(fields: seq<GoType>)
    ensures FieldDescriptors(fields).None? <==> exists i :: 0 <= i < |fields| && HoldsUnsupported(fields[i])
    decreases fields, 0
  {
    if fields != [] {
      var front, n := fields[..|fields| - 1], |fields| - 1;
      FieldsPanicIff(front);
      TranslationPanicsIff(fields[n]);
      assert forall i :: 0 <= i < n ==> front[i] == fields[i];
    }
  }

  /** An array parameter is passed by address, whatever it holds. */
  ghost predicate BadParameter(t: GoType) {
    !t.Array? && HoldsUnsupported(t)
  }

  lemma {:induction false} ParametersPanicIff(ts: seq<GoType>)
    ensures ArgDescriptors(ts).None? <==> exists i :: 0 <= i < |ts| && BadParameter(ts[i])
  {
    if ts != [] {
      var front, n := Front(ts), |ts| - 1;
      ParametersPanicIff(front);
      TranslationPanicsIff(ts[n]);
      assert forall i :: 0 <= i < n ==> front[i] == ts[i];
    }
  }

  /** The fixed parameters that C sees are ins[Lead(ty)..Fixed(ty)]. */
  function Lead(ty: FuncType): nat {
    if ty.ins != [] && (ty.ins[0] == CDECL || ty.ins[0] == VARIADIC) then 1 else 0
  }

  function Fixed(ty: FuncType): int {
    if ty.isVariadic then |ty.ins| - 1 else |ty.ins|
  }

  /** Registration panics exactly on more than two results, on a second one that is not an error, and on a
      parameter or result that cannot be handed to C. */
  lemma RegistrationPanicsIff(ty: FuncType, target: Target)
    requires IsFuncType(ty)
    ensures PlanFor(ty, target).None? <==>
              || |ty.outs| > 2
              || (|ty.outs| == 2 && ty.outs[1] != ErrorType)
              || (exists i :: Lead(ty) <= i < Fixed(ty) && BadParameter(ty.ins[i]))
              || (ty.outs != [] && ty.outs != [ErrorType] && HoldsUnsupported(ty.outs[0]))
  {
    ParametersPanicIff(ty.ins[Lead(ty)..Fixed(ty)]);
    BadInSlice(ty.ins, Lead(ty), Fixed(ty));
    if ty.outs != [] {
      TranslationPanicsIff(ty.outs[0]);
    }
  }

  lemma BadInSlice(ts: seq<GoType>, lo: nat, hi: nat)
    requires lo <= hi <= |ts|
    ensures (exists i :: 0 <= i < hi - lo && BadParameter(ts[lo..hi][i])) <==>
            (exists i :: lo <= i < hi && BadParameter(ts[i]))
  {
    if i :| 0 <= i < hi - lo && BadParameter(ts[lo..hi][i]) {
      assert BadParameter(ts[lo + i]);
    }
    if i :| lo <= i < hi && BadParameter(ts[i]) {
      assert BadParameter(ts[lo..hi][i - lo]);
    }
  }

  /** What registration fixes: parameters from the first non-marker one, an error value exactly if the
      last result is one, the C calling convention exactly if CDecl asks for it, and the descriptor of the
      first result that is not the error value, or void. */
  lemma PlanMeaning(ty: FuncType, target: Target)
    requires IsFuncType(ty) && PlanFor(ty, target).Some?
    ensures var plan := PlanFor(ty, target).value;
            var cif := FixedInterface(plan);
            && plan.ty == ty && plan.startIn == Lead(ty) && plan.fixedIn == Fixed(ty)
            && (plan.hasError <==> ty.outs != [] && ty.outs[|ty.outs| - 1] == ErrorType)
            && (cif.cdecl <==> ty.ins != [] && ty.ins[0] == CDECL)
            && cif.variadicAfter == None
            && |cif.argTypes| == Fixed(ty) - Lead(ty)
            && (forall k :: 0 <= k < |cif.argTypes| ==>
                  GoArgTypeToFfiType(ty.ins[Lead(ty) + k]) == Some(cif.argTypes[k]))
            && (if ty.outs == [] || ty.outs == [ErrorType] then cif.ret.kind == VoidKind && cif.ret.size == 0
                else GoTypeToFfiType(ty.outs[0]) == Some(cif.ret))
  {
    var plan, ts := PlanFor(ty, target).value, ty.ins[Lead(ty)..Fixed(ty)];
    assert ArgDescriptors(ts) == Some(plan.fixedArgTypes);
    forall k | 0 <= k < |ts| ensures GoArgTypeToFfiType(ty.ins[Lead(ty) + k]) == Some(plan.fixedArgTypes[k]) {
      ArgDescriptorsAt(ts, k);
    }
  }

  // ---------- What the engine is given ----------

  /** Which calls are prepared as C-variadic, and after how many fixed arguments: those of a Go-variadic
      function that has a Variadic marker, or whose C function is not an Objective-C dispatcher and, on
      darwin, has a known name. */
  lemma VariadicMeaning(ty: FuncType, target: Target, args: seq<GoValue>, tail: seq<TailValue>, f: Foreign)
    requires IsFuncType(ty) && PlanFor(ty, target).Some? && PlanFor(ty, target).value.startIn <= |args|
    requires Marshalled(PlanFor(ty, target).value, args, tail, f).Some?
    ensures var after := Marshalled(PlanFor(ty, target).value, args, tail, f).value.0.variadicAfter;
            && (!ty.isVariadic ==> after == None)
            && (ty.isVariadic && ty.ins[0] == VARIADIC ==> after == Some(|ty.ins| - 2))
            && (ty.isVariadic && ty.ins[0] != VARIADIC && "objc_msgSend" <= target.symbol ==> after == None)
            && (ty.isVariadic && ty.ins[0] != VARIADIC && target.symbol == "" ==>
                  after == if target.darwin then None else Some(Fixed(ty) - Lead(ty)))
            && (ty.isVariadic && ty.ins[0] != VARIADIC && target.symbol != "" && !("objc_msgSend" <= target.symbol) ==>
                  after == Some(Fixed(ty) - Lead(ty)))
  {
    PlanMeaning(ty, target);
  }

  /** printf is C-variadic everywhere, and the Objective-C dispatchers nowhere. */
  lemma NamedTargets(ty: FuncType, target: Target, args: seq<GoValue>, tail: seq<TailValue>, f: Foreign)
    requires IsFuncType(ty) && ty.isVariadic && ty.ins[0] != VARIADIC
    requires PlanFor(ty, target).Some? && PlanFor(ty, target).value.startIn <= |args|
    requires Marshalled(PlanFor(ty, target).value, args, tail, f).Some?
    ensures var after := Marshalled(PlanFor(ty, target).value, args, tail, f).value.0.variadicAfter;
            && (target.symbol == "printf" ==> after == Some(Fixed(ty) - Lead(ty)))
            && (target.symbol == "objc_msgSend_stret" ==> after == None)
  {
    VariadicMeaning(ty, target, args, tail, f);
    assert "printf"[0] == 'p' && "objc_msgSend"[0] == 'o';
    assert "objc_msgSend_stret"[..12] == "objc_msgSend";
  }

  /** How many values a call passes. */
  function Passed(plan: Plan, args: seq<GoValue>, tail: seq<TailValue>): int {
    |args| - plan.startIn + if plan.ty.isVariadic then |tail| else 0
  }

  /** Some argument or variadic value cannot be packed. */
  ghost predicate HasBadValue(plan: Plan, args: seq<GoValue>, tail: seq<TailValue>) {
    || (exists i :: plan.startIn <= i < |args| && args[i].OtherValue?)
    || (plan.ty.isVariadic &&
        exists i :: 0 <= i < |tail| && (tail[i].None? || tail[i].value.OtherValue? || BadParameter(TypeOf(tail[i].value))))
  }

  /** The interface a variadic call asks the engine for, but for its variadic count. */
  predicate IsAskedFor(cif: CallInterface, plan: Plan, tail: seq<TailValue>) {
    && cif.cdecl == plan.cdecl && cif.ret == plan.retType
    && plan.fixedArgTypes <= cif.argTypes && |cif.argTypes| == |plan.fixedArgTypes| + |tail|
    && forall i :: 0 <= i < |tail| && tail[i].Some? ==>
         GoArgTypeToFfiType(TypeOf(tail[i].value)) == Some(cif.argTypes[|plan.fixedArgTypes| + i])
  }

  /** Packing panics exactly on a value that cannot be packed, on more than 32 values, and where the
      interface a variadic call asks for is refused. */
  lemma PackingPanicsIff(plan: Plan, args: seq<GoValue>, tail: seq<TailValue>, f: Foreign)
    requires PlanOk(plan) && plan.startIn <= |args|
    ensures HasBadValue(plan, args, tail) || Passed(plan, args, tail) > 32 ==> Marshalled(plan, args, tail, f).None?
    ensures Marshalled(plan, args, tail, f).None? ==>
              || HasBadValue(plan, args, tail) || Passed(plan, args, tail) > 32
              || (plan.ty.isVariadic && exists cif :: IsAskedFor(cif, plan, tail) && !f.prepares(cif))
    ensures Marshalled(plan, args, tail, f).Some? && plan.ty.isVariadic ==>
              var cif := Marshalled(plan, args, tail, f).value.0; IsAskedFor(cif, plan, tail) && f.prepares(cif)
  {
    var fixed := args[plan.startIn..];
    if plan.ty.isVariadic {
      NilIff(tail);
      if NonNil(tail).Some? {
        TailPanicsIff(plan, args, tail, f);
        if ArgDescriptors(TailTypes(NonNil(tail).value)).Some? {
          AskedInterface(plan, tail);
        }
      }
    } else {
      PackAllPanicsIff(fixed, f.callback);
      assert forall i :: plan.startIn <= i < |args| ==> fixed[i - plan.startIn] == args[i];
    }
  }

  lemma AskedInterface(plan: Plan, tail: seq<TailValue>)
    requires NonNil(tail).Some? && ArgDescriptors(TailTypes(NonNil(tail).value)).Some?
    ensures var types := plan.fixedArgTypes + ArgDescriptors(TailTypes(NonNil(tail).value)).value;
            var variadicAfter := if plan.cVariadic then Some(|plan.fixedArgTypes|) else None;
            var cif := CallInterface(plan.cdecl, plan.retType, types, variadicAfter);
            IsAskedFor(cif, plan, tail)
  {
    var values := NonNil(tail).value;
    NonNilLength(tail);
    var ds := ArgDescriptors(TailTypes(values)).value;
    forall i | 0 <= i < |tail| ensures tail[i] == Some(values[i]) && GoArgTypeToFfiType(TypeOf(values[i])) == Some(ds[i]) {
      NonNilAt(tail, i);
      ArgDescriptorsAt(TailTypes(values), i);
    }
  }

  lemma TailPanicsIff(plan: Plan, args: seq<GoValue>, tail: seq<TailValue>, f: Foreign)
    requires plan.startIn <= |args| && plan.ty.isVariadic && NonNil(tail).Some?
    ensures |NonNil(tail).value| == |tail|
    ensures HasBadValue(plan, args, tail) <==>
              || PackAll(args[plan.startIn..] + NonNil(tail).value, f.callback).None?
              || ArgDescriptors(TailTypes(NonNil(tail).value)).None?
  {
    var fixed, values := args[plan.startIn..], NonNil(tail).value;
    NonNilLength(tail);
    NilIff(tail);
    forall i | 0 <= i < |tail| ensures tail[i] == Some(values[i]) {
      NonNilAt(tail, i);
    }
    PackAllPanicsIff(fixed + values, f.callback);
    BadAmong(plan, args, tail, fixed + values);
    TailTypesPanicIff(tail, values);
  }

  lemma TailTypesPanicIff(tail: seq<TailValue>, values: seq<GoValue>)
    requires |values| == |tail| && forall i :: 0 <= i < |tail| ==> tail[i] == Some(values[i])
    ensures ArgDescriptors(TailTypes(values)).None? <==>
              exists i :: 0 <= i < |tail| && BadParameter(TypeOf(tail[i].value))
  {
    ParametersPanicIff(TailTypes(values));
    BadTypes(tail, values);
  }

  lemma BadTypes(tail: seq<TailValue>, values: seq<GoValue>)
    requires |values| == |tail| && forall i :: 0 <= i < |tail| ==> tail[i] == Some(values[i])
    ensures (exists i :: 0 <= i < |tail| && BadParameter(TailTypes(values)[i])) <==>
            (exists i :: 0 <= i < |tail| && BadParameter(TypeOf(tail[i].value)))
  {
    if i :| 0 <= i < |tail| && BadParameter(TailTypes(values)[i]) {
      assert BadParameter(TypeOf(tail[i].value));
    }
    if i :| 0 <= i < |tail| && BadParameter(TypeOf(tail[i].value)) {
      assert BadParameter(TailTypes(values)[i]);
    }
  }

  lemma BadAmong(plan: Plan, args: seq<GoValue>, tail: seq<TailValue>, all: seq<GoValue>)
    requires plan.startIn <= |args| && |all| == |args| - plan.startIn + |tail|
    requires forall i :: plan.startIn <= i < |args| ==> all[i - plan.startIn] == args[i]
    requires forall i :: 0 <= i < |tail| ==> tail[i] == Some(all[|args| - plan.startIn + i])
    ensures (exists k :: 0 <= k < |all| && all[k].OtherValue?) <==>
              || (exists i :: plan.startIn <= i < |args| && args[i].OtherValue?)
              || (exists i :: 0 <= i < |tail| && tail[i].value.OtherValue?)
  {
    var n := |args| - plan.startIn;
    if k :| 0 <= k < |all| && all[k].OtherValue? {
      if k < n {
        assert args[k + plan.startIn].OtherValue?;
      } else {
        assert tail[k - n].value.OtherValue?;
      }
    }
    if i :| plan.startIn <= i < |args| && args[i].OtherValue? {
      assert all[i - plan.startIn].OtherValue?;
    }
    if i :| 0 <= i < |tail| && tail[i].value.OtherValue? {
      assert all[n + i].OtherValue?;
    }
  }

  lemma {:induction false} NilIff(tail: seq<TailValue>)
    ensures NonNil(tail).None? <==> exists i :: 0 <= i < |tail| && tail[i].None?
  {
    if tail != [] {
      NilIff(Front(tail));
      assert forall i :: 0 <= i < |tail| - 1 ==> Front(tail)[i] == tail[i];
    }
  }

  lemma {:induction false} PackAllPanicsIff(vs: seq<GoValue>, callback: nat -> word)
    ensures PackAll(vs, callback).None? <==> exists k :: 0 <= k < |vs| && vs[k].OtherValue?
  {
    if vs != [] {
      PackAllPanicsIff(Front(vs), callback);
      assert forall i :: 0 <= i < |vs| - 1 ==> Front(vs)[i] == vs[i];
    }
  }

  /** In every call, behind the pointer at every position C finds what the value there is meant to be for
      it. */
  lemma CFindsArguments(plan: Plan, args: seq<GoValue>, tail: seq<TailValue>, f: Foreign)
    requires plan.startIn <= |args| && Marshalled(plan, args, tail, f).Some?
    requires forall v :: v in PassedValues(plan, args, tail) ==> WellTyped(v)
    ensures var values, cells := PassedValues(plan, args, tail), Marshalled(plan, args, tail, f).value.1;
            |cells| == |values| && forall k :: 0 <= k < |values| ==> CFinds(values[k], cells[k], f.callback)
  {
    var values := PassedValues(plan, args, tail);
    assert args[plan.startIn..] + [] == args[plan.startIn..];
    forall k | 0 <= k < |values| ensures CFinds(values[k], Marshalled(plan, args, tail, f).value.1[k], f.callback) {
      PackAllAt(values, f.callback, k);
      assert values[k] in values;
      PackedArrives(values[k], f.callback);
    }
  }

  // ---------- What the caller gets ----------

  predicate AllZero(bytes: seq<byte>) {
    forall i :: 0 <= i < |bytes| ==> bytes[i] == 0
  }

  /** The result variable of a function with results `outs` whose C function stored `bytes`: a null address
      is the empty string or a nil function, another the C string or C function there; a slice has the
      address and neither length nor capacity; a bool is true for any byte but 0; anything else is the
      bytes themselves. */
  predicate IsResult(outs: seq<GoType>, bytes: seq<byte>, result: GoResult) {
    if outs == [] || outs == [ErrorType] then result == NoResult else IsValue(outs[0], bytes, result)
  }

  predicate IsValue(t: GoType, bytes: seq<byte>, result: GoResult) {
    match t
    case String =>
      if AllZero(bytes) then result == EmptyText else result.CText? && LittleEndian(result.addr, 8) == bytes
    case Func =>
      if AllZero(bytes) then result == NilFunc else result.FuncAt? && LittleEndian(result.addr, 8) == bytes
    case Slice =>
      result.Memory? && |result.bytes| == 24 == GoSize(t) && result.bytes[..8] == bytes && AllZero(result.bytes[8..])
    case Bool =>
      result.Memory? && |result.bytes| == 1 && |bytes| == 1 && result.bytes[0] == if bytes[0] == 0 then 0 else 1
    case _ => result == Memory(bytes)
  }

  lemma {:induction false} ZeroIff(bytes: seq<byte>)
    ensures FromLittleEndian(bytes) == 0 <==> AllZero(bytes)
  {
    if bytes != [] {
      ZeroIff(bytes[1..]);
      assert forall i :: 0 < i < |bytes| ==> bytes[i] == bytes[1..][i - 1];
      assert forall i :: 0 <= i < |bytes| - 1 ==> bytes[1..][i] == bytes[i + 1];
    }
  }

  lemma UnpackMeaning(t: GoType, bytes: seq<byte>)
    requires |bytes| == (if t.String? || t.Slice? then 8 else GoSize(t))
    ensures IsValue(t, bytes, Unpack(t, bytes))
  {
    if t.String? || t.Func? {
      ZeroIff(bytes);
      BytesRoundTrip(bytes);
    }
  }

  /** One call over the reflect path: it panics exactly if packing does, the engine reports an error or a
      panic passes through C; otherwise the caller gets the result C stored, and an error value exactly if
      the signature has one, errno's address was found and C left errno other than 0, and then that
      number. */
  lemma CallMeans(plan: Plan, args: seq<GoValue>, tail: seq<TailValue>, f: Foreign, cfn: word, found: bool)
    requires PlanOk(plan) && plan.startIn <= |args| && |plan.ty.outs| <= 2 && Honest(f)
    requires |plan.ty.outs| == 2 ==> plan.ty.outs[1] == ErrorType
    ensures var r, m := ReflectResult(plan, args, tail, f, cfn, found), Marshalled(plan, args, tail, f);
            && (r.Panicked? <==> m.None? || f.call(m.value.0, cfn, m.value.1).CallFailed?)
            && (r.Done? ==>
                  var (cif, cells) := m.value;
                  var left := f.errno(cif, cfn, cells);
                  && IsResult(plan.ty.outs, f.call(cif, cfn, cells).bytes, r.result)
                  && (r.error.Some? <==>
                        && plan.ty.outs != [] && plan.ty.outs[|plan.ty.outs| - 1] == ErrorType
                        && found && left.Some? && left.value != 0)
                  && (r.error.Some? ==> r.error == left))
  {
    var m := Marshalled(plan, args, tail, f);
    if m.Some? {
      OutcomeMeans(plan, f, m.value.0, m.value.1, cfn, found);
    }
  }

  lemma OutcomeMeans(plan: Plan, f: Foreign, cif: CallInterface, cells: seq<Cell>, cfn: word, found: bool)
    requires |plan.ty.outs| <= 2 && (|plan.ty.outs| == 2 ==> plan.ty.outs[1] == ErrorType) && Honest(f)
    requires ResultDescriptor(plan.ty) == Some(plan.retType) == Some(cif.ret) && plan.hasError == HasError(plan.ty)
    ensures var r, answer, left := Outcome(plan, f, cif, cells, cfn, found), f.call(cif, cfn, cells), f.errno(cif, cfn, cells);
            && (r.Panicked? <==> answer.CallFailed?)
            && (r.Done? ==>
                  && IsResult(plan.ty.outs, answer.bytes, r.result)
                  && (r.error.Some? <==>
                        && plan.ty.outs != [] && plan.ty.outs[|plan.ty.outs| - 1] == ErrorType
                        && found && left.Some? && left.value != 0)
                  && (r.error.Some? ==> r.error == left))
  {
    var outs, answer := plan.ty.outs, f.call(cif, cfn, cells);
    if answer.Returned? && outs != [] && outs != [ErrorType] {
      ResultSize(outs[0]);
      UnpackMeaning(outs[0], answer.bytes);
    }
  }
}
