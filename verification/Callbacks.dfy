/** Calling-convention markers never reach C, neither in calls nor in callbacks. */
module Callbacks {
  import opened Words
  import opened GoTypes
  import opened Descriptors
  import opened Marshal
  import opened Classifier
  import opened ReflectCall
  import opened Refinement

  function Unmarked(ty: FuncType): FuncType
    requires ty.ins != []
  {
    FuncType(ty.ins[1..], ty.outs, ty.isVariadic)
  }

  /** A marked signature registers exactly when the unmarked one does, and never on the fast path. Every
      call hands C the same descriptors and cells as without the marker, exactly if no second marker
      stands behind it: that one would be an ordinary struct argument here and a marker there. */
  lemma MarkerErasure(ty: FuncType, target: Target, marker: GoValue, args: seq<GoValue>, f: Foreign)
    requires ty.ins != [] && (ty.ins[0] == CDECL || ty.ins[0] == VARIADIC)
    requires !ty.isVariadic && |args| == |ty.ins| - 1
    ensures !FastEligible(ty)
    ensures PlanFor(ty, target).Some? <==> PlanFor(Unmarked(ty), target).Some?
    ensures PlanFor(ty, target).Some? ==>
              var marked, plain := PlanFor(ty, target).value, PlanFor(Unmarked(ty), target).value;
              && plain.startIn <= |args|
              && (marked.fixedArgTypes == plain.fixedArgTypes <==> StartIn(Unmarked(ty)) == 0)
              && var m, p := Marshalled(marked, [marker] + args, [], f), Marshalled(plain, args, [], f);
                 if StartIn(Unmarked(ty)) == 0 then SameForC(m, p) else m.Some? && p.Some? ==> m.value.1 != p.value.1
  {
    MarkedIsNotEligible(ty);
    UnmarkedPlan(ty, target);
    if PlanFor(ty, target).Some? {
      UnmarkedCall(ty, target, marker, args, f);
    }
  }

  /** Registration of a signature with and without its marker. */
  lemma UnmarkedPlan(ty: FuncType, target: Target)
    requires StartIn(ty) == 1 && !ty.isVariadic
    ensures PlanFor(ty, target).Some? <==> PlanFor(Unmarked(ty), target).Some?
    ensures PlanFor(ty, target).Some? ==>
              var next := StartIn(Unmarked(ty));
              var marked, plain := PlanFor(ty, target).value, PlanFor(Unmarked(ty), target).value;
              && marked.startIn == 1 && plain.startIn == next
              && marked.retType == plain.retType
              && |marked.fixedArgTypes| == |ty.ins| - 1 && |plain.fixedArgTypes| == |ty.ins| - 1 - next
              && (next == 0 ==> marked.fixedArgTypes == plain.fixedArgTypes)
  {
    var rest := Unmarked(ty).ins;
    assert ty.ins[1..|ty.ins|] == rest && rest[0..|rest|] == rest;
    if StartIn(Unmarked(ty)) == 1 {
      DescriptorsBehind(rest);
      assert rest[1..|rest|] == rest[1..];
    }
  }

  /** The calls made under both. */
  lemma UnmarkedCall(ty: FuncType, target: Target, marker: GoValue, args: seq<GoValue>, f: Foreign)
    requires StartIn(ty) == 1 && !ty.isVariadic && |args| == |ty.ins| - 1
    requires PlanFor(ty, target).Some? && PlanFor(Unmarked(ty), target).Some?
    ensures var marked, plain := PlanFor(ty, target).value, PlanFor(Unmarked(ty), target).value;
            && plain.startIn <= |args| && marked.startIn == 1
            && var m, p := Marshalled(marked, [marker] + args, [], f), Marshalled(plain, args, [], f);
               if StartIn(Unmarked(ty)) == 0 then SameForC(m, p) else m.Some? && p.Some? ==> m.value.1 != p.value.1
  {
    UnmarkedPlan(ty, target);
    assert ([marker] + args)[1..] == args && args[0..] == args;
  }

  /** Both calls panic while packing, or C sees the same in both; only the calling convention, which the
      marker asks for, may differ. */
  predicate SameForC(m: Option<(CallInterface, seq<Cell>)>, p: Option<(CallInterface, seq<Cell>)>) {
    && (m.Some? <==> p.Some?)
    && (m.Some? ==>
          m.value.1 == p.value.1 &&
          m.value.0 == p.value.0.(cdecl := m.value.0.cdecl))
  }

  /** A marker as an ordinary parameter has a descriptor of its own. */
  lemma {:induction false} DescriptorsBehind(ts: seq<GoType>)
    requires ts != [] && IsMarker(ts[0])
    ensures ArgDescriptors(ts).Some? <==> ArgDescriptors(ts[1..]).Some?
    decreases |ts|
  {
    if |ts| == 1 {
      assert Front(ts) == [] && FieldDescriptors([]) == Some([]);
    } else {
      assert Front(ts)[1..] == Front(ts[1..]);
      DescriptorsBehind(Front(ts));
    }
  }

  /** func(CDecl, Variadic, int) shows C an empty struct before the number; func(Variadic, int) does not. */
  lemma SecondMarkerReachesC(target: Target)
    ensures var ty := FuncType([CDECL, VARIADIC, Int], [], false);
            && PlanFor(ty, target).Some? && PlanFor(Unmarked(ty), target).Some?
            && |PlanFor(ty, target).value.fixedArgTypes| == 2
            && |PlanFor(Unmarked(ty), target).value.fixedArgTypes| == 1
  {
    var ty := FuncType([CDECL, VARIADIC, Int], [], false);
    assert ty.ins[1..3] == [VARIADIC, Int] && Unmarked(ty).ins == [VARIADIC, Int] && Unmarked(ty).ins[1..2] == [Int];
    assert Front([VARIADIC, Int]) == [VARIADIC] && Front([VARIADIC]) == [] && Front([Int]) == [];
    DescriptorsBehind([VARIADIC, Int]);
    assert [VARIADIC, Int][1..] == [Int] && ArgDescriptors([Int]).Some?;
  }

  // ---------- NewCallback ----------

  /** The type handed to the engine: the markers' place is gone. */
  function CallbackType(ty: FuncType): FuncType {
    if StartIn(ty) == 1 then Unmarked(ty) else ty
  }

  /** The zero value of a marker struct. */
  function ZeroMarker(t: GoType): GoValue {
    StructValue(t, [])
  }

  /** The arguments the Go function receives when the callback is entered with `args`. */
  function Delivered(ty: FuncType, args: seq<GoValue>): seq<GoValue> {
    if StartIn(ty) == 1 then [ZeroMarker(ty.ins[0])] + args else args
  }

  /** Builds the type of the callback that C will call: the function's own without its leading marker, with
      its other parameters in order and its results. */
  method NewCallbackType(ty: FuncType) returns (newTy: FuncType)
    ensures newTy == CallbackType(ty)
    ensures ty.ins == (if ty.ins != [] && (ty.ins[0] == CDECL || ty.ins[0] == VARIADIC) then [ty.ins[0]] else []) + newTy.ins
    ensures newTy.outs == ty.outs && newTy.isVariadic == ty.isVariadic
  {
    var hasMarker := |ty.ins| > 0 && (ty.ins[0] == CDECL || ty.ins[0] == VARIADIC);
    if !hasMarker {
      return ty;
    }
    var inTypes: seq<GoType> := [];
    for i := 1 to |ty.ins|
      invariant inTypes == ty.ins[1..i]
    {
      inTypes := inTypes + [ty.ins[i]];
    }
    var outTypes: seq<GoType> := [];
    for i := 0 to |ty.outs|
      invariant outTypes == ty.outs[..i]
    {
      outTypes := outTypes + [ty.outs[i]];
    }
    newTy := FuncType(inTypes, outTypes, ty.isVariadic);
  }

  /** The wrapper around a marked callback: a zero marker, then the caller's arguments. */
  method EnterCallback(ty: FuncType, args: seq<GoValue>) returns (realArgs: seq<GoValue>)
    requires StartIn(ty) == 1
    ensures realArgs == Delivered(ty, args)
  {
    var buffer := new GoValue[|args| + 1](_ => OtherValue);
    buffer[0] := ZeroMarker(ty.ins[0]);
    for i := 0 to |args|
      invariant buffer[0] == ZeroMarker(ty.ins[0])
      invariant buffer[1..i + 1] == args[..i]
    {
      buffer[i + 1] := args[i];
    }
    realArgs := buffer[..];
  }

  /** How the engine reads a callback's argument of a given type from what C passed. */
  type Reader = (GoType, Cell) -> GoValue

  /** The engine reads back the value that packArg packed. */
  predicate Restores(read: Reader, v: GoValue, callback: nat -> word) {
    PackArg(v, callback).Some? && read(TypeOf(v), PackArg(v, callback).value.0) == v
  }

  predicate RestoresAll(read: Reader, vs: seq<GoValue>, callback: nat -> word) {
    forall i :: 0 <= i < |vs| ==> Restores(read, vs[i], callback)
  }

  function ReadAll(read: Reader, ts: seq<GoType>, cells: seq<Cell>): seq<GoValue>
    requires |ts| == |cells|
  {
    seq(|ts|, i requires 0 <= i < |ts| => read(ts[i], cells[i]))
  }

  /** The kinds passed by value. */
  predicate ByValueKind(t: GoType) {
    IsNumber(t) || t.Bool? || IsPointerKind(t) || t.Struct?
  }

  /** The obvious reader: little-endian numbers and addresses, and memory images. */
  function ReadBytes(t: GoType, cell: Cell): GoValue {
    match cell
    case AddressOf(_) => OtherValue
    case Bytes(bytes) =>
      if IsNumber(t) then NumberValue(t, FromLittleEndian(bytes))
      else if t.Bool? then BoolValue(bytes != [] && bytes[0] != 0)
      else if t.Struct? then StructValue(t, bytes)
      else if |bytes| == 8 then AddressValue(t, Address(bytes))
      else OtherValue
  }

  /** It restores every value of a kind passed by value. */
  lemma ReadBytesRestores(v: GoValue, callback: nat -> word)
    requires WellTyped(v) && ByValueKind(TypeOf(v))
    ensures Restores(ReadBytes, v, callback)
  {
    match v
    case NumberValue(t, bits) => WordRoundTrip(bits, GoSize(t));
    case AddressValue(t, addr) =>
      Pow256Of8();
      WordRoundTrip(addr, 8);
    case _ =>
  }

  /** What C receives of a call under a callback's own type is what the engine was told to expect, cell by
      cell, whatever the kinds; read back it is the caller's arguments exactly if the engine restores each
      of them. */
  lemma CallbackRoundTrip(ty: FuncType, target: Target, args: seq<GoValue>, f: Foreign, read: Reader)
    requires !ty.isVariadic && ArgsMatch(args, ty.ins)
    requires PlanFor(ty, target).Some? && Marshalled(PlanFor(ty, target).value, args, [], f).Some?
    ensures var (cif, cells) := Marshalled(PlanFor(ty, target).value, args, [], f).value;
            && |cells| == |CallbackType(ty).ins|
            && ArgDescriptors(CallbackType(ty).ins) == Some(cif.argTypes)
            && (ReadAll(read, CallbackType(ty).ins, cells) == args[StartIn(ty)..] <==>
                  RestoresAll(read, args[StartIn(ty)..], f.callback))
  {
    var n := StartIn(ty);
    assert ty.ins[n..|ty.ins|] == ty.ins[n..] && CallbackType(ty).ins == ty.ins[n..];
    ArgsMatchSuffix(args, ty.ins, n);
    ReadAllPacked(args[n..], ty.ins[n..], f.callback, read);
  }

  lemma BehindMarker(ty: FuncType, values: seq<GoValue>)
    ensures |Delivered(ty, values)| == StartIn(ty) + |values|
    ensures StartIn(ty) == 1 ==> Delivered(ty, values)[0] == StructValue(ty.ins[0], []) && GoSize(ty.ins[0]) == 0
    ensures Delivered(ty, values)[StartIn(ty)..] == values
  {
  }

  lemma ReadAllPacked(vs: seq<GoValue>, ts: seq<GoType>, callback: nat -> word, read: Reader)
    requires ArgsMatch(vs, ts) && PackAll(vs, callback).Some?
    ensures ReadAll(read, ts, PackAll(vs, callback).value.0) == vs <==> RestoresAll(read, vs, callback)
  {
    var values := ReadAll(read, ts, PackAll(vs, callback).value.0);
    forall i | 0 <= i < |vs| ensures values[i] == vs[i] <==> Restores(read, vs[i], callback) {
      PackAllAt(vs, callback, i);
    }
  }

  /** A zero marker if the type has one, and behind it the caller's arguments in order, exactly if the
      engine restores each of them. */
  predicate DeliversArguments(ty: FuncType, args: seq<GoValue>, received: seq<GoValue>, read: Reader, f: Foreign)
    requires |args| == |ty.ins|
  {
    && |received| == |ty.ins|
    && (StartIn(ty) == 1 ==> received[0] == StructValue(ty.ins[0], []) && GoSize(ty.ins[0]) == 0)
    && (received[StartIn(ty)..] == args[StartIn(ty)..] <==> RestoresAll(read, args[StartIn(ty)..], f.callback))
  }

  lemma BoundCall(ty: FuncType, target: Target, args: seq<GoValue>, f: Foreign, read: Reader)
    requires !ty.isVariadic && ArgsMatch(args, ty.ins)
    requires PlanFor(ty, target).Some? && Marshalled(PlanFor(ty, target).value, args, [], f).Some?
    ensures var cells := Marshalled(PlanFor(ty, target).value, args, [], f).value.1;
            && |cells| == |CallbackType(ty).ins|
            && DeliversArguments(ty, args, Delivered(ty, ReadAll(read, CallbackType(ty).ins, cells)), read, f)
  {
    CallbackRoundTrip(ty, target, args, f, read);
    BehindMarker(ty, ReadAll(read, CallbackType(ty).ins, Marshalled(PlanFor(ty, target).value, args, [], f).value.1));
  }

  /** A callback as the engine knows it: the type C calls it by, and the Go function behind it with its
      own type. */
  datatype Entry = Entry(cType: FuncType, goType: FuncType, fn: nat)

  /** The engine's table of callback addresses, and how it reads arguments. */
  class CallbackTable {
    const read: Reader
    var entries: map<word, Entry>

    constructor (read: Reader)
      ensures this.read == read && entries == map[]
    {
      this.read, entries := read, map[];
    }

    /** NewCallback for Go function `fn`; `at` is the address the engine hands out. */
    method NewCallback(ty: FuncType, fn: nat, at: word) returns (addr: word)
      requires at !in entries
      modifies this
      ensures addr == at && entries == old(entries)[at := Entry(CallbackType(ty), ty, fn)]
    {
      var cType := NewCallbackType(ty);
      entries := entries[at := Entry(cType, ty, fn)];
      addr := at;
    }

    /** C calls `addr` with these cells: the function reached and the arguments it receives. */
    method Enter(addr: word, cells: seq<Cell>) returns (fn: nat, received: seq<GoValue>)
      requires addr in entries && |cells| == |entries[addr].cType.ins|
      ensures fn == entries[addr].fn
      ensures received == Delivered(entries[addr].goType, ReadAll(read, entries[addr].cType.ins, cells))
    {
      var e := entries[addr];
      fn, received := e.fn, ReadAll(read, e.cType.ins, cells);
      if StartIn(e.goType) == 1 {
        received := EnterCallback(e.goType, received);
      }
    }

    /** Takes the address of a Go function, binds it under the function's own type and calls it: the
        call reaches that function, behind a zero marker if the type has one, and with the caller's
        arguments in order exactly if the engine restores each of them. */
    method BindAndCall(ty: FuncType, fn: nat, at: word, target: Target, args: seq<GoValue>, f: Foreign)
      returns (reached: nat, received: seq<GoValue>)
      requires at !in entries && !ty.isVariadic && ArgsMatch(args, ty.ins)
      requires PlanFor(ty, target).Some? && Marshalled(PlanFor(ty, target).value, args, [], f).Some?
      modifies this
      ensures reached == fn && DeliversArguments(ty, args, received, read, f)
      ensures at in entries && entries[at].cType.outs == ty.outs
      ensures forall a :: a in old(entries) ==> a in entries && entries[a] == old(entries)[a]
    {
      var addr := NewCallback(ty, fn, at);
      BoundCall(ty, target, args, f, read);
      var marshalled := Marshalled(PlanFor(ty, target).value, args, [], f);
      reached, received := Enter(addr, marshalled.value.1);
    }
  }
}
