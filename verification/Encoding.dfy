/** Objective-C type encodings of Go types and functions, over type graphs that may be cyclic. */
module Encoding {
  import opened Words
  import opened GoTypes
  import opened Marshal

  datatype Encoded = Ok(s: string) | Err

  // ---------- Termination ----------

  /** Following pointers from `t` leaves the pointers within `n` steps. */
  ghost predicate ChainEnds(u: Universe, t: GoType, n: nat)
    decreases n
  {
    t.Pointer? ==> n > 0 && ChainEnds(u, u(t.elem), n - 1)
  }

  /** No infinite chain made of pointers alone starts at `t`; `type T *T` is the exception. */
  ghost predicate PointersEnd(u: Universe, t: GoType) {
    exists n: nat :: ChainEnds(u, t, n)
  }

  ghost predicate IsLeastChain(u: Universe, t: GoType, m: nat) {
    ChainEnds(u, t, m) && forall k: nat :: ChainEnds(u, t, k) ==> m <= k
  }

  lemma {:induction false} LeastChain(u: Universe, t: GoType, n: nat)
    requires ChainEnds(u, t, n)
    ensures exists m: nat :: IsLeastChain(u, t, m)
    decreases n
  {
    if k: nat :| k < n && ChainEnds(u, t, k) {
      LeastChain(u, t, k);
    } else {
      assert IsLeastChain(u, t, n);
    }
  }

  /** The number of pointers between `t` and the first type that is none. */
  ghost function ChainLength(u: Universe, t: GoType): (n: nat)
    requires PointersEnd(u, t)
    ensures IsLeastChain(u, t, n)
  {
    var n: nat :| ChainEnds(u, t, n);
    LeastChain(u, t, n);
    var m: nat :| IsLeastChain(u, t, m);
    m
  }

  ghost function Depth(u: Universe, t: GoType): nat {
    if PointersEnd(u, t) then ChainLength(u, t) else 0
  }

  lemma PointerStep(u: Universe, t: GoType)
    requires t.Pointer? && PointersEnd(u, t)
    ensures PointersEnd(u, u(t.elem))
    ensures Depth(u, u(t.elem)) < Depth(u, t)
  {
    var n := ChainLength(u, t);
    assert ChainEnds(u, u(t.elem), n - 1);
  }

  /** The first type on a chain of pointers that is no pointer itself. */
  ghost function ChainTarget(u: Universe, t: GoType): GoType
    requires PointersEnd(u, t)
    decreases Depth(u, t)
  {
    if t.Pointer? then
      PointerStep(u, t);
      ChainTarget(u, u(t.elem))
    else t
  }

  predicate Unencodable(t: GoType) {
    t.Func? || t.Slice? || t.Array? || t.ErrorType? || t.Unsupported?
  }

  /** The types on which `encodeType` comes to an end: every pointer it reaches leads out of the
      pointers. What lies behind a pointer to a struct is never visited, and neither is a field after
      one without an encoding. */
  ghost predicate Stops(u: Universe, t: GoType, insidePtr: bool)
    decreases t, 1
  {
    match t
    case Pointer(_) => PointersEnd(u, t)
    case Struct(_, _, fields) => insidePtr || StopsAll(u, fields)
    case _ => true
  }

  ghost predicate StopsAll(u: Universe, ts: seq<GoType>)
    decreases ts, 1
  {
    ts == [] || (StopsAll(u, Front(ts)) && (FailsAll(u, Front(ts)) || Stops(u, Last(ts), false)))
  }

  /** The types on which it ends with an error. */
  ghost predicate Fails(u: Universe, t: GoType, insidePtr: bool)
    decreases t, 0
  {
    match t
    case Pointer(_) => PointersEnd(u, t) && Unencodable(ChainTarget(u, t))
    case Struct(_, _, fields) => !insidePtr && FailsAll(u, fields)
    case _ => Unencodable(t)
  }

  ghost predicate FailsAll(u: Universe, ts: seq<GoType>)
    decreases ts, 0
  {
    ts != [] && (FailsAll(u, Front(ts)) || (StopsAll(u, Front(ts)) && Fails(u, Last(ts), false)))
  }

  lemma FailsBehind(u: Universe, t: GoType, insidePtr: bool)
    requires t.Pointer? && PointersEnd(u, t)
    ensures Fails(u, t, insidePtr) <==> Fails(u, u(t.elem), true)
  {
    PointerStep(u, t);
    var next := u(t.elem);
    assert ChainTarget(u, t) == ChainTarget(u, next);
    if !next.Pointer? {
      assert ChainTarget(u, next) == next;
    }
  }

  // ---------- encodeType ----------

  /** Recurses by (outside or inside a pointer, pointer-chain length, value depth). */
  function EncodeType(u: Universe, t: GoType, insidePtr: bool): (r: Encoded)
    requires Stops(u, t, insidePtr)
    ensures r.Err? <==> Fails(u, t, insidePtr)
    decreases if insidePtr then 0 else 1, if insidePtr then Depth(u, t) else 0, t, 0
  {
    match t
    case Uintptr(role) =>
      (match role
       case ClassName => Ok("#")
       case IdName | BlockName => Ok("@")
       case SelName => Ok(":")
       case Plain => Ok("^"))
    case Bool => Ok("B")
    case Int => Ok("l")
    case Int8 => Ok("c")
    case Int16 => Ok("s")
    case Int32 => Ok("i")
    case Int64 => Ok("L")
    case Uint => Ok("L")
    case Uint8 => Ok("C")
    case Uint16 => Ok("S")
    case Uint32 => Ok("I")
    case Uint64 => Ok("L")
    case Float32 => Ok("f")
    case Float64 => Ok("d")
    case Pointer(elem) =>
      PointerStep(u, t);
      FailsBehind(u, t, insidePtr);
      (match EncodeType(u, u(elem), true)
       case Ok(enc) => Ok("^" + enc)
       case Err => Err)
    case Struct(_, name, fields) =>
      if insidePtr then Ok("{" + name + "}")
      else
        (match EncodeFields(u, fields)
         case Ok(enc) => Ok("{" + name + "=" + enc + "}")
         case Err => Err)
    case UnsafePointer => Ok("^v")
    case String => Ok("*")
    case _ => Err
  }

  /** The encodings of by-value types, in order; the first error stops it. */
  function EncodeFields(u: Universe, ts: seq<GoType>): (r: Encoded)
    requires StopsAll(u, ts)
    ensures r.Err? <==> FailsAll(u, ts)
    decreases 1, 0, ts, 0
  {
    if ts == [] then Ok("")
    else
      var front := EncodeFields(u, Front(ts));
      if front.Err? then Err
      else
        var last := EncodeType(u, Last(ts), false);
        if last.Err? then Err else Ok(front.s + last.s)
  }

  lemma {:induction false} StopsPrefix(u: Universe, ts: seq<GoType>, n: nat)
    requires StopsAll(u, ts) && n <= |ts|
    ensures StopsAll(u, ts[..n])
    ensures FailsAll(u, ts[..n]) ==> FailsAll(u, ts)
    ensures n < |ts| ==> FailsAll(u, ts[..n]) || Stops(u, ts[n], false)
  {
    if n < |ts| {
      StopsPrefix(u, Front(ts), n);
      assert Front(ts)[..n] == ts[..n];
    } else {
      assert ts[..n] == ts;
    }
  }

  // ---------- The code as it runs, one level of recursion per unit of fuel ----------

  /** `None`: still running after `fuel` levels. */
  function EncodeFuel(u: Universe, t: GoType, insidePtr: bool, fuel: nat): Option<Encoded>
    decreases fuel, t, 0
  {
    if fuel == 0 then None
    else
      match t
      case Pointer(elem) =>
        (match EncodeFuel(u, u(elem), true, fuel - 1)
         case None => None
         case Some(r) => Some(if r.Ok? then Ok("^" + r.s) else Err))
      case Struct(_, name, fields) =>
        if insidePtr then Some(Ok("{" + name + "}"))
        else
          (match FieldsFuel(u, fields, fuel - 1)
           case None => None
           case Some(r) => Some(if r.Ok? then Ok("{" + name + "=" + r.s + "}") else Err))
      case _ => Some(EncodeType(u, t, insidePtr))
  }

  function FieldsFuel(u: Universe, ts: seq<GoType>, fuel: nat): Option<Encoded>
    decreases fuel, ts, 0
  {
    if ts == [] then Some(Ok(""))
    else
      var front := FieldsFuel(u, Front(ts), fuel);
      if front.None? then None
      else if front.value.Err? then Some(Err)
      else
        var last := EncodeFuel(u, Last(ts), false, fuel);
        if last.None? then None
        else Some(if last.value.Ok? then Ok(front.value.s + last.value.s) else Err)
  }

  /** Where the recursion is defined the running code stops, with its result. */
  lemma {:induction false} FuelSuffices(u: Universe, t: GoType, insidePtr: bool) returns (fuel: nat)
    requires Stops(u, t, insidePtr)
    ensures forall more :: more >= fuel ==> EncodeFuel(u, t, insidePtr, more) == Some(EncodeType(u, t, insidePtr))
    decreases if insidePtr then 0 else 1, if insidePtr then Depth(u, t) else 0, t, 0
  {
    match t
    case Pointer(elem) =>
      PointerStep(u, t);
      var inner := FuelSuffices(u, u(elem), true);
      fuel := inner + 1;
    case Struct(_, _, fields) =>
      fuel := 1;
      if !insidePtr {
        var inner := FieldsFuelSuffices(u, fields);
        fuel := inner + 1;
      }
    case _ => fuel := 1;
  }

  lemma {:induction false} FieldsFuelSuffices(u: Universe, ts: seq<GoType>) returns (fuel: nat)
    requires StopsAll(u, ts)
    ensures forall more :: more >= fuel ==> FieldsFuel(u, ts, more) == Some(EncodeFields(u, ts))
    decreases 1, 0, ts, 0
  {
    fuel := 0;
    if ts != [] {
      fuel := FieldsFuelSuffices(u, Front(ts));
      if !FailsAll(u, Front(ts)) {
        var last := FuelSuffices(u, Last(ts), false);
        fuel := fuel + last;
      }
    }
  }

  /** Code that has stopped was on a type where the recursion is defined, and has its result. */
  lemma {:induction false} StoppedResult(u: Universe, t: GoType, insidePtr: bool, fuel: nat)
    requires EncodeFuel(u, t, insidePtr, fuel).Some?
    ensures Stops(u, t, insidePtr)
    ensures EncodeFuel(u, t, insidePtr, fuel) == Some(EncodeType(u, t, insidePtr))
    decreases fuel, t, 0
  {
    match t
    case Pointer(elem) =>
      StoppedResult(u, u(elem), true, fuel - 1);
      OneMorePointer(u, t);
    case Struct(_, _, fields) =>
      if !insidePtr {
        StoppedFields(u, fields, fuel - 1);
      }
    case _ =>
  }

  lemma {:induction false} StoppedFields(u: Universe, ts: seq<GoType>, fuel: nat)
    requires FieldsFuel(u, ts, fuel).Some?
    ensures StopsAll(u, ts) && FieldsFuel(u, ts, fuel) == Some(EncodeFields(u, ts))
    decreases fuel, ts, 0
  {
    if ts != [] {
      StoppedFields(u, Front(ts), fuel);
      if !FailsAll(u, Front(ts)) {
        StoppedResult(u, Last(ts), false, fuel);
      }
    }
  }

  lemma OneMorePointer(u: Universe, t: GoType)
    requires t.Pointer? && Stops(u, u(t.elem), true)
    ensures PointersEnd(u, t)
  {
    if u(t.elem).Pointer? {
      var n: nat :| ChainEnds(u, u(t.elem), n);
      assert ChainEnds(u, t, n + 1);
    } else {
      assert ChainEnds(u, u(t.elem), 0) && ChainEnds(u, t, 1);
    }
  }

  /** encodeType comes to an end exactly on the types of `Stops`. */
  lemma TypeStopsIff(u: Universe, t: GoType, insidePtr: bool)
    ensures (exists fuel :: EncodeFuel(u, t, insidePtr, fuel).Some?) <==> Stops(u, t, insidePtr)
  {
    if Stops(u, t, insidePtr) {
      var fuel := FuelSuffices(u, t, insidePtr);
      assert EncodeFuel(u, t, insidePtr, fuel).Some?;
    }
    if fuel: nat :| EncodeFuel(u, t, insidePtr, fuel).Some? {
      StoppedResult(u, t, insidePtr, fuel);
    }
  }

  /** A universe of `type T *T`. */
  function Looping(self: TypeId): Universe {
    _ => Pointer(self)
  }

  lemma PurePointerCycleDiverges(self: TypeId, fuel: nat)
    ensures EncodeFuel(Looping(self), Pointer(self), false, fuel).None?
  {
    if EncodeFuel(Looping(self), Pointer(self), false, fuel).Some? {
      StoppedResult(Looping(self), Pointer(self), false, fuel);
      NeverEnds(self);
    }
  }

  lemma NeverEnds(self: TypeId)
    ensures !PointersEnd(Looping(self), Pointer(self))
  {
    forall n: nat ensures !ChainEnds(Looping(self), Pointer(self), n) {
      NeverLeaves(self, n);
    }
  }

  lemma {:induction false} NeverLeaves(self: TypeId, n: nat)
    ensures !ChainEnds(Looping(self), Pointer(self), n)
  {
    if n > 0 {
      NeverLeaves(self, n - 1);
    }
  }

  /** A struct with such a field is never encoded either, unless a field before it is an error. */
  lemma FieldOrderMatters(self: TypeId)
    ensures !Stops(Looping(self), Struct("p", "S", [Int, Pointer(self)]), false)
    ensures Stops(Looping(self), Struct("p", "S", [Slice, Pointer(self)]), false)
  {
    NeverEnds(self);
    var u := Looping(self);
    FirstField(u, Int);
    FirstField(u, Slice);
    assert Front([Int, Pointer(self)]) == [Int] && Front([Slice, Pointer(self)]) == [Slice];
    assert !Stops(u, Last([Int, Pointer(self)]), false);
    assert !StopsAll(u, [Int, Pointer(self)]) && StopsAll(u, [Slice, Pointer(self)]);
  }

  lemma FirstField(u: Universe, t: GoType)
    requires Stops(u, t, false)
    ensures StopsAll(u, [t]) && (FailsAll(u, [t]) <==> Fails(u, t, false))
  {
    assert Front([t]) == [] && Last([t]) == t;
    assert StopsAll(u, []) && !FailsAll(u, []);
  }

  // ---------- encodeFunc and the block signature ----------

  ghost predicate ResultStops(u: Universe, ty: FuncType) {
    ty.outs != [] ==> Stops(u, ty.outs[0], false)
  }

  ghost predicate ResultFails(u: Universe, ty: FuncType) {
    ty.outs != [] && Fails(u, ty.outs[0], false)
  }

  /** What both signatures have in common, the result and then the parameters behind the receiver,
      comes to an end. */
  ghost predicate SignatureStops(u: Universe, ty: FuncType)
    requires ty.ins != []
  {
    ResultStops(u, ty) && (ResultFails(u, ty) || StopsAll(u, ty.ins[1..]))
  }

  ghost predicate FuncStops(u: Universe, ty: FuncType) {
    |ty.outs| > 1 || (|ty.ins| < 2 && ResultStops(u, ty)) || (|ty.ins| >= 2 && SignatureStops(u, ty))
  }

  predicate TakesBlock(ty: FuncType) {
    ty.ins != [] && ty.ins[0] == Uintptr(BlockName)
  }

  ghost predicate BlockStops(u: Universe, ty: FuncType) {
    if TakesBlock(ty) then SignatureStops(u, ty) else ResultStops(u, ty)
  }

  function EncodeResult(u: Universe, ty: FuncType): (r: Encoded)
    requires ResultStops(u, ty)
    ensures r.Err? <==> ResultFails(u, ty)
  {
    if ty.outs == [] then Ok("v") else EncodeType(u, ty.outs[0], false)
  }

  /** Result, "@" for the receiver, the remaining parameters. */
  function Signature(u: Universe, ty: FuncType): Encoded
    requires ty.ins != [] && SignatureStops(u, ty)
  {
    var result := EncodeResult(u, ty);
    if result.Err? then Err
    else
      var params := EncodeFields(u, ty.ins[1..]);
      if params.Err? then Err else Ok(result.s + "@" + params.s)
  }

  /** What encodeFunc returns. */
  function FuncEncoding(u: Universe, ty: FuncType): Encoded
    requires FuncStops(u, ty)
  {
    if |ty.outs| > 1 || |ty.ins| < 2 then Err else Signature(u, ty)
  }

  /** What encode returns for a block; `Err` is a panic. */
  function BlockEncoding(u: Universe, ty: FuncType): Encoded
    requires BlockStops(u, ty)
  {
    if !TakesBlock(ty) || Signature(u, ty).Err? then Err else Ok(Signature(u, ty).s + [0 as char])
  }

  /** The code of both as it runs; `accepted` is its test of the parameter list. */
  function SignatureFuel(u: Universe, ty: FuncType, accepted: bool, fuel: nat): Option<Encoded>
    requires accepted ==> ty.ins != []
  {
    var result := if ty.outs == [] then Some(Ok("v")) else EncodeFuel(u, ty.outs[0], false, fuel);
    if result.None? then None
    else if result.value.Err? || !accepted then Some(Err)
    else
      var params := FieldsFuel(u, ty.ins[1..], fuel);
      if params.None? then None
      else Some(if params.value.Ok? then Ok(result.value.s + "@" + params.value.s) else Err)
  }

  function FuncFuel(u: Universe, ty: FuncType, fuel: nat): Option<Encoded> {
    if |ty.outs| > 1 then Some(Err) else SignatureFuel(u, ty, |ty.ins| >= 2, fuel)
  }

  function BlockFuel(u: Universe, ty: FuncType, fuel: nat): Option<Encoded> {
    match SignatureFuel(u, ty, TakesBlock(ty), fuel)
    case None => None
    case Some(Err) => Some(Err)
    case Some(Ok(s)) => Some(Ok(s + [0 as char]))
  }

  lemma SignatureFuelSuffices(u: Universe, ty: FuncType, accepted: bool) returns (fuel: nat)
    requires accepted ==> ty.ins != []
    requires if accepted then SignatureStops(u, ty) else ResultStops(u, ty)
    ensures SignatureFuel(u, ty, accepted, fuel) == Some(if accepted then Signature(u, ty) else Err)
  {
    fuel := 0;
    if ty.outs != [] {
      fuel := FuelSuffices(u, ty.outs[0], false);
    }
    if accepted && !ResultFails(u, ty) {
      var more := FieldsFuelSuffices(u, ty.ins[1..]);
      fuel := fuel + more;
    }
  }

  lemma StoppedSignature(u: Universe, ty: FuncType, accepted: bool, fuel: nat)
    requires accepted ==> ty.ins != []
    requires SignatureFuel(u, ty, accepted, fuel).Some?
    ensures if accepted then SignatureStops(u, ty) else ResultStops(u, ty)
    ensures SignatureFuel(u, ty, accepted, fuel) == Some(if accepted then Signature(u, ty) else Err)
  {
    if ty.outs != [] {
      StoppedResult(u, ty.outs[0], false, fuel);
    }
    if accepted && !ResultFails(u, ty) {
      StoppedFields(u, ty.ins[1..], fuel);
    }
  }

  /** encodeFunc comes to an end exactly on the signatures of `FuncStops`, and then with FuncEncoding. */
  lemma FuncStopsIff(u: Universe, ty: FuncType)
    ensures (exists fuel :: FuncFuel(u, ty, fuel).Some?) <==> FuncStops(u, ty)
    ensures forall fuel :: FuncFuel(u, ty, fuel).Some? ==>
              FuncStops(u, ty) && FuncFuel(u, ty, fuel) == Some(FuncEncoding(u, ty))
  {
    var accepted := |ty.ins| >= 2;
    if |ty.outs| > 1 {
      assert FuncFuel(u, ty, 0).Some?;
    } else if FuncStops(u, ty) {
      var fuel := SignatureFuelSuffices(u, ty, accepted);
      assert FuncFuel(u, ty, fuel).Some?;
    }
    forall fuel: nat | FuncFuel(u, ty, fuel).Some?
      ensures FuncStops(u, ty) && FuncFuel(u, ty, fuel) == Some(FuncEncoding(u, ty))
    {
      if |ty.outs| <= 1 {
        StoppedSignature(u, ty, accepted, fuel);
      }
    }
  }

  /** encode comes to an end exactly on the signatures of `BlockStops`, and then with BlockEncoding. */
  lemma BlockStopsIff(u: Universe, ty: FuncType)
    ensures (exists fuel :: BlockFuel(u, ty, fuel).Some?) <==> BlockStops(u, ty)
    ensures forall fuel :: BlockFuel(u, ty, fuel).Some? ==>
              BlockStops(u, ty) && BlockFuel(u, ty, fuel) == Some(BlockEncoding(u, ty))
  {
    if BlockStops(u, ty) {
      var fuel := SignatureFuelSuffices(u, ty, TakesBlock(ty));
      assert BlockFuel(u, ty, fuel).Some?;
    }
    forall fuel: nat | BlockFuel(u, ty, fuel).Some?
      ensures BlockStops(u, ty) && BlockFuel(u, ty, fuel) == Some(BlockEncoding(u, ty))
    {
      StoppedSignature(u, ty, TakesBlock(ty), fuel);
    }
  }

  method EncodeFunc(u: Universe, ty: FuncType) returns (r: Encoded)
    requires FuncStops(u, ty)
    ensures r == if |ty.outs| > 1 || |ty.ins| < 2 then Err else Signature(u, ty)
  {
    var encoding := "";
    if |ty.outs| == 0 {
      encoding := encoding + "v";
    } else if |ty.outs| == 1 {
      var tmp := EncodeType(u, ty.outs[0], false);
      if tmp.Err? {
        return Err;
      }
      encoding := encoding + tmp.s;
    } else {
      return Err;
    }
    if |ty.ins| < 2 {
      return Err;
    }
    encoding := encoding + "@";
    r := AppendParameters(u, ty.ins[1..], encoding);
  }

  /** The signature of a block, NUL-terminated; `Err` is a panic. */
  method EncodeBlock(u: Universe, ty: FuncType) returns (r: Encoded)
    requires BlockStops(u, ty)
    ensures ty.ins == [] || ty.ins[0] != Uintptr(BlockName) ==> r == Err
    ensures ty.ins != [] && ty.ins[0] == Uintptr(BlockName) ==>
              r == if Signature(u, ty).Err? then Err else Ok(Signature(u, ty).s + [0 as char])
  {
    var result := EncodeResult(u, ty);
    if result.Err? || |ty.ins| == 0 || ty.ins[0] != Uintptr(BlockName) {
      return Err;
    }
    r := AppendParameters(u, ty.ins[1..], result.s + "@");
    if r.Ok? {
      r := Ok(r.s + [0 as char]);
    }
  }

  lemma Regroup(a: string, b: string, c: string)
    ensures a + b + c == a + (b + c)
  {
  }

  lemma AppendOne(u: Universe, rest: seq<GoType>, n: nat)
    requires n < |rest| && StopsAll(u, rest) && StopsAll(u, rest[..n]) && EncodeFields(u, rest[..n]).Ok?
    ensures Stops(u, rest[n], false) && StopsAll(u, rest[..n + 1])
    ensures var last := EncodeType(u, rest[n], false);
            EncodeFields(u, rest[..n + 1]) == if last.Ok? then Ok(EncodeFields(u, rest[..n]).s + last.s) else Err
    ensures EncodeType(u, rest[n], false).Err? ==> EncodeFields(u, rest).Err?
  {
    StopsPrefix(u, rest, n);
    StopsPrefix(u, rest, n + 1);
    assert Front(rest[..n + 1]) == rest[..n] && Last(rest[..n + 1]) == rest[n];
  }

  /** The loop over all parameters but the first, which `rest` are. */
  method AppendParameters(u: Universe, rest: seq<GoType>, prefix: string) returns (r: Encoded)
    requires StopsAll(u, rest)
    ensures r == if EncodeFields(u, rest).Ok? then Ok(prefix + EncodeFields(u, rest).s) else Err
  {
    var encoding := prefix;
    for i := 0 to |rest|
      invariant StopsAll(u, rest[..i])
      invariant EncodeFields(u, rest[..i]).Ok? && encoding == prefix + EncodeFields(u, rest[..i]).s
    {
      AppendOne(u, rest, i);
      var tmp := EncodeType(u, rest[i], false);
      if tmp.Err? {
        return Err;
      }
      Regroup(prefix, EncodeFields(u, rest[..i]).s, tmp.s);
      encoding := encoding + tmp.s;
    }
    assert rest[..|rest|] == rest;
    r := Ok(encoding);
  }
}
