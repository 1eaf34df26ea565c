/** Go types as the translators see them through reflection. */
module GoTypes {
  import opened Words

  /** Names an element type in a `Universe`. */
  type TypeId = nat

  /** The named uintptr types that `objc` tells apart by identity; all have kind Uintptr. */
  datatype UintptrName = Plain | ClassName | IdName | BlockName | SelName

  /** By-value containment is a finite tree, because Go rejects a type that contains itself by value.
      A pointer only names its element type, so type graphs may be cyclic through pointers. */
  datatype GoType =
    | Bool
    | Int8 | Int16 | Int32 | Int64 | Int
    | Uint8 | Uint16 | Uint32 | Uint64 | Uint
    | Uintptr(role: UintptrName)
    | Float32 | Float64
    | Pointer(elem: TypeId)
    | UnsafePointer
    | Func
    | Slice
    | String
    | Array(len: nat, item: GoType)
    | Struct(pkg: string, name: string, fields: seq<GoType>)
    | ErrorType
    | Unsupported   // interfaces other than error, maps, channels, complex numbers

  /** What each pointer's element type is. */
  type Universe = TypeId -> GoType

  const CDECL: GoType := Struct("purego", "CDecl", [])
  const VARIADIC: GoType := Struct("purego", "Variadic", [])
  const HOST_LAYOUT: GoType := Struct("structs", "HostLayout", [Struct("structs", "hostLayout", [])])

  predicate IsMarker(t: GoType) {
    t == CDECL || t == VARIADIC
  }

  predicate IsPointerKind(t: GoType) {
    t.Pointer? || t.UnsafePointer?
  }

  /** The kinds whose values fill exactly one integer register. */
  predicate IsWordKind(t: GoType) {
    t.Uintptr? || t.Uint? || t.Uint64? || t.Int? || t.Int64? || IsPointerKind(t)
  }

  predicate IsFloatKind(t: GoType) {
    t.Float32? || t.Float64?
  }

  /** The fixed-size numeric kinds. */
  predicate IsNumber(t: GoType) {
    || t.Int8? || t.Int16? || t.Int32? || t.Int64? || t.Int?
    || t.Uint8? || t.Uint16? || t.Uint32? || t.Uint64? || t.Uint? || t.Uintptr?
    || IsFloatKind(t)
  }

  function Max(a: nat, b: nat): nat {
    if a < b then b else a
  }

  /** reflect.Type.Align on a 64-bit target. */
  function GoAlign(t: GoType): (a: nat)
    ensures IsAlignment(a)
    decreases t, 0
  {
    match t
    case Bool | Int8 | Uint8 => 1
    case Int16 | Uint16 => 2
    case Int32 | Uint32 | Float32 => 4
    case Array(_, item) => GoAlign(item)
    case Struct(_, _, fields) => GoMaxAlign(fields)
    case _ => 8
  }

  function GoMaxAlign(fields: seq<GoType>): (a: nat)
    ensures IsAlignment(a)
    decreases fields, 0
  {
    if fields == [] then 1
    else Max(GoMaxAlign(fields[..|fields| - 1]), GoAlign(fields[|fields| - 1]))
  }

  /** reflect.Type.Size on a 64-bit target. */
  function GoSize(t: GoType): nat
    decreases t, 0
  {
    match t
    case Bool | Int8 | Uint8 => 1
    case Int16 | Uint16 => 2
    case Int32 | Uint32 | Float32 => 4
    case String | ErrorType | Unsupported => 16
    case Slice => 24
    case Array(len, item) => len * GoSize(item)
    case Struct(_, _, fields) => AlignUp(GoEnd(fields) + TailByte(fields), GoMaxAlign(fields))
    case _ => 8
  }

  /** The offset just past the last field. */
  function GoEnd(fields: seq<GoType>): nat
    decreases fields, 0
  {
    if fields == [] then 0
    else
      var last := fields[|fields| - 1];
      AlignUp(GoEnd(fields[..|fields| - 1]), GoAlign(last)) + GoSize(last)
  }

  /** Go pads a non-empty struct that ends in a zero-size field by one byte, so that the address of
      that field stays inside the struct. */
  function TailByte(fields: seq<GoType>): nat
    decreases fields, 1
  {
    if fields != [] && GoSize(fields[|fields| - 1]) == 0 && GoEnd(fields) > 0 then 1 else 0
  }

  /** The offset of field `i`. */
  function GoOffset(fields: seq<GoType>, i: nat): nat
    requires i < |fields|
  {
    AlignUp(GoEnd(fields[..i]), GoAlign(fields[i]))
  }

  lemma {:induction false} SizeIsAligned(t: GoType)
    ensures Aligned(GoSize(t), GoAlign(t))
    decreases t
  {
    match t
    case Array(len, item) =>
      SizeIsAligned(item);
      MultipleOfAligned(len, GoSize(item), GoAlign(item));
    case Struct(_, _, fields) =>
      AlignUpTwice(GoEnd(fields) + TailByte(fields), GoMaxAlign(fields));
    case _ => ScalarIsAligned(t);
  }

  lemma ScalarIsAligned(t: GoType)
    requires !t.Array? && !t.Struct?
    ensures Aligned(GoSize(t), GoAlign(t))
  {
    ScalarSizesAligned();
  }

  lemma ScalarSizesAligned()
    ensures Aligned(1, 1) && Aligned(2, 2) && Aligned(4, 4)
    ensures Aligned(8, 8) && Aligned(16, 8) && Aligned(24, 8)
  {
    SumAligned(1, 1, 1);
    assert AlignUp(2, 2) == 2 * AlignUp(1, 1);
    assert AlignUp(4, 4) == 2 * AlignUp(2, 2);
    assert AlignUp(8, 8) == 2 * AlignUp(4, 4);
    SumAligned(8, 8, 8);
    SumAligned(16, 8, 8);
  }

  lemma {:induction false} MultipleOfAligned(n: nat, size: nat, a: nat)
    requires Aligned(size, a)
    ensures Aligned(n * size, a)
    decreases n
  {
    if n > 0 {
      MultipleOfAligned(n - 1, size, a);
      assert n * size == (n - 1) * size + size;
      SumAligned((n - 1) * size, size, a);
    } else {
      ZeroAligned(a);
    }
  }

  lemma {:induction false} ZeroAligned(a: nat)
    ensures Aligned(0, a)
  {
    if a > 1 { ZeroAligned(a / 2); }
  }
}
