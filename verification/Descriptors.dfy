/** Translation of Go types to the C type descriptors handed to the call engine, and the memory
    layout that translation keeps. */
module Descriptors {
  import opened Words
  import opened GoTypes

  datatype DescKind =
    | VoidKind
    | SInt8 | UInt8 | SInt16 | UInt16 | SInt32 | UInt32 | SInt64 | UInt64
    | FloatKind | DoubleKind | PointerKind | StructKind

  datatype Descriptor = Descriptor(kind: DescKind, size: nat, align: nat, members: seq<Descriptor>)

  function Scalar(kind: DescKind, size: nat): Descriptor {
    Descriptor(kind, size, size, [])
  }

  const VOID_DESCRIPTOR: Descriptor := Scalar(VoidKind, 0)
  const POINTER_DESCRIPTOR: Descriptor := Scalar(PointerKind, 8)
  const UINT64_DESCRIPTOR: Descriptor := Scalar(UInt64, 8)

  /** `None` is the panic on an unsupported kind. */
  function GoTypeToFfiType(t: GoType): (d: Option<Descriptor>)
    decreases t, 0
  {
    match t
    case Int8 => Some(Scalar(SInt8, 1))
    case Uint8 | Bool => Some(Scalar(UInt8, 1))
    case Int16 => Some(Scalar(SInt16, 2))
    case Uint16 => Some(Scalar(UInt16, 2))
    case Int32 => Some(Scalar(SInt32, 4))
    case Uint32 => Some(Scalar(UInt32, 4))
    case Int64 | Int => Some(Scalar(SInt64, 8))
    case Uint64 | Uint | Uintptr(_) => Some(UINT64_DESCRIPTOR)
    case Float32 => Some(Scalar(FloatKind, 4))
    case Float64 => Some(Scalar(DoubleKind, 8))
    case Pointer(_) | UnsafePointer | Func | Slice | String => Some(POINTER_DESCRIPTOR)
    case Array(len, item) =>
      (match GoTypeToFfiType(item)
       case None => None
       case Some(d) => Some(Descriptor(StructKind, GoSize(t), GoAlign(t), seq(len, _ => d))))
    case Struct(_, _, fields) =>
      (match FieldDescriptors(fields)
       case None => None
       case Some(ds) => Some(Descriptor(StructKind, GoSize(t), GoAlign(t), ds)))
    case ErrorType | Unsupported => None
  }

  function FieldDescriptors(fields: seq<GoType>): (ds: Option<seq<Descriptor>>)
    ensures ds.Some? ==> |ds.value| == |fields|
    decreases fields, 0
  {
    if fields == [] then Some([])
    else
      var front := FieldDescriptors(fields[..|fields| - 1]);
      var last := GoTypeToFfiType(fields[|fields| - 1]);
      if front.None? || last.None? then None else Some(front.value + [last.value])
  }

  lemma {:induction false} FieldDescriptorAt(fields: seq<GoType>, i: nat)
    requires FieldDescriptors(fields).Some? && i < |fields|
    ensures GoTypeToFfiType(fields[i]) == Some(FieldDescriptors(fields).value[i])
    ensures FieldDescriptors(fields[..i]) == Some(FieldDescriptors(fields).value[..i])
  {
    var n := |fields| - 1;
    var front := fields[..n];
    if i < n {
      FieldDescriptorAt(front, i);
      assert front[..i] == fields[..i];
      assert FieldDescriptors(fields).value[..i] == FieldDescriptors(front).value[..i];
    } else {
      assert front == fields[..i];
      assert FieldDescriptors(fields).value[..i] == FieldDescriptors(front).value;
    }
  }

  /** An argument of array type decays to a pointer to its first element. */
  function GoArgTypeToFfiType(t: GoType): Option<Descriptor> {
    if t.Array? then Some(POINTER_DESCRIPTOR) else GoTypeToFfiType(t)
  }

  // ---------- What C makes of a descriptor (section 3.1.2 of the System V AMD64 psABI) ----------
  // Everything below is recomputed from `kind` and `members` alone; the stored size and align are ignored.

  /** How the C ABI passes an argument. */
  datatype ArgClass = SignedClass | UnsignedClass | FloatClass | PointerClass | AggregateClass | NoClass

  function ClassOf(d: Descriptor): ArgClass {
    match d.kind
    case VoidKind => NoClass
    case SInt8 | SInt16 | SInt32 | SInt64 => SignedClass
    case UInt8 | UInt16 | UInt32 | UInt64 => UnsignedClass
    case FloatKind | DoubleKind => FloatClass
    case PointerKind => PointerClass
    case StructKind => AggregateClass
  }

  /** The size and alignment of a C scalar; a struct's come from its members. */
  function KindSize(kind: DescKind): nat {
    match kind
    case VoidKind | StructKind => 0
    case SInt8 | UInt8 => 1
    case SInt16 | UInt16 => 2
    case SInt32 | UInt32 | FloatKind => 4
    case SInt64 | UInt64 | DoubleKind | PointerKind => 8
  }

  function CAlign(d: Descriptor): (a: nat)
    decreases d, 0
  {
    if d.kind == StructKind then CMaxAlign(d.members) else KindSize(d.kind)
  }

  function CMaxAlign(ms: seq<Descriptor>): (a: nat)
    decreases ms, 0
  {
    if ms == [] then 1 else Max(CMaxAlign(ms[..|ms| - 1]), CAlign(ms[|ms| - 1]))
  }

  function CSize(d: Descriptor): nat
    decreases d, 0
  {
    if d.kind == StructKind then AlignUp(CEnd(d.members), CMaxAlign(d.members)) else KindSize(d.kind)
  }

  function CEnd(ms: seq<Descriptor>): nat
    decreases ms, 0
  {
    if ms == [] then 0
    else
      var last := ms[|ms| - 1];
      AlignUp(CEnd(ms[..|ms| - 1]), CAlign(last)) + CSize(last)
  }

  function COffset(ms: seq<Descriptor>, i: nat): nat
    requires i < |ms|
  {
    AlignUp(CEnd(ms[..i]), CAlign(ms[i]))
  }

  // ---------- Layout preservation ----------

  predicate SameSizeAndAlign(t: GoType, d: Descriptor) {
    d.size == CSize(d) == GoSize(t) && d.align == CAlign(d) == GoAlign(t)
  }

  /** How C should pass a value of a Go type. */
  function TypeClass(t: GoType): ArgClass {
    match t
    case Int8 | Int16 | Int32 | Int64 | Int => SignedClass
    case Bool | Uint8 | Uint16 | Uint32 | Uint64 | Uint | Uintptr(_) => UnsignedClass
    case Float32 | Float64 => FloatClass
    case Pointer(_) | UnsafePointer | Func | Slice | String => PointerClass
    case Array(_, _) | Struct(_, _, _) => AggregateClass
    case ErrorType | Unsupported => NoClass
  }

  /** The descriptor has the class of the Go type, and a scalar the size and alignment of its kind. */
  predicate HasOwnKind(t: GoType, d: Descriptor) {
    && ClassOf(d) == TypeClass(t)
    && (d.kind != StructKind ==> d.size == d.align == KindSize(d.kind) && d.members == [])
  }

  /** At every nested descriptor. */
  ghost predicate OwnKinds(t: GoType, d: Descriptor)
    decreases t
  {
    && HasOwnKind(t, d)
    && match t
       case Struct(_, _, fields) =>
         |d.members| == |fields| && forall i :: 0 <= i < |fields| ==> OwnKinds(fields[i], d.members[i])
       case Array(len, item) => |d.members| == len && forall i :: 0 <= i < len ==> OwnKinds(item, d.members[i])
       case _ => true
  }

  /** Whatever becomes of the layout, every scalar in a type is described as C's scalar of its class and of
      the size C gives that scalar. */
  lemma {:induction false} KindsThroughout(t: GoType)
    requires GoTypeToFfiType(t).Some?
    ensures OwnKinds(t, GoTypeToFfiType(t).value)
    decreases t
  {
    match t
    case Array(_, item) => KindsThroughout(item);
    case Struct(_, _, fields) =>
      var ds := FieldDescriptors(fields).value;
      forall i | 0 <= i < |fields| ensures OwnKinds(fields[i], ds[i]) {
        FieldDescriptorAt(fields, i);
        KindsThroughout(fields[i]);
      }
    case _ =>
  }

  /** At every nested descriptor class and kind are the type's own, and stored and recomputed size and
      alignment, and every member offset, are Go's. */
  ghost predicate Faithful(t: GoType, d: Descriptor)
    decreases t
  {
    && SameSizeAndAlign(t, d) && HasOwnKind(t, d)
    && match t
       case Struct(_, _, fields) =>
         |d.members| == |fields| &&
         forall i :: 0 <= i < |fields| ==>
           COffset(d.members, i) == GoOffset(fields, i) && Faithful(fields[i], d.members[i])
       case Array(len, item) =>
         |d.members| == len &&
         forall i :: 0 <= i < len ==>
           COffset(d.members, i) == i * GoSize(item) && Faithful(item, d.members[i])
       case _ => true
  }

  /** The types a caller must avoid: a string or slice held by value inside an aggregate, a
      zero-length array whose element needs alignment, and a struct that ends in a zero-size field at
      an offset where Go's extra byte opens a new alignment unit. */
  predicate KeepsLayout(t: GoType)
    decreases t
  {
    match t
    case String | Slice => false
    case Array(len, item) => if len == 0 then GoAlign(item) == 1 else KeepsLayout(item)
    case Struct(_, _, fields) =>
      && (forall i :: 0 <= i < |fields| ==> KeepsLayout(fields[i]))
      && !(TailByte(fields) == 1 && Aligned(GoEnd(fields), GoMaxAlign(fields)))
    case _ => true
  }

  /** The translation preserves layout exactly on the types that avoid those three shapes. */
  lemma {:induction false} LayoutPreservedIff(t: GoType)
    requires GoTypeToFfiType(t).Some?
    ensures Faithful(t, GoTypeToFfiType(t).value) <==> KeepsLayout(t)
    decreases t
  {
    match t
    case Array(len, item) =>
      LayoutPreservedIff(item);
      ArrayPreservedIff(len, item);
    case Struct(_, _, fields) =>
      FieldsPreservedIff(fields);
      StructPreservedIff(t, GoTypeToFfiType(t).value);
    case _ => ScalarPreservedIff(t);
  }

  lemma ScalarPreservedIff(t: GoType)
    requires GoTypeToFfiType(t).Some? && !t.Array? && !t.Struct?
    ensures Faithful(t, GoTypeToFfiType(t).value) <==> KeepsLayout(t)
  {
    ScalarKind(t);
    ScalarSize(t);
  }

  lemma ScalarKind(t: GoType)
    requires GoTypeToFfiType(t).Some? && !t.Array? && !t.Struct?
    ensures var d := GoTypeToFfiType(t).value;
            d.kind != StructKind && HasOwnKind(t, d) && CSize(d) == d.size && CAlign(d) == d.align
  {
  }

  lemma ScalarSize(t: GoType)
    requires GoTypeToFfiType(t).Some? && !t.Array? && !t.Struct?
    ensures var d := GoTypeToFfiType(t).value;
            (d.size == GoSize(t) && d.align == GoAlign(t)) <==> !(t.String? || t.Slice?)
  {
  }

  lemma {:induction false} FieldsPreservedIff(fields: seq<GoType>)
    requires FieldDescriptors(fields).Some?
    ensures forall i :: 0 <= i < |fields| ==>
              (Faithful(fields[i], FieldDescriptors(fields).value[i]) <==> KeepsLayout(fields[i]))
    decreases fields
  {
    forall i | 0 <= i < |fields|
      ensures Faithful(fields[i], FieldDescriptors(fields).value[i]) <==> KeepsLayout(fields[i])
    {
      FieldDescriptorAt(fields, i);
      LayoutPreservedIff(fields[i]);
    }
  }

  /** Each of the three shapes does lose its layout: a struct with a string is 16 bytes to Go and 8 to C,
      an empty array of int64 is 8-aligned to Go and 1-aligned to C, and a struct of an int64 and a final
      zero-size field is 16 bytes to Go and 8 to C. */
  lemma LayoutLost()
    ensures var t := Struct("p", "S", [String]); LosesLayout(t, 16, 8, 8, 8)
    ensures LosesLayout(Array(0, Int64), 0, 0, 8, 1)
    ensures var t := Struct("p", "S", [Int64, Struct("p", "E", [])]); LosesLayout(t, 16, 8, 8, 8)
  {
    StringField();
    EmptyArrayLayout();
    EmptyTailLayout();
  }

  /** The sizes and alignments Go and C give a type differ, and so its layout is lost. */
  ghost predicate LosesLayout(t: GoType, goSize: nat, cSize: nat, goAlign: nat, cAlign: nat) {
    && GoTypeToFfiType(t).Some?
    && var d := GoTypeToFfiType(t).value;
       && GoSize(t) == goSize && CSize(d) == cSize && GoAlign(t) == goAlign && CAlign(d) == cAlign
       && !Faithful(t, d) && !KeepsLayout(t)
  }

  lemma Lost(t: GoType, goSize: nat, cSize: nat, goAlign: nat, cAlign: nat)
    requires GoTypeToFfiType(t).Some? && (goSize != cSize || goAlign != cAlign)
    requires GoSize(t) == goSize && GoAlign(t) == goAlign
    requires CSize(GoTypeToFfiType(t).value) == cSize && CAlign(GoTypeToFfiType(t).value) == cAlign
    ensures LosesLayout(t, goSize, cSize, goAlign, cAlign)
  {
    LayoutPreservedIff(t);
  }

  /** A struct of one field, in Go ... */
  lemma OneGoField(t: GoType)
    ensures GoEnd([t]) == AlignUp(0, GoAlign(t)) + GoSize(t) && GoMaxAlign([t]) == GoAlign(t)
    ensures TailByte([t]) == 1 <==> GoSize(t) == 0 && AlignUp(0, GoAlign(t)) > 0
  {
    assert [t][..0] == [] && Max(1, GoAlign(t)) == GoAlign(t);
  }

  /** ... and in C. */
  lemma OneMember(d: Descriptor)
    requires CAlign(d) >= 1
    ensures CEnd([d]) == AlignUp(0, CAlign(d)) + CSize(d) && CMaxAlign([d]) == CAlign(d)
  {
    assert [d][..0] == [];
  }

  lemma OneFieldDescriptor(t: GoType)
    requires GoTypeToFfiType(t).Some?
    ensures FieldDescriptors([t]) == Some([GoTypeToFfiType(t).value])
  {
    var d := GoTypeToFfiType(t).value;
    assert [t][..0] == [] && FieldDescriptors([]) == Some([]) && [] + [d] == [d];
  }

  /** A struct whose end needs rounding up in Go to more than C's size. */
  lemma StructLost(fields: seq<GoType>, end: nat, goSize: nat, cEnd: nat, align: nat)
    requires FieldDescriptors(fields).Some? && cEnd < goSize
    requires GoEnd(fields) + TailByte(fields) == end && AlignUp(end, align) == goSize && GoMaxAlign(fields) == align
    requires CEnd(FieldDescriptors(fields).value) == cEnd && Aligned(cEnd, align)
    requires CMaxAlign(FieldDescriptors(fields).value) == align
    ensures LosesLayout(Struct("p", "S", fields), goSize, cEnd, align, align)
  {
    var t := Struct("p", "S", fields);
    StructDescriptor(fields, goSize, align);
    MembersSize(Descriptor(StructKind, goSize, align, FieldDescriptors(fields).value), cEnd, align);
    Lost(t, goSize, cEnd, align, align);
  }

  lemma StructDescriptor(fields: seq<GoType>, goSize: nat, align: nat)
    requires FieldDescriptors(fields).Some?
    requires AlignUp(GoEnd(fields) + TailByte(fields), align) == goSize && GoMaxAlign(fields) == align
    ensures var t := Struct("p", "S", fields);
            && GoSize(t) == goSize && GoAlign(t) == align
            && GoTypeToFfiType(t) == Some(Descriptor(StructKind, goSize, align, FieldDescriptors(fields).value))
  {
  }

  lemma MembersSize(d: Descriptor, end: nat, align: nat)
    requires d.kind == StructKind && CEnd(d.members) == end && CMaxAlign(d.members) == align && Aligned(end, align)
    ensures CSize(d) == end && CAlign(d) == align
  {
  }

  lemma StringField()
    ensures LosesLayout(Struct("p", "S", [String]), 16, 8, 8, 8)
  {
    OneGoField(String);
    ZeroAligned(8);
    OneFieldDescriptor(String);
    OneMember(POINTER_DESCRIPTOR);
    PointerMember();
    ScalarSizesAligned();
    StructLost([String], 16, 16, 8, 8);
  }

  lemma PointerMember()
    ensures GoTypeToFfiType(String) == Some(POINTER_DESCRIPTOR)
    ensures CAlign(POINTER_DESCRIPTOR) == 8 && CSize(POINTER_DESCRIPTOR) == 8
  {
  }

  lemma EmptyArrayLayout()
    ensures LosesLayout(Array(0, Int64), 0, 0, 8, 1)
  {
    var d := GoTypeToFfiType(Array(0, Int64)).value;
    assert d.members == [];
    ZeroAligned(1);
    assert 0 * GoSize(Int64) == 0;
    Lost(Array(0, Int64), 0, 0, 8, 1);
  }

  lemma EmptyTailLayout()
    ensures LosesLayout(Struct("p", "S", [Int64, Struct("p", "E", [])]), 16, 8, 8, 8)
  {
    var e := Struct("p", "E", []);
    var t := Struct("p", "S", [Int64, e]);
    EmptyTailGo(e);
    TailDescriptors(e);
    ScalarSizesAligned();
    NineRoundsUp();
    StructLost(t.fields, 9, 16, 8, 8);
  }

  lemma EmptyTailGo(e: GoType)
    requires e == Struct("p", "E", [])
    ensures GoEnd([Int64, e]) == 8 && GoMaxAlign([Int64, e]) == 8 && TailByte([Int64, e]) == 1
  {
    ZeroAligned(1);
    ZeroAligned(8);
    assert GoSize(e) == 0 && GoAlign(e) == 1;
    assert [Int64, e][..1] == [Int64];
    OneGoField(Int64);
  }

  lemma NineRoundsUp()
    ensures AlignUp(9, 8) == 16
  {
    assert AlignUp(9, 8) == 2 * AlignUp(5, 4) && AlignUp(5, 4) == 2 * AlignUp(3, 2) && AlignUp(3, 2) == 2 * AlignUp(2, 1);
  }

  lemma TailDescriptors(e: GoType)
    requires e == Struct("p", "E", [])
    ensures FieldDescriptors([Int64, e]).Some?
    ensures var ms := FieldDescriptors([Int64, e]).value; CEnd(ms) == 8 && CMaxAlign(ms) == 8
  {
    var i, d := Scalar(SInt64, 8), Descriptor(StructKind, GoSize(e), GoAlign(e), []);
    OneFieldDescriptor(Int64);
    assert [Int64, e][..1] == [Int64] && [i] + [d] == [i, d];
    assert FieldDescriptors([]) == Some([]) && GoTypeToFfiType(e) == Some(d);
    assert FieldDescriptors([Int64, e]) == Some([i, d]);
    TailMembers(i, d);
  }

  lemma TailMembers(i: Descriptor, d: Descriptor)
    requires i == Scalar(SInt64, 8) && d.kind == StructKind && d.members == []
    ensures CEnd([i, d]) == 8 && CMaxAlign([i, d]) == 8
  {
    assert [i, d][..1] == [i];
    OneMember(i);
    ZeroAligned(1);
    ZeroAligned(8);
  }

  lemma ArrayPreservedIff(len: nat, item: GoType)
    requires GoTypeToFfiType(item).Some?
    requires Faithful(item, GoTypeToFfiType(item).value) <==> KeepsLayout(item)
    ensures var t := Array(len, item); Faithful(t, GoTypeToFfiType(t).value) <==> KeepsLayout(t)
  {
    var t, e := Array(len, item), GoTypeToFfiType(item).value;
    var d := GoTypeToFfiType(t).value;
    assert d == Descriptor(StructKind, GoSize(t), GoAlign(t), seq(len, _ => e));
    if len == 0 {
      EmptyArrayIff(item, d);
    } else if KeepsLayout(item) {
      ArrayFaithful(len, item, e, d);
    } else {
      assert d.members[0] == e;
    }
  }

  lemma EmptyArrayIff(item: GoType, d: Descriptor)
    requires d == Descriptor(StructKind, GoSize(Array(0, item)), GoAlign(item), [])
    ensures Faithful(Array(0, item), d) <==> GoAlign(item) == 1
  {
    assert 0 * GoSize(item) == 0;
    ZeroAligned(1);
    assert CSize(d) == AlignUp(0, 1) && CAlign(d) == 1;
  }

  lemma ArrayFaithful(len: nat, item: GoType, e: Descriptor, d: Descriptor)
    requires len > 0 && Faithful(item, e)
    requires d == Descriptor(StructKind, GoSize(Array(len, item)), GoAlign(item), seq(len, _ => e))
    ensures Faithful(Array(len, item), d)
  {
    ArrayEnd(len, item, e);
    ArrayAligned(len, item);
    assert SameSizeAndAlign(Array(len, item), d);
    ArrayLayout(len, item, e);
  }

  /** A descriptor with a struct's own size and alignment and one member per field. */
  predicate DescribesStruct(t: GoType, d: Descriptor) {
    && t.Struct? && d.kind == StructKind
    && d.size == GoSize(t) && d.align == GoAlign(t) && |d.members| == |t.fields|
  }

  lemma StructPreservedIff(t: GoType, d: Descriptor)
    requires DescribesStruct(t, d)
    requires forall i :: 0 <= i < |t.fields| ==> (Faithful(t.fields[i], d.members[i]) <==> KeepsLayout(t.fields[i]))
    ensures Faithful(t, d) <==> KeepsLayout(t)
  {
    if i :| 0 <= i < |t.fields| && !KeepsLayout(t.fields[i]) {
      UnfaithfulMember(t, d, i);
    } else {
      KeptFields(t, d);
    }
  }

  lemma UnfaithfulMember(t: GoType, d: Descriptor, i: nat)
    requires t.Struct? && i < |t.fields| && i < |d.members| && !Faithful(t.fields[i], d.members[i])
    ensures !Faithful(t, d)
  {
  }

  lemma KeptFields(t: GoType, d: Descriptor)
    requires DescribesStruct(t, d)
    requires forall i :: 0 <= i < |t.fields| ==> KeepsLayout(t.fields[i]) && Faithful(t.fields[i], d.members[i])
    ensures Faithful(t, d) <==> KeepsLayout(t)
  {
    MembersLayout(t.fields, d.members);
    StructSizeIff(t, d);
    MembersFaithful(t, d);
  }

  lemma MembersFaithful(t: GoType, d: Descriptor)
    requires t.Struct? && d.kind == StructKind && |d.members| == |t.fields|
    requires forall i :: 0 <= i < |t.fields| ==> Faithful(t.fields[i], d.members[i])
    requires forall i :: 0 <= i < |t.fields| ==> COffset(d.members, i) == GoOffset(t.fields, i)
    ensures Faithful(t, d) <==> SameSizeAndAlign(t, d)
  {
  }

  lemma StructSizeIff(t: GoType, d: Descriptor)
    requires DescribesStruct(t, d)
    requires CEnd(d.members) == GoEnd(t.fields) && CMaxAlign(d.members) == GoMaxAlign(t.fields)
    ensures SameSizeAndAlign(t, d) <==>
            !(TailByte(t.fields) == 1 && Aligned(GoEnd(t.fields), GoMaxAlign(t.fields)))
  {
    var end, tail, a := GoEnd(t.fields), TailByte(t.fields), GoMaxAlign(t.fields);
    assert d.size == GoSize(t) == AlignUp(end + tail, a) && d.align == GoAlign(t) == a;
    assert CAlign(d) == a && CSize(d) == AlignUp(end, a);
    TailPaddingIff(end, tail, a);
  }

  lemma TailPaddingIff(end: nat, tail: nat, a: nat)
    requires IsAlignment(a) && tail <= 1
    ensures AlignUp(end + tail, a) == AlignUp(end, a) <==> !(tail == 1 && Aligned(end, a))
  {
    PaddingByte(end, a);
  }

  lemma {:induction false} MembersEnd(fields: seq<GoType>, ms: seq<Descriptor>)
    requires |fields| == |ms|
    requires forall i :: 0 <= i < |ms| ==> SameSizeAndAlign(fields[i], ms[i])
    ensures CEnd(ms) == GoEnd(fields) && CMaxAlign(ms) == GoMaxAlign(fields)
  {
    if ms != [] {
      MembersEnd(fields[..|ms| - 1], ms[..|ms| - 1]);
    }
  }

  /** Go's and C's running offsets agree over members that are themselves laid out alike. */
  lemma MembersLayout(fields: seq<GoType>, ms: seq<Descriptor>)
    requires |fields| == |ms|
    requires forall i :: 0 <= i < |ms| ==> Faithful(fields[i], ms[i])
    ensures CEnd(ms) == GoEnd(fields) && CMaxAlign(ms) == GoMaxAlign(fields)
    ensures forall i :: 0 <= i < |ms| ==> COffset(ms, i) == GoOffset(fields, i)
  {
    forall i | 0 <= i < |ms| ensures SameSizeAndAlign(fields[i], ms[i]) {
      assert Faithful(fields[i], ms[i]);
    }
    MembersEnd(fields, ms);
    forall i | 0 <= i < |ms| ensures COffset(ms, i) == GoOffset(fields, i) {
      MembersEnd(fields[..i], ms[..i]);
    }
  }

  lemma {:induction false} ArrayEnd(len: nat, item: GoType, e: Descriptor)
    requires SameSizeAndAlign(item, e)
    ensures var ms := seq(len, _ => e);
            CEnd(ms) == len * GoSize(item) && CMaxAlign(ms) == (if len == 0 then 1 else GoAlign(item))
    decreases len
  {
    if len > 0 {
      var ms, n := seq(len, _ => e), len - 1;
      ArrayEnd(n, item, e);
      assert ms[..n] == seq(n, _ => e);
      ArrayAligned(n, item);
      OneMore(n, GoSize(item));
    }
  }

  lemma OneMore(n: nat, size: nat)
    ensures (n + 1) * size == n * size + size
  {
  }

  lemma ArrayAligned(len: nat, item: GoType)
    ensures Aligned(len * GoSize(item), GoAlign(item))
  {
    SizeIsAligned(item);
    MultipleOfAligned(len, GoSize(item), GoAlign(item));
  }

  /** C lays out `len` copies of a descriptor as a Go array. */
  lemma ArrayLayout(len: nat, item: GoType, e: Descriptor)
    requires SameSizeAndAlign(item, e)
    ensures var ms := seq(len, _ => e);
            forall i :: 0 <= i < len ==> COffset(ms, i) == i * GoSize(item)
  {
    var ms := seq(len, _ => e);
    forall i | 0 <= i < len ensures COffset(ms, i) == i * GoSize(item) {
      ArrayEnd(i, item, e);
      ArrayAligned(i, item);
      assert ms[..i] == seq(i, _ => e);
    }
  }

  /** A leading zero-size, align-1 field such as `structs.HostLayout` shifts nothing: the struct keeps
      its size and alignment and every other field its offset, in Go and in the descriptor. */
  lemma LeadingMarkerShiftsNothing(pkg: string, name: string, marker: GoType, fields: seq<GoType>)
    requires GoSize(marker) == 0 && GoAlign(marker) == 1
    ensures var plain, marked := Struct(pkg, name, fields), Struct(pkg, name, [marker] + fields);
            && GoSize(marked) == GoSize(plain) && GoAlign(marked) == GoAlign(plain)
            && forall i :: 0 <= i < |fields| ==> GoOffset([marker] + fields, i + 1) == GoOffset(fields, i)
    ensures GoTypeToFfiType(marker).Some? && FieldDescriptors(fields).Some? ==>
              FieldDescriptors([marker] + fields) ==
              Some([GoTypeToFfiType(marker).value] + FieldDescriptors(fields).value)
  {
    SizeWithMarker(pkg, name, marker, fields);
    DescriptorsWithMarker(marker, fields);
    forall i | 0 <= i < |fields| ensures GoOffset([marker] + fields, i + 1) == GoOffset(fields, i) {
      OffsetWithMarker(marker, fields, i);
    }
  }

  lemma SizeWithMarker(pkg: string, name: string, marker: GoType, fields: seq<GoType>)
    requires GoSize(marker) == 0 && GoAlign(marker) == 1
    ensures GoSize(Struct(pkg, name, [marker] + fields)) == GoSize(Struct(pkg, name, fields))
    ensures GoAlign(Struct(pkg, name, [marker] + fields)) == GoAlign(Struct(pkg, name, fields))
  {
    PrefixWithMarker(marker, fields);
  }

  lemma OffsetWithMarker(marker: GoType, fields: seq<GoType>, i: nat)
    requires GoSize(marker) == 0 && GoAlign(marker) == 1 && i < |fields|
    ensures GoOffset([marker] + fields, i + 1) == GoOffset(fields, i)
  {
    assert ([marker] + fields)[..i + 1] == [marker] + fields[..i];
    PrefixWithMarker(marker, fields[..i]);
  }

  lemma {:induction false} DescriptorsWithMarker(marker: GoType, fields: seq<GoType>)
    ensures GoTypeToFfiType(marker).Some? && FieldDescriptors(fields).Some? ==>
              FieldDescriptors([marker] + fields) ==
              Some([GoTypeToFfiType(marker).value] + FieldDescriptors(fields).value)
    decreases |fields|
  {
    if GoTypeToFfiType(marker).Some? && FieldDescriptors(fields).Some? {
      var all, n, m := [marker] + fields, |fields|, GoTypeToFfiType(marker).value;
      if n == 0 {
        assert all[..0] == [] && all[0] == marker;
        assert FieldDescriptors(all) == Some([] + [m]);
        assert [m] + FieldDescriptors(fields).value == [] + [m];
      } else {
        assert all[..n] == [marker] + fields[..n - 1];
        DescriptorsWithMarker(marker, fields[..n - 1]);
        var front, last := FieldDescriptors(fields[..n - 1]).value, GoTypeToFfiType(fields[n - 1]).value;
        assert ([m] + front) + [last] == [m] + (front + [last]);
      }
    }
  }

  lemma {:induction false} PrefixWithMarker(marker: GoType, fields: seq<GoType>)
    requires GoSize(marker) == 0 && GoAlign(marker) == 1
    ensures GoEnd([marker] + fields) == GoEnd(fields)
    ensures GoMaxAlign([marker] + fields) == GoMaxAlign(fields)
    ensures TailByte([marker] + fields) == TailByte(fields)
    decreases |fields|
  {
    var all, n := [marker] + fields, |fields|;
    if n == 0 {
      assert all[..0] == [] && all[0] == marker;
      ZeroAligned(1);
    } else {
      assert all[..n] == [marker] + fields[..n - 1];
      PrefixWithMarker(marker, fields[..n - 1]);
    }
  }

  lemma HostLayoutIsEmpty()
    ensures GoSize(HOST_LAYOUT) == 0 && GoAlign(HOST_LAYOUT) == 1 && KeepsLayout(HOST_LAYOUT)
  {
    var inner := Struct("structs", "hostLayout", []);
    ZeroAligned(1);
    assert GoSize(inner) == 0 && GoAlign(inner) == 1 && KeepsLayout(inner);
    assert [inner][..0] == [];
    assert GoEnd([inner]) == 0 && GoMaxAlign([inner]) == 1 && TailByte([inner]) == 0;
  }

  lemma HostLayoutShiftsNothing(pkg: string, name: string, fields: seq<GoType>)
    ensures var plain, marked := Struct(pkg, name, fields), Struct(pkg, name, [HOST_LAYOUT] + fields);
            && GoSize(marked) == GoSize(plain) && GoAlign(marked) == GoAlign(plain)
            && forall i :: 0 <= i < |fields| ==> GoOffset([HOST_LAYOUT] + fields, i + 1) == GoOffset(fields, i)
    ensures KeepsLayout(Struct(pkg, name, [HOST_LAYOUT] + fields)) <==> KeepsLayout(Struct(pkg, name, fields))
  {
    HostLayoutIsEmpty();
    LeadingMarkerShiftsNothing(pkg, name, HOST_LAYOUT, fields);
    KeptWithMarker(pkg, name, HOST_LAYOUT, fields);
  }

  lemma KeptWithMarker(pkg: string, name: string, marker: GoType, fields: seq<GoType>)
    requires GoSize(marker) == 0 && GoAlign(marker) == 1 && KeepsLayout(marker)
    ensures KeepsLayout(Struct(pkg, name, [marker] + fields)) <==> KeepsLayout(Struct(pkg, name, fields))
  {
    PrefixWithMarker(marker, fields);
    FieldsWithMarker(marker, fields);
    StructKept(pkg, name, [marker] + fields);
    StructKept(pkg, name, fields);
  }

  predicate FieldsKept(fields: seq<GoType>) {
    forall i :: 0 <= i < |fields| ==> KeepsLayout(fields[i])
  }

  lemma StructKept(pkg: string, name: string, fields: seq<GoType>)
    ensures KeepsLayout(Struct(pkg, name, fields)) <==>
            FieldsKept(fields) && !(TailByte(fields) == 1 && Aligned(GoEnd(fields), GoMaxAlign(fields)))
  {
  }

  lemma FieldsWithMarker(marker: GoType, fields: seq<GoType>)
    requires KeepsLayout(marker)
    ensures FieldsKept([marker] + fields) <==> FieldsKept(fields)
  {
    var all := [marker] + fields;
    if FieldsKept(all) {
      forall i | 0 <= i < |fields| ensures KeepsLayout(fields[i]) {
        assert fields[i] == all[i + 1];
      }
    }
  }
}
