/** Argument values, how the reflect path packs one of them, and the foreign call engine. */
module Marshal {
  import opened Words
  import opened GoTypes
  import opened Descriptors

  datatype FuncType = FuncType(ins: seq<GoType>, outs: seq<GoType>, isVariadic: bool)

  /** A reflect.Value. Numbers hold their bit pattern; arrays and structs their memory image. */
  datatype GoValue =
    | NumberValue(numberType: GoType, bits: nat)
    | BoolValue(b: bool)
    | StringValue(text: seq<byte>)
    | AddressValue(addressType: GoType, addr: word)
    | FuncValue(id: nat)
    | ArrayValue(arrayType: GoType, image: seq<byte>)
    | StructValue(structType: GoType, image: seq<byte>)
    | OtherValue

  function TypeOf(v: GoValue): GoType {
    match v
    case NumberValue(t, _) => t
    case BoolValue(_) => Bool
    case StringValue(_) => String
    case AddressValue(t, _) => t
    case FuncValue(_) => Func
    case ArrayValue(t, _) => t
    case StructValue(t, _) => t
    case OtherValue => Unsupported
  }

  /** The value is one its Go type can hold. */
  predicate WellTyped(v: GoValue) {
    match v
    case NumberValue(t, bits) => IsNumber(t) && bits < Pow256(GoSize(t))
    case AddressValue(t, _) => IsPointerKind(t) || t.Slice?
    case ArrayValue(t, image) => t.Array? && |image| == GoSize(t)
    case StructValue(t, image) => t.Struct? && |image| == GoSize(t)
    case _ => true
  }

  /** What an argument slot points at: the argument's own bytes, or a pointer cell that refers to a
      buffer. */
  datatype Cell = Bytes(bytes: seq<byte>) | AddressOf(buffer: seq<byte>)

  /** What the caller must keep alive until the call is over. */
  datatype Kept = KeptValue(v: GoValue) | KeptBuffer(buffer: seq<byte>) | KeptCell(cell: Cell)

  datatype CallInterface = CallInterface(cdecl: bool, ret: Descriptor, argTypes: seq<Descriptor>, variadicAfter: Option<nat>)

  datatype CallOutcome = Returned(bytes: seq<byte>) | CallFailed

  /** The goffi engine, of which nothing is assumed but that its answers are determined by what it is
      given: which interfaces it can prepare, what a call of function `cfn` stores in the result, the
      last value that function stores in errno, if it stores any, and the address the engine hands out
      for a Go callback. A failed call stands for an engine error and for a panic that passes through C
      from a callback. */
  datatype Foreign = Foreign(
    prepares: CallInterface -> bool,
    call: (CallInterface, word, seq<Cell>) -> CallOutcome,
    errno: (CallInterface, word, seq<Cell>) -> Option<int>,
    callback: nat -> word)

  /** `None` is the panic on an unsupported kind. */
  function PackArg(v: GoValue, callback: nat -> word): Option<(Cell, Option<Kept>)> {
    match v
    case StringValue(text) =>
      if |text| > 0 && text[|text| - 1] == 0 then
        Some((AddressOf(text), Some(KeptValue(v))))
      else
        Some((AddressOf(text + [0]), Some(KeptBuffer(text + [0]))))
    case BoolValue(b) =>
      var cell := Bytes([if b then 1 else 0]);
      Some((cell, Some(KeptCell(cell))))
    case NumberValue(t, bits) =>
      var cell := Bytes(LittleEndian(bits, GoSize(t)));
      Some((cell, Some(KeptCell(cell))))
    case AddressValue(_, addr) => Some((Bytes(LittleEndian(addr, 8)), Some(KeptValue(v))))
    case FuncValue(id) =>
      var cell := Bytes(LittleEndian(callback(id), 8));
      Some((cell, Some(KeptCell(cell))))
    case ArrayValue(_, image) => Some((AddressOf(image), Some(KeptValue(v))))
    case StructValue(_, image) => Some((Bytes(image), Some(KeptValue(v))))
    case OtherValue => None
  }

  /** How C expects to be passed a value. */
  function ValueClass(v: GoValue): ArgClass {
    match v
    case NumberValue(t, _) =>
      if IsFloatKind(t) then FloatClass
      else if t.Int8? || t.Int16? || t.Int32? || t.Int64? || t.Int? then SignedClass
      else UnsignedClass
    case BoolValue(_) => UnsignedClass
    case StructValue(_, _) => AggregateClass
    case OtherValue => NoClass
    case _ => PointerClass
  }

  /** A descriptor describes a value and the cell made from it: it has the class C expects, a scalar the
      size and alignment of its kind, the value's alignment if the value itself is passed, and exactly as
      many bytes as the cell; a cell that refers to a buffer is a pointer. */
  predicate Describes(d: Descriptor, v: GoValue, c: Cell) {
    && ClassOf(d) == ValueClass(v)
    && (d.kind != StructKind ==> d.size == d.align == KindSize(d.kind))
    && (!d.kind.PointerKind? ==> d.align == GoAlign(TypeOf(v)))
    && match c
       case Bytes(bytes) => d.size == |bytes|
       case AddressOf(_) => d == POINTER_DESCRIPTOR
  }

  /** The descriptor chosen from an argument's type describes the value and its cell. */
  lemma DescriptorMatchesCell(v: GoValue, callback: nat -> word)
    requires WellTyped(v) && GoArgTypeToFfiType(TypeOf(v)).Some?
    ensures PackArg(v, callback).Some?
    ensures Describes(GoArgTypeToFfiType(TypeOf(v)).value, v, PackArg(v, callback).value.0)
  {
    if v.NumberValue? {
      NumberDescriptor(v);
    }
  }

  lemma NumberDescriptor(v: GoValue)
    requires v.NumberValue? && IsNumber(v.numberType)
    ensures GoTypeToFfiType(v.numberType).Some?
    ensures var d := GoTypeToFfiType(v.numberType).value;
            && d.size == GoSize(v.numberType) && d.align == GoAlign(v.numberType) && ClassOf(d) == ValueClass(v)
            && d.kind != StructKind && d.size == d.align == KindSize(d.kind)
  {
  }

  // ---------- What C finds behind an argument's pointer ----------

  /** The bytes before the first NUL: what C takes for the string at a buffer. None if C would read past
      the end. */
  function CString(buffer: seq<byte>): Option<seq<byte>> {
    if buffer == [] then None
    else if buffer[0] == 0 then Some([])
    else
      match CString(buffer[1..])
      case None => None
      case Some(text) => Some([buffer[0]] + text)
  }

  /** The prefix of a Go string without a NUL in it: all of it, or what comes before its first NUL. */
  predicate IsTextOf(prefix: seq<byte>, text: seq<byte>) {
    && prefix <= text && 0 !in prefix
    && (|prefix| < |text| ==> text[|prefix|] == 0)
  }

  /** C finds the value it was meant to get: a number or an address as the word in memory, a bool as 0 or
      1, a string NUL-terminated with the text up to its own first NUL, and without a copy if it ends in
      one already, a function as the address of its callback, an array behind one more pointer, a struct
      as it is. */
  predicate CFinds(v: GoValue, c: Cell, callback: nat -> word) {
    match v
    case NumberValue(t, bits) => c.Bytes? && |c.bytes| == GoSize(t) && FromLittleEndian(c.bytes) == bits
    case BoolValue(b) => c.Bytes? && |c.bytes| == 1 && c.bytes[0] == if b then 1 else 0
    case AddressValue(_, addr) => c.Bytes? && |c.bytes| == 8 && FromLittleEndian(c.bytes) == addr
    case FuncValue(id) => c.Bytes? && |c.bytes| == 8 && FromLittleEndian(c.bytes) == callback(id)
    case StringValue(text) =>
      && c.AddressOf? && CString(c.buffer).Some? && IsTextOf(CString(c.buffer).value, text)
      && (text != [] && text[|text| - 1] == 0 ==> c.buffer == text)
    case ArrayValue(_, image) => c.AddressOf? && c.buffer == image
    case StructValue(_, image) => c.Bytes? && c.bytes == image
    case OtherValue => false
  }

  lemma {:induction false} TerminatedText(buffer: seq<byte>, text: seq<byte>)
    requires buffer == text + [0] || (buffer == text && text != [] && text[|text| - 1] == 0)
    ensures CString(buffer).Some? && IsTextOf(CString(buffer).value, text)
    decreases |text|
  {
    if text == [] || buffer[0] == 0 {
      assert [] <= text;
    } else {
      TerminatedText(buffer[1..], text[1..]);
      var rest := CString(buffer[1..]).value;
      assert text == [text[0]] + text[1..];
      assert CString(buffer).value == [text[0]] + rest;
    }
  }

  lemma WordArrives(addr: word)
    ensures FromLittleEndian(LittleEndian(addr, 8)) == addr
  {
    Pow256Of8();
    WordRoundTrip(addr, 8);
  }

  /** packArg puts behind the pointer what C is meant to find there. */
  lemma PackedArrives(v: GoValue, callback: nat -> word)
    requires WellTyped(v) && PackArg(v, callback).Some?
    ensures CFinds(v, PackArg(v, callback).value.0, callback)
  {
    match v
    case NumberValue(t, bits) => WordRoundTrip(bits, GoSize(t));
    case AddressValue(_, addr) => WordArrives(addr);
    case FuncValue(id) => WordArrives(callback(id));
    case StringValue(text) => TerminatedText(PackArg(v, callback).value.0.buffer, text);
    case _ =>
  }
}
