/** Signatures can be read back from their Objective-C encodings. */
module Decoding {
  import opened Words
  import opened GoTypes
  import opened Marshal
  import opened Encoding

  /** What an encoding distinguishes. int64, uint and uint64 are one scalar, as are ID and Block. */
  datatype ScalarShape =
    | ClassShape | ObjectShape | SelectorShape | BoolShape
    | CharShape | UCharShape | ShortShape | UShortShape | IntShape | UIntShape | LongShape | ULongShape
    | FloatShape | DoubleShape | CharPtrShape

  /** A struct behind a pointer is known by name only. `Word` is a bare uintptr. */
  datatype Shape =
    | Plain(scalar: ScalarShape)
    | Word
    | VoidPtr
    | PtrTo(to: Shape)
    | StructRef(name: string)
    | StructOf(name: string, fields: seq<Shape>)

  function ScalarOf(t: GoType): Option<ScalarShape> {
    match t
    case Uintptr(role) =>
      (match role
       case ClassName => Some(ClassShape)
       case IdName | BlockName => Some(ObjectShape)
       case SelName => Some(SelectorShape)
       case Plain => None)
    case Bool => Some(BoolShape)
    case Int => Some(LongShape)
    case Int8 => Some(CharShape)
    case Int16 => Some(ShortShape)
    case Int32 => Some(IntShape)
    case Int64 | Uint | Uint64 => Some(ULongShape)
    case Uint8 => Some(UCharShape)
    case Uint16 => Some(UShortShape)
    case Uint32 => Some(UIntShape)
    case Float32 => Some(FloatShape)
    case Float64 => Some(DoubleShape)
    case String => Some(CharPtrShape)
    case _ => None
  }

  predicate CleanName(name: string) {
    '{' !in name && '}' !in name && '=' !in name
  }

  /** The shape of a type; `None` for an unsupported kind or a struct name with `{`, `}` or `=`. */
  function ShapeOf(u: Universe, t: GoType, insidePtr: bool): (r: Option<Shape>)
    requires Stops(u, t, insidePtr)
    ensures r.Some? ==> !Fails(u, t, insidePtr)
    decreases if insidePtr then 0 else 1, if insidePtr then Depth(u, t) else 0, t, 0
  {
    match t
    case UnsafePointer => Some(VoidPtr)
    case Pointer(elem) =>
      PointerStep(u, t);
      FailsBehind(u, t, insidePtr);
      (match ShapeOf(u, u(elem), true)
       case None => None
       case Some(s) => Some(PtrTo(s)))
    case Struct(_, name, fields) =>
      if !CleanName(name) then None
      else if insidePtr then Some(StructRef(name))
      else
        (match ShapesOf(u, fields)
         case None => None
         case Some(ss) => Some(StructOf(name, ss)))
    case _ =>
      if t == Uintptr(UintptrName.Plain) then Some(Word)
      else
        (match ScalarOf(t)
         case None => None
         case Some(s) => Some(Shape.Plain(s)))
  }

  function ShapesOf(u: Universe, ts: seq<GoType>): (ss: Option<seq<Shape>>)
    requires StopsAll(u, ts)
    ensures ss.Some? ==> |ss.value| == |ts| && !FailsAll(u, ts)
    decreases 1, 0, ts, 0
  {
    if ts == [] then Some([])
    else
      var front := ShapesOf(u, Front(ts));
      if front.None? then None
      else
        var last := ShapeOf(u, Last(ts), false);
        if last.None? then None else Some(front.value + [last.value])
  }

  // ---------- Printing shapes ----------

  function Symbol(s: ScalarShape): char {
    match s
    case ClassShape => '#' case ObjectShape => '@' case SelectorShape => ':' case BoolShape => 'B'
    case CharShape => 'c' case UCharShape => 'C' case ShortShape => 's' case UShortShape => 'S'
    case IntShape => 'i' case UIntShape => 'I' case LongShape => 'l' case ULongShape => 'L'
    case FloatShape => 'f' case DoubleShape => 'd' case CharPtrShape => '*'
  }

  function ScalarFor(c: char): Option<ScalarShape> {
    match c
    case '#' => Some(ClassShape) case '@' => Some(ObjectShape) case ':' => Some(SelectorShape)
    case 'B' => Some(BoolShape) case 'c' => Some(CharShape) case 'C' => Some(UCharShape)
    case 's' => Some(ShortShape) case 'S' => Some(UShortShape) case 'i' => Some(IntShape)
    case 'I' => Some(UIntShape) case 'l' => Some(LongShape) case 'L' => Some(ULongShape)
    case 'f' => Some(FloatShape) case 'd' => Some(DoubleShape) case '*' => Some(CharPtrShape)
    case _ => None
  }

  function Show(s: Shape): (text: string)
    ensures |text| > 0
    decreases s, 0
  {
    match s
    case Plain(scalar) => [Symbol(scalar)]
    case Word => "^"
    case VoidPtr => "^v"
    case PtrTo(to) => "^" + Show(to)
    case StructRef(name) => "{" + name + "}"
    case StructOf(name, fields) => "{" + name + "=" + ShowAll(fields) + "}"
  }

  function ShowAll(ss: seq<Shape>): string
    decreases ss, 0
  {
    if ss == [] then "" else Show(ss[0]) + ShowAll(ss[1..])
  }

  lemma {:induction false} ShowAllAppend(ss: seq<Shape>, s: Shape)
    ensures ShowAll(ss + [s]) == ShowAll(ss) + Show(s)
    decreases |ss|
  {
    if ss == [] {
      assert [] + [s] == [s] && [s][1..] == [];
    } else {
      ShowAllAppend(ss[1..], s);
      assert (ss + [s])[1..] == ss[1..] + [s];
    }
  }

  /** The shapes of by-value types: names are clean, and a struct is known by its name alone exactly
      behind a pointer. */
  predicate Legal(s: Shape)
    decreases s, 0
  {
    match s
    case PtrTo(to) => LegalBehind(to)
    case StructRef(_) => false
    case StructOf(name, fields) => CleanName(name) && forall i :: 0 <= i < |fields| ==> Legal(fields[i])
    case _ => true
  }

  predicate LegalBehind(s: Shape)
    decreases s, 1
  {
    if s.StructRef? then CleanName(s.name) else Legal(s) && !s.StructOf?
  }

  predicate AllLegal(ss: seq<Shape>) {
    forall i :: 0 <= i < |ss| ==> Legal(ss[i])
  }

  /** encodeType prints the shape. */
  lemma {:induction false} EncodePrintsShape(u: Universe, t: GoType, insidePtr: bool)
    requires Stops(u, t, insidePtr) && ShapeOf(u, t, insidePtr).Some?
    ensures EncodeType(u, t, insidePtr) == Ok(Show(ShapeOf(u, t, insidePtr).value))
    ensures var s := ShapeOf(u, t, insidePtr).value; if insidePtr then LegalBehind(s) else Legal(s)
    decreases if insidePtr then 0 else 1, if insidePtr then Depth(u, t) else 0, t, 0
  {
    match t
    case Pointer(elem) =>
      PointerStep(u, t);
      EncodePrintsShape(u, u(elem), true);
    case Struct(_, name, fields) =>
      if !insidePtr {
        EncodePrintsShapes(u, fields);
      }
    case _ =>
  }

  lemma {:induction false} EncodePrintsShapes(u: Universe, ts: seq<GoType>)
    requires StopsAll(u, ts) && ShapesOf(u, ts).Some?
    ensures EncodeFields(u, ts) == Ok(ShowAll(ShapesOf(u, ts).value))
    ensures AllLegal(ShapesOf(u, ts).value)
    decreases 1, 0, ts, 0
  {
    if ts != [] {
      EncodePrintsShapes(u, Front(ts));
      EncodePrintsShape(u, Last(ts), false);
      ShowAllAppend(ShapesOf(u, Front(ts)).value, ShapeOf(u, Last(ts), false).value);
    }
  }

  // ---------- Parsing ----------

  /** The shapes the parser reads: names are clean and there is no bare uintptr. */
  predicate WellNamed(s: Shape)
    decreases s
  {
    match s
    case Word => false
    case PtrTo(to) => WellNamed(to)
    case StructRef(name) => CleanName(name)
    case StructOf(name, fields) => CleanName(name) && forall i :: 0 <= i < |fields| ==> WellNamed(fields[i])
    case _ => true
  }

  /** The length of the text before the first `}` or `=`. */
  function NameEnd(s: string): (n: nat)
    ensures n <= |s|
  {
    if s == "" || s[0] == '}' || s[0] == '=' then 0 else 1 + NameEnd(s[1..])
  }

  lemma {:induction false} NameEndOf(name: string, rest: string)
    requires CleanName(name) && rest != "" && (rest[0] == '}' || rest[0] == '=')
    ensures NameEnd(name + rest) == |name|
  {
    if name == "" {
      assert name + rest == rest;
    } else {
      assert name[0] in name;
      assert forall c :: c in name[1..] ==> c in name;
      NameEndOf(name[1..], rest);
      assert (name + rest)[1..] == name[1..] + rest;
    }
  }

  /** Reads one type off the front; returns what follows it. */
  function ParseType(s: string): (r: Option<(Shape, string)>)
    ensures r.Some? ==> |r.value.1| < |s|
    decreases |s|, 0
  {
    if s == "" then None
    else if s[0] == '^' then
      if |s| > 1 && s[1] == 'v' then Some((VoidPtr, s[2..]))
      else
        (match ParseType(s[1..])
         case None => None
         case Some((to, rest)) => Some((PtrTo(to), rest)))
    else if s[0] == '{' then
      var n := NameEnd(s[1..]);
      var name, rest := s[1..][..n], s[1..][n..];
      if rest == "" then None
      else if rest[0] == '}' then Some((StructRef(name), rest[1..]))
      else
        (match ParseFields(rest[1..])
         case None => None
         case Some((fields, rest')) => Some((StructOf(name, fields), rest')))
    else
      (match ScalarFor(s[0])
       case None => None
       case Some(scalar) => Some((Shape.Plain(scalar), s[1..])))
  }

  /** Reads types up to and including a closing brace. */
  function ParseFields(s: string): (r: Option<(seq<Shape>, string)>)
    ensures r.Some? ==> |r.value.1| < |s|
    decreases |s|, 1
  {
    if s == "" then None
    else if s[0] == '}' then Some(([], s[1..]))
    else
      match ParseType(s)
      case None => None
      case Some((first, rest)) =>
        match ParseFields(rest)
        case None => None
        case Some((more, rest')) => Some(([first] + more, rest'))
  }

  /** Reads types to the end. */
  function ParseAll(s: string): Option<seq<Shape>>
    decreases |s|
  {
    if s == "" then Some([])
    else
      match ParseType(s)
      case None => None
      case Some((first, rest)) =>
        match ParseAll(rest)
        case None => None
        case Some(more) => Some([first] + more)
  }

  /** The parser undoes the printer, whatever follows. */
  lemma {:induction false} ParseShow(s: Shape, rest: string)
    requires WellNamed(s)
    ensures ParseType(Show(s) + rest) == Some((s, rest))
    ensures Show(s)[0] != 'v' && Show(s)[0] != '}'
    decreases s, 0
  {
    var text := Show(s) + rest;
    match s
    case Plain(scalar) =>
      assert text[1..] == rest && text[0] == Symbol(scalar);
    case VoidPtr =>
      assert text[2..] == rest;
    case PtrTo(to) =>
      ParseShow(to, rest);
      assert text[1..] == Show(to) + rest && text[1] == Show(to)[0];
    case StructRef(name) =>
      ParseShowRef(name, rest);
    case StructOf(name, fields) =>
      ParseShowFields(fields, rest);
      ParseShowOf(name, fields, rest);
  }

  lemma ParseShowRef(name: string, rest: string)
    requires CleanName(name)
    ensures ParseType(Show(StructRef(name)) + rest) == Some((StructRef(name), rest))
  {
    var text := Show(StructRef(name)) + rest;
    NameSplits(name, "}" + rest);
    assert text[1..] == name + ("}" + rest);
    assert ("}" + rest)[1..] == rest;
  }

  lemma ParseShowOf(name: string, fields: seq<Shape>, rest: string)
    requires CleanName(name) && ParseFields(ShowAll(fields) + "}" + rest) == Some((fields, rest))
    ensures ParseType(Show(StructOf(name, fields)) + rest) == Some((StructOf(name, fields), rest))
  {
    ParseBrace(name, fields, ShowAll(fields) + "}" + rest, rest);
    RegroupStruct(name, ShowAll(fields), rest);
  }

  lemma RegroupStruct(name: string, body: string, rest: string)
    ensures "{" + name + "=" + body + "}" + rest == "{" + (name + ("=" + (body + "}" + rest)))
  {
  }

  lemma ParseBrace(name: string, fields: seq<Shape>, tail: string, rest: string)
    requires CleanName(name) && ParseFields(tail) == Some((fields, rest))
    ensures ParseType("{" + (name + ("=" + tail))) == Some((StructOf(name, fields), rest))
  {
    var text := "{" + (name + ("=" + tail));
    NameSplits(name, "=" + tail);
    assert text[1..] == name + ("=" + tail);
    assert ("=" + tail)[1..] == tail;
  }

  lemma NameSplits(name: string, rest: string)
    requires CleanName(name) && rest != "" && (rest[0] == '}' || rest[0] == '=')
    ensures var s := name + rest; NameEnd(s) == |name| && s[..|name|] == name && s[|name|..] == rest
  {
    NameEndOf(name, rest);
  }

  lemma {:induction false} ParseShowFields(ss: seq<Shape>, rest: string)
    requires forall i :: 0 <= i < |ss| ==> WellNamed(ss[i])
    ensures ParseFields(ShowAll(ss) + "}" + rest) == Some((ss, rest))
    decreases ss, 0
  {
    var text := ShowAll(ss) + "}" + rest;
    if ss == [] {
      assert text == "}" + rest && text[1..] == rest;
    } else {
      var after := ShowAll(ss[1..]) + "}" + rest;
      assert text == Show(ss[0]) + after;
      ParseShow(ss[0], after);
      ParseShowFields(ss[1..], rest);
      assert text[0] == Show(ss[0])[0];
      assert ss == [ss[0]] + ss[1..];
    }
  }

  lemma {:induction false} ParseShowAll(ss: seq<Shape>)
    requires forall i :: 0 <= i < |ss| ==> WellNamed(ss[i])
    ensures ParseAll(ShowAll(ss)) == Some(ss)
  {
    if ss != [] {
      ParseShow(ss[0], ShowAll(ss[1..]));
      ParseShowAll(ss[1..]);
      assert ss == [ss[0]] + ss[1..];
    }
  }

  // ---------- Signatures ----------

  /** A decoded signature; `result` is None for void. */
  datatype Decoded = Decoded(result: Option<Shape>, params: seq<Shape>)

  function ParseSignature(s: string): Option<Decoded> {
    if s != "" && s[0] == 'v' then
      (match ParseAll(s[1..])
       case None => None
       case Some(params) => Some(Decoded(None, params)))
    else
      match ParseType(s)
      case None => None
      case Some((result, rest)) =>
        match ParseAll(rest)
        case None => None
        case Some(params) => Some(Decoded(Some(result), params))
  }

  /** The shapes of a signature: the result, and every parameter, the first of which is always encoded
      as an object. `None` if some type has no encoding or a struct name is not clean. */
  ghost function SignatureShape(u: Universe, ty: FuncType): Option<Decoded>
    requires ty.ins != [] && SignatureStops(u, ty)
  {
    var result := if ty.outs == [] then None else ShapeOf(u, ty.outs[0], false);
    if ty.outs != [] && result.None? then None
    else
      var params := ShapesOf(u, ty.ins[1..]);
      if params.None? then None else Some(Decoded(result, [Shape.Plain(ObjectShape)] + params.value))
  }

  /** No bare uintptr occurs. */
  predicate Readable(d: Decoded) {
    && (d.result.Some? ==> WellNamed(d.result.value))
    && forall i :: 0 <= i < |d.params| ==> WellNamed(d.params[i])
  }

  /** A signature's shapes and that they all exist. */
  ghost predicate HasShape(u: Universe, ty: FuncType) {
    ty.ins != [] && SignatureStops(u, ty) && SignatureShape(u, ty).Some?
  }

  function ResultText(d: Decoded): (text: string)
    ensures text != ""
  {
    if d.result.None? then "v" else Show(d.result.value)
  }

  /** A signature's encoding is its shapes printed one after the other. */
  lemma SignaturePrintsShape(u: Universe, ty: FuncType)
    requires HasShape(u, ty)
    ensures var d := SignatureShape(u, ty).value;
            && Signature(u, ty) == Ok(ResultText(d) + ShowAll(d.params))
            && (d.result.Some? ==> Legal(d.result.value)) && AllLegal(d.params) && |d.params| == |ty.ins|
  {
    var d, params := SignatureShape(u, ty).value, ShapesOf(u, ty.ins[1..]).value;
    EncodePrintsShapes(u, ty.ins[1..]);
    if ty.outs != [] {
      EncodePrintsShape(u, ty.outs[0], false);
    }
    assert d.params[1..] == params && ShowAll(d.params) == "@" + ShowAll(params);
    Regroup(ResultText(d), "@", ShowAll(params));
  }

  /** The parser recovers result, parameter count and every type from any signature without a bare
      uintptr. */
  lemma SignatureDecodes(u: Universe, ty: FuncType)
    requires HasShape(u, ty) && Readable(SignatureShape(u, ty).value)
    ensures Signature(u, ty).Ok?
    ensures ParseSignature(Signature(u, ty).s) == SignatureShape(u, ty)
    ensures |SignatureShape(u, ty).value.params| == |ty.ins|
  {
    var d := SignatureShape(u, ty).value;
    SignaturePrintsShape(u, ty);
    ParseShowAll(d.params);
    if d.result.None? {
      VoidParses(ShowAll(d.params));
    } else {
      ResultParses(d.result.value, ShowAll(d.params));
    }
  }

  lemma VoidParses(params: string)
    requires ParseAll(params).Some?
    ensures ParseSignature("v" + params) == Some(Decoded(None, ParseAll(params).value))
  {
    assert ("v" + params)[1..] == params;
  }

  lemma ResultParses(result: Shape, params: string)
    requires WellNamed(result) && ParseAll(params).Some?
    ensures ParseSignature(Show(result) + params) == Some(Decoded(Some(result), ParseAll(params).value))
  {
    ParseShow(result, params);
    assert (Show(result) + params)[0] == Show(result)[0];
  }

  /** Two signatures without a bare uintptr have the same encoding exactly if they have the same shape. */
  lemma SameEncodingIff(u: Universe, ty: FuncType, ty': FuncType)
    requires HasShape(u, ty) && Readable(SignatureShape(u, ty).value)
    requires HasShape(u, ty') && Readable(SignatureShape(u, ty').value)
    ensures Signature(u, ty) == Signature(u, ty') <==> SignatureShape(u, ty) == SignatureShape(u, ty')
  {
    SignatureDecodes(u, ty);
    SignatureDecodes(u, ty');
    SignaturePrintsShape(u, ty);
    SignaturePrintsShape(u, ty');
  }
}
