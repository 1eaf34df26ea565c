/** When two signatures share an Objective-C encoding. A bare uintptr prints the sign that starts a
    pointer, so an encoding tells no more apart than a flat list of tokens does. */
module Ambiguity {
  import opened Words
  import opened GoTypes
  import opened Marshal
  import opened Encoding
  import opened Decoding

  /** A shape as tokens: a pointer to anything but a struct is a word followed by what it points to.
      Tokens are shapes themselves, with the fields of a struct flattened in turn. */
  function Flatten(s: Shape): (ts: seq<Shape>)
    ensures ts != []
    decreases s, 0
  {
    match s
    case PtrTo(to) => if to.StructRef? then [s] else [Word] + Flatten(to)
    case StructOf(name, fields) => [StructOf(name, FlattenAll(fields))]
    case _ => [s]
  }

  function FlattenAll(ss: seq<Shape>): seq<Shape>
    decreases ss, 0
  {
    if ss == [] then [] else Flatten(ss[0]) + FlattenAll(ss[1..])
  }

  predicate IsToken(s: Shape)
    decreases s
  {
    match s
    case PtrTo(to) => to.StructRef? && CleanName(to.name)
    case StructRef(_) => false
    case StructOf(name, fields) => CleanName(name) && forall i :: 0 <= i < |fields| ==> IsToken(fields[i])
    case _ => true
  }

  predicate AllTokens(ts: seq<Shape>) {
    forall i :: 0 <= i < |ts| ==> IsToken(ts[i])
  }

  lemma {:induction false} ShowAllConcat(a: seq<Shape>, b: seq<Shape>)
    ensures ShowAll(a + b) == ShowAll(a) + ShowAll(b)
    decreases |a|
  {
    if a == [] {
      assert a + b == b;
    } else {
      ShowAllConcat(a[1..], b);
      assert (a + b)[0] == a[0] && (a + b)[1..] == a[1..] + b;
      Regroup(Show(a[0]), ShowAll(a[1..]), ShowAll(b));
    }
  }

  lemma ShowOne(s: Shape)
    ensures ShowAll([s]) == Show(s)
  {
    assert [s][1..] == [];
  }

  /** The tokens print as the shape does. */
  lemma {:induction false} FlattenShows(s: Shape)
    requires Legal(s)
    ensures ShowAll(Flatten(s)) == Show(s) && AllTokens(Flatten(s))
    decreases s, 0
  {
    match s
    case PtrTo(to) =>
      if to.StructRef? {
        ShowOne(s);
      } else {
        FlattenShows(to);
        ShowAllConcat([Word], Flatten(to));
        ShowOne(Word);
      }
    case StructOf(name, fields) =>
      FlattenAllShows(fields);
      ShowOne(Flatten(s)[0]);
    case _ => ShowOne(s);
  }

  lemma {:induction false} FlattenAllShows(ss: seq<Shape>)
    requires AllLegal(ss)
    ensures ShowAll(FlattenAll(ss)) == ShowAll(ss) && AllTokens(FlattenAll(ss))
    decreases ss, 0
  {
    if ss != [] {
      FlattenShows(ss[0]);
      FlattenAllShows(ss[1..]);
      ShowAllConcat(Flatten(ss[0]), FlattenAll(ss[1..]));
    }
  }

  // ---------- Reading tokens ----------

  /** The text starts with a name that a closing brace ends, as a struct behind a pointer does. */
  predicate IsReference(s: string) {
    NameEnd(s) < |s| && s[NameEnd(s)] == '}'
  }

  function ParseToken(s: string): (r: Option<(Shape, string)>)
    ensures r.Some? ==> |r.value.1| < |s|
    decreases |s|, 0
  {
    if s == "" then None
    else if s[0] == '^' then
      if |s| > 1 && s[1] == 'v' then Some((VoidPtr, s[2..]))
      else if |s| > 1 && s[1] == '{' && IsReference(s[2..]) then
        var n := NameEnd(s[2..]);
        Some((PtrTo(StructRef(s[2..][..n])), s[2..][n + 1..]))
      else Some((Word, s[1..]))
    else if s[0] == '{' then
      var n := NameEnd(s[1..]);
      var name, rest := s[1..][..n], s[1..][n..];
      if rest == "" then None
      else
        (match ParseTokens(rest[1..])
         case None => None
         case Some((fields, rest')) => if rest' == "" then None else Some((StructOf(name, fields), rest'[1..])))
    else
      (match ScalarFor(s[0])
       case None => None
       case Some(scalar) => Some((Shape.Plain(scalar), s[1..])))
  }

  /** Reads tokens up to the end or a closing brace. */
  function ParseTokens(s: string): (r: Option<(seq<Shape>, string)>)
    ensures r.Some? ==> |r.value.1| <= |s|
    decreases |s|, 1
  {
    if s == "" || s[0] == '}' then Some(([], s))
    else
      match ParseToken(s)
      case None => None
      case Some((first, rest)) =>
        match ParseTokens(rest)
        case None => None
        case Some((more, rest')) => Some(([first] + more, rest'))
  }

  predicate Ends(rest: string) {
    rest == "" || rest[0] == '}'
  }

  /** What may follow a word without changing how the word is read. */
  predicate LeavesWord(rest: string) {
    rest != "" ==> rest[0] != 'v' && !(rest[0] == '{' && IsReference(rest[1..]))
  }

  lemma TokenStart(t: Shape, rest: string)
    requires IsToken(t)
    ensures var text := Show(t) + rest; text[0] != '}' && text[0] != 'v' && LeavesWord(text)
  {
    var text := Show(t) + rest;
    assert text[0] == Show(t)[0];
    if t.StructOf? {
      var tail := ShowAll(t.fields) + "}" + rest;
      RegroupStruct(t.name, ShowAll(t.fields), rest);
      NameSplits(t.name, "=" + tail);
      assert text[1..] == t.name + ("=" + tail);
    }
  }

  lemma TokensStart(ts: seq<Shape>, rest: string)
    requires AllTokens(ts) && Ends(rest)
    ensures LeavesWord(ShowAll(ts) + rest)
    ensures ts != [] ==> !Ends(ShowAll(ts) + rest)
  {
    if ts == [] {
      assert ShowAll(ts) + rest == rest;
    } else {
      Regroup(Show(ts[0]), ShowAll(ts[1..]), rest);
      TokenStart(ts[0], ShowAll(ts[1..]) + rest);
    }
  }

  lemma {:induction false} ParseShowToken(t: Shape, rest: string)
    requires IsToken(t) && LeavesWord(rest)
    ensures ParseToken(Show(t) + rest) == Some((t, rest))
    decreases t, 0
  {
    match t
    case Plain(scalar) => ParseScalar(scalar, rest);
    case Word => ParseWord(rest);
    case VoidPtr => ParseVoidPtr(rest);
    case PtrTo(to) => ParseReference(to.name, rest);
    case StructOf(name, fields) =>
      ParseShowTokens(fields, "}" + rest);
      assert ShowAll(fields) + ("}" + rest) == ShowAll(fields) + "}" + rest;
      ParseStruct(name, fields, ShowAll(fields) + "}" + rest, rest);
      RegroupStruct(name, ShowAll(fields), rest);
  }

  lemma ParseScalar(scalar: ScalarShape, rest: string)
    ensures ParseToken([Symbol(scalar)] + rest) == Some((Shape.Plain(scalar), rest))
  {
    var text := [Symbol(scalar)] + rest;
    SymbolReads(scalar);
    assert text[0] == Symbol(scalar) && text[1..] == rest;
  }

  lemma SymbolReads(scalar: ScalarShape)
    ensures ScalarFor(Symbol(scalar)) == Some(scalar)
    ensures Symbol(scalar) != '^' && Symbol(scalar) != '{'
  {
  }

  lemma ParseVoidPtr(rest: string)
    ensures ParseToken("^v" + rest) == Some((VoidPtr, rest))
  {
    var text := "^v" + rest;
    assert text[0] == '^' && text[1] == 'v' && text[2..] == rest;
  }

  lemma ParseWord(rest: string)
    requires LeavesWord(rest)
    ensures ParseToken("^" + rest) == Some((Word, rest))
  {
    var text := "^" + rest;
    assert text[1..] == rest;
    assert |text| > 1 ==> text[1] == rest[0] && text[2..] == rest[1..];
  }

  lemma ParseReference(name: string, rest: string)
    requires CleanName(name)
    ensures ParseToken(Show(PtrTo(StructRef(name))) + rest) == Some((PtrTo(StructRef(name)), rest))
  {
    ReferenceText(name, rest);
    ParseReferenceText(name, "}" + rest, rest);
  }

  lemma ReferenceText(name: string, rest: string)
    ensures Show(PtrTo(StructRef(name))) + rest == "^{" + (name + ("}" + rest))
  {
    assert Show(PtrTo(StructRef(name))) == "^" + ("{" + name + "}");
  }

  lemma ParseReferenceText(name: string, tail: string, rest: string)
    requires CleanName(name) && tail != "" && tail[0] == '}' && tail[1..] == rest
    ensures ParseToken("^{" + (name + tail)) == Some((PtrTo(StructRef(name)), rest))
  {
    var text, s := "^{" + (name + tail), name + tail;
    NameSplits(name, tail);
    assert text[0] == '^' && text[1] == '{' && text[2..] == s;
    assert s[|name|] == tail[0] && s[|name| + 1..] == tail[1..];
  }

  lemma ParseStruct(name: string, fields: seq<Shape>, tail: string, rest: string)
    requires CleanName(name) && ParseTokens(tail) == Some((fields, "}" + rest))
    ensures ParseToken("{" + (name + ("=" + tail))) == Some((StructOf(name, fields), rest))
  {
    var text := "{" + (name + ("=" + tail));
    NameSplits(name, "=" + tail);
    assert text[1..] == name + ("=" + tail);
    assert ("=" + tail)[1..] == tail && ("}" + rest)[1..] == rest;
  }

  /** The token parser undoes the printer. */
  lemma {:induction false} ParseShowTokens(ts: seq<Shape>, rest: string)
    requires AllTokens(ts) && Ends(rest)
    ensures ParseTokens(ShowAll(ts) + rest) == Some((ts, rest))
    decreases ts, 0
  {
    if ts == [] {
      assert ShowAll(ts) + rest == rest;
    } else {
      var after := ShowAll(ts[1..]) + rest;
      assert ShowAll(ts) + rest == Show(ts[0]) + after;
      TokensStart(ts[1..], rest);
      TokensStart(ts, rest);
      ParseShowToken(ts[0], after);
      ParseShowTokens(ts[1..], rest);
      assert ts == [ts[0]] + ts[1..];
    }
  }

  /** Lists of types print alike exactly if their tokens are the same. */
  lemma SameTextIff(ss: seq<Shape>, ss': seq<Shape>)
    requires AllLegal(ss) && AllLegal(ss')
    ensures ShowAll(ss) == ShowAll(ss') <==> FlattenAll(ss) == FlattenAll(ss')
  {
    FlattenAllShows(ss);
    FlattenAllShows(ss');
    ParseShowTokens(FlattenAll(ss), "");
    ParseShowTokens(FlattenAll(ss'), "");
    assert ShowAll(ss) + "" == ShowAll(ss) && ShowAll(ss') + "" == ShowAll(ss');
  }

  // ---------- Signatures ----------

  /** Result and parameters as one list; a void result is told apart by its own sign. */
  function Listed(d: Decoded): seq<Shape> {
    (if d.result.None? then [] else [d.result.value]) + d.params
  }

  lemma ListedText(d: Decoded)
    requires (d.result.Some? ==> Legal(d.result.value)) && AllLegal(d.params) && d.params != []
    ensures AllLegal(Listed(d))
    ensures ResultText(d) + ShowAll(d.params) == (if d.result.None? then "v" else "") + ShowAll(Listed(d))
    ensures ShowAll(Listed(d)) != "" && ShowAll(Listed(d))[0] != 'v'
  {
    if d.result.None? {
      assert Listed(d) == d.params;
    } else {
      ShowAllConcat([d.result.value], d.params);
      ShowOne(d.result.value);
    }
    FlattenAllShows(Listed(d));
    var tokens := FlattenAll(Listed(d));
    assert Listed(d) != [] && tokens != [];
    TokenStart(tokens[0], ShowAll(tokens[1..]));
  }

  function SignatureText(d: Decoded): string {
    ResultText(d) + ShowAll(d.params)
  }

  /** The shapes a signature can have: the receiver is always shown as an object. */
  predicate LegalSignature(d: Decoded) {
    && (d.result.Some? ==> Legal(d.result.value)) && AllLegal(d.params)
    && d.params != [] && d.params[0] == OBJECT
  }

  const OBJECT: Shape := Shape.Plain(ObjectShape)

  lemma SameSignatureTextIff(d: Decoded, d': Decoded)
    requires LegalSignature(d) && LegalSignature(d')
    ensures SignatureText(d) == SignatureText(d') <==>
            (d.result.None? <==> d'.result.None?) && FlattenAll(Listed(d)) == FlattenAll(Listed(d'))
  {
    ListedText(d);
    ListedText(d');
    SameTextIff(Listed(d), Listed(d'));
    SameBehindVoid(d.result.None?, ShowAll(Listed(d)), d'.result.None?, ShowAll(Listed(d')));
  }

  /** For any two signatures with encodings and clean struct names, bare uintptrs or not: the encodings
      are equal exactly if both or neither return void and the tokens of result, receiver and
      parameters are the same. */
  lemma SharedEncodingIff(u: Universe, ty: FuncType, u': Universe, ty': FuncType)
    requires HasShape(u, ty) && HasShape(u', ty')
    ensures var d, d' := SignatureShape(u, ty).value, SignatureShape(u', ty').value;
            Signature(u, ty) == Signature(u', ty') <==>
            (d.result.None? <==> d'.result.None?) && FlattenAll(Listed(d)) == FlattenAll(Listed(d'))
  {
    SignaturePrintsShape(u, ty);
    SignaturePrintsShape(u', ty');
    SameSignatureTextIff(SignatureShape(u, ty).value, SignatureShape(u', ty').value);
  }

  lemma SameBehindVoid(void: bool, text: string, void': bool, text': string)
    requires text != "" && text[0] != 'v' && text' != "" && text'[0] != 'v'
    ensures (if void then "v" else "") + text == (if void' then "v" else "") + text' <==>
            void == void' && text == text'
  {
    var a, a' := (if void then "v" else "") + text, (if void' then "v" else "") + text';
    assert void ==> a[0] == 'v' && a[1..] == text;
    assert void' ==> a'[0] == 'v' && a'[1..] == text';
    assert !void ==> a == text;
    assert !void' ==> a' == text';
  }

  // ---------- Which lists of types share their encoding with another ----------

  /** A word stands before something a pointer could point to. */
  ghost predicate Reinterpretable(ts: seq<Shape>)
    decreases ts
  {
    || (exists i :: 0 <= i < |ts| - 1 && ts[i] == Word && !ts[i + 1].StructOf?)
    || (exists i :: 0 <= i < |ts| && ts[i].StructOf? && Reinterpretable(ts[i].fields))
  }

  lemma {:induction false} FlattenConcat(a: seq<Shape>, b: seq<Shape>)
    ensures FlattenAll(a + b) == FlattenAll(a) + FlattenAll(b)
    decreases |a|
  {
    if a == [] {
      assert a + b == b;
    } else {
      FlattenConcat(a[1..], b);
      assert (a + b)[1..] == a[1..] + b;
    }
  }

  /** A list in which nothing can be reread is its own token list. */
  lemma {:induction false} FlatAlready(ss: seq<Shape>)
    requires AllLegal(ss) && !Reinterpretable(FlattenAll(ss))
    ensures FlattenAll(ss) == ss
    decreases ss
  {
    if ss != [] {
      var s, first, rest := ss[0], Flatten(ss[0]), FlattenAll(ss[1..]);
      var all := FlattenAll(ss);
      assert forall i :: 0 <= i < |rest| ==> all[|first| + i] == rest[i];
      FlatAlready(ss[1..]);
      PointerIsReread(s, ss[1..]);
      if s.StructOf? {
        assert all[0] == first[0] && !Reinterpretable(all[0].fields);
        FlatAlready(s.fields);
      }
      assert ss == [s] + ss[1..];
    }
  }

  lemma PointerIsReread(s: Shape, rest: seq<Shape>)
    requires Legal(s)
    ensures s.PtrTo? && !s.to.StructRef? ==> Reinterpretable(Flatten(s) + FlattenAll(rest))
  {
    if s.PtrTo? && !s.to.StructRef? {
      var all, behind := Flatten(s) + FlattenAll(rest), Flatten(s.to);
      assert LegalBehind(s.to) && !behind[0].StructOf?;
      assert all[0] == Word && all[1] == behind[0];
    }
  }

  lemma {:induction false} TokensAreFlat(ts: seq<Shape>)
    requires AllTokens(ts)
    ensures FlattenAll(ts) == ts && AllLegal(ts)
    decreases ts
  {
    if ts != [] {
      TokensAreFlat(ts[1..]);
      var t := ts[0];
      if t.StructOf? {
        TokensAreFlat(t.fields);
      }
      FlatToken(t);
      assert ts == [t] + ts[1..];
      assert forall i :: 0 < i < |ts| ==> ts[i] == ts[1..][i - 1];
    }
  }

  lemma FlatToken(t: Shape)
    requires IsToken(t)
    requires t.StructOf? ==> FlattenAll(t.fields) == t.fields && AllLegal(t.fields)
    ensures Legal(t) && Flatten(t) == [t]
  {
    match t
    case StructOf(name, fields) => assert Flatten(t) == [StructOf(name, fields)];
    case PtrTo(to) => assert LegalBehind(to);
    case _ =>
  }

  /** Reading one word and what follows it as a pointer gives another list with the same text. */
  lemma {:induction false} Reread(ts: seq<Shape>) returns (ss: seq<Shape>)
    requires AllTokens(ts) && Reinterpretable(ts)
    ensures AllLegal(ss) && ss != ts && ShowAll(ss) == ShowAll(ts)
    decreases ts
  {
    if i :| 0 <= i < |ts| - 1 && ts[i] == Word && !ts[i + 1].StructOf? {
      TokenIsLegal(ts[i + 1]);
      PointerText(ts[i + 1]);
      ss := Replaced(ts, i, i + 2, [Word, ts[i + 1]], [PtrTo(ts[i + 1])]);
    } else {
      var i :| 0 <= i < |ts| && ts[i].StructOf? && Reinterpretable(ts[i].fields);
      var fields := Reread(ts[i].fields);
      var t := StructOf(ts[i].name, fields);
      ShowOne(t);
      ShowOne(ts[i]);
      ss := Replaced(ts, i, i + 1, [ts[i]], [t]);
    }
  }

  lemma TokenIsLegal(t: Shape)
    requires IsToken(t)
    ensures Legal(t)
  {
    TokensAreFlat([t]);
  }

  lemma Replaced(ts: seq<Shape>, i: nat, j: nat, old_: seq<Shape>, new_: seq<Shape>) returns (ss: seq<Shape>)
    requires AllTokens(ts) && i <= j <= |ts| && old_ == ts[i..j] && old_ != new_
    requires AllLegal(new_) && ShowAll(new_) == ShowAll(old_)
    ensures AllLegal(ss) && ss != ts && ShowAll(ss) == ShowAll(ts)
  {
    TokensAreFlat(ts);
    ss := ts[..i] + (new_ + ts[j..]);
    SameShown(ts[..i], new_, old_, ts[j..]);
    Splice(ts, i, j, new_);
  }

  lemma Splice(ts: seq<Shape>, i: nat, j: nat, new_: seq<Shape>)
    requires i <= j <= |ts|
    ensures ts[..i] + (ts[i..j] + ts[j..]) == ts
    ensures new_ != ts[i..j] ==> ts[..i] + (new_ + ts[j..]) != ts
  {
    var ss := ts[..i] + (new_ + ts[j..]);
    assert |new_| == j - i ==> ss[i..j] == new_;
  }

  lemma PointerText(s: Shape)
    ensures ShowAll([PtrTo(s)]) == ShowAll([Word, s])
  {
    ShowOne(PtrTo(s));
    ShowOne(s);
    assert [Word, s][1..] == [s];
  }

  lemma SameShown(before: seq<Shape>, a: seq<Shape>, b: seq<Shape>, after: seq<Shape>)
    requires ShowAll(a) == ShowAll(b)
    ensures ShowAll(before + (a + after)) == ShowAll(before + (b + after))
  {
    ShowAllConcat(before, a + after);
    ShowAllConcat(before, b + after);
    ShowAllConcat(a, after);
    ShowAllConcat(b, after);
  }

  /** A list of parameter or field types shares its text with another list exactly if among its tokens
      a word comes before anything but a struct held by value: if it has a pointer to a type other than
      a struct, or a bare uintptr followed by such a type. */
  lemma AmbiguousIff(ss: seq<Shape>)
    requires AllLegal(ss)
    ensures (exists ss' :: AllLegal(ss') && ss' != ss && ShowAll(ss') == ShowAll(ss)) <==>
            Reinterpretable(FlattenAll(ss))
  {
    var ts := FlattenAll(ss);
    FlattenAllShows(ss);
    if Reinterpretable(ts) {
      TokensAreFlat(ts);
      var ss' := if ts != ss then ts else [];
      if ts == ss {
        ss' := Reread(ts);
      }
      assert AllLegal(ss') && ss' != ss && ShowAll(ss') == ShowAll(ss);
    }
    if ss' :| AllLegal(ss') && ss' != ss && ShowAll(ss') == ShowAll(ss) {
      SameTextIff(ss, ss');
      if !Reinterpretable(ts) {
        FlatAlready(ss);
        FlatAlready(ss');
      }
    }
  }

  lemma {:induction false} ShapesConcat(u: Universe, a: seq<GoType>, b: seq<GoType>)
    requires StopsAll(u, a + b) && ShapesOf(u, a + b).Some?
    ensures StopsAll(u, a) && ShapesOf(u, a).Some? && StopsAll(u, b) && ShapesOf(u, b).Some?
    ensures ShapesOf(u, a + b).value == ShapesOf(u, a).value + ShapesOf(u, b).value
    decreases |b|
  {
    if b == [] {
      assert a + b == a;
    } else {
      assert Front(a + b) == a + Front(b);
      ShapesConcat(u, a, Front(b));
    }
  }

  /** A bare uintptr is ambiguous wherever a type other than a struct follows: any parameters
      (..., uintptr, T, ...) print as (..., *T, ...). */
  lemma BareUintptrIsAmbiguous(u: Universe, before: seq<GoType>, elem: TypeId, after: seq<GoType>)
    requires !u(elem).Struct?
    requires var words := before + ([Uintptr(UintptrName.Plain), u(elem)] + after);
             StopsAll(u, words) && ShapesOf(u, words).Some?
    requires var pointer := before + ([Pointer(elem)] + after);
             StopsAll(u, pointer) && ShapesOf(u, pointer).Some?
    ensures EncodeFields(u, before + ([Uintptr(UintptrName.Plain), u(elem)] + after)) ==
            EncodeFields(u, before + ([Pointer(elem)] + after))
  {
    var two, one := [Uintptr(UintptrName.Plain), u(elem)], [Pointer(elem)];
    EncodePrintsShapes(u, before + (two + after));
    EncodePrintsShapes(u, before + (one + after));
    ShapesConcat(u, before, two + after);
    ShapesConcat(u, two, after);
    ShapesConcat(u, before, one + after);
    ShapesConcat(u, one, after);
    WordAndType(u, elem);
    SameShown(ShapesOf(u, before).value, ShapesOf(u, two).value, ShapesOf(u, one).value, ShapesOf(u, after).value);
  }

  lemma WordAndType(u: Universe, elem: TypeId)
    requires !u(elem).Struct?
    requires var two := [Uintptr(UintptrName.Plain), u(elem)]; StopsAll(u, two) && ShapesOf(u, two).Some?
    requires StopsAll(u, [Pointer(elem)]) && ShapesOf(u, [Pointer(elem)]).Some?
    ensures ShowAll(ShapesOf(u, [Uintptr(UintptrName.Plain), u(elem)]).value) ==
            ShowAll(ShapesOf(u, [Pointer(elem)]).value)
  {
    var word, t := Uintptr(UintptrName.Plain), u(elem);
    var s := ShapeOf(u, Pointer(elem), false).value.to;
    assert [word, t] == [word] + [t];
    ShapesConcat(u, [word], [t]);
    OneShape(u, word);
    OneShape(u, t);
    OneShape(u, Pointer(elem));
    assert ShapeOf(u, t, false) == ShapeOf(u, t, true) == Some(s);
    PointerText(s);
    assert [Word] + [s] == [Word, s];
  }

  lemma OneShape(u: Universe, t: GoType)
    requires StopsAll(u, [t]) && ShapesOf(u, [t]).Some?
    ensures Stops(u, t, false) && ShapeOf(u, t, false).Some? && ShapesOf(u, [t]) == Some([ShapeOf(u, t, false).value])
  {
    assert Front([t]) == [] && Last([t]) == t;
    var s := ShapeOf(u, t, false);
    assert s.Some? ==> [] + [s.value] == [s.value];
  }

  // ---------- Every list of shapes belongs to Go types ----------

  /** What the pointers in a shape point to. */
  function Pointees(s: Shape): seq<Shape>
    decreases s, 0
  {
    match s
    case PtrTo(to) => [to] + Pointees(to)
    case StructOf(_, fields) => AllPointees(fields)
    case _ => []
  }

  function AllPointees(ss: seq<Shape>): seq<Shape>
    decreases ss, 0
  {
    if ss == [] then [] else AllPointees(Front(ss)) + Pointees(Last(ss))
  }

  /** A table that has every pointee of a shape. */
  predicate Covers(table: seq<Shape>, s: Shape)
    decreases s, 0
  {
    match s
    case PtrTo(to) => to in table && Covers(table, to)
    case StructOf(_, fields) => CoversAll(table, fields)
    case _ => true
  }

  predicate CoversAll(table: seq<Shape>, ss: seq<Shape>)
    decreases ss, 0
  {
    ss == [] || (CoversAll(table, Front(ss)) && Covers(table, Last(ss)))
  }

  lemma {:induction false} PointeesCover(table: seq<Shape>, s: Shape)
    requires forall x :: x in Pointees(s) ==> x in table
    ensures Covers(table, s)
    decreases s, 0
  {
    match s
    case PtrTo(to) =>
      assert to in Pointees(s);
      PointeesCover(table, to);
    case StructOf(_, fields) => AllPointeesCover(table, fields);
    case _ =>
  }

  lemma {:induction false} AllPointeesCover(table: seq<Shape>, ss: seq<Shape>)
    requires forall x :: x in AllPointees(ss) ==> x in table
    ensures CoversAll(table, ss)
    decreases ss, 0
  {
    if ss != [] {
      AllPointeesCover(table, Front(ss));
      PointeesCover(table, Last(ss));
    }
  }

  function IndexOf(table: seq<Shape>, s: Shape): (i: nat)
    requires s in table
    ensures i < |table| && table[i] == s
  {
    if table[0] == s then 0 else 1 + IndexOf(table[1..], s)
  }

  function ScalarType(scalar: ScalarShape): (t: GoType)
    ensures ScalarOf(t) == Some(scalar)
  {
    match scalar
    case ClassShape => Uintptr(ClassName) case ObjectShape => Uintptr(IdName) case SelectorShape => Uintptr(SelName)
    case BoolShape => Bool case CharShape => Int8 case UCharShape => Uint8 case ShortShape => Int16
    case UShortShape => Uint16 case IntShape => Int32 case UIntShape => Uint32 case LongShape => Int
    case ULongShape => Uint64 case FloatShape => Float32 case DoubleShape => Float64 case CharPtrShape => String
  }

  /** A Go type of a given shape, with pointers numbered by the table. */
  function TypeIn(table: seq<Shape>, s: Shape): GoType
    requires Covers(table, s)
    decreases s, 0
  {
    match s
    case Plain(scalar) => ScalarType(scalar)
    case Word => Uintptr(UintptrName.Plain)
    case VoidPtr => UnsafePointer
    case PtrTo(to) => Pointer(IndexOf(table, to))
    case StructRef(name) => Struct("", name, [])
    case StructOf(name, fields) => Struct("", name, TypesIn(table, fields))
  }

  function TypesIn(table: seq<Shape>, ss: seq<Shape>): (ts: seq<GoType>)
    requires CoversAll(table, ss)
    ensures |ts| == |ss|
    decreases ss, 0
  {
    if ss == [] then [] else TypesIn(table, Front(ss)) + [TypeIn(table, Last(ss))]
  }

  function UniverseOf(table: seq<Shape>): Universe {
    (id: TypeId) => if id < |table| && Covers(table, table[id]) then TypeIn(table, table[id]) else Int
  }

  lemma {:induction false} TypeHasShape(table: seq<Shape>, s: Shape, insidePtr: bool)
    requires Covers(table, s) && if insidePtr then LegalBehind(s) else Legal(s)
    ensures Stops(UniverseOf(table), TypeIn(table, s), insidePtr)
    ensures ShapeOf(UniverseOf(table), TypeIn(table, s), insidePtr) == Some(s)
    decreases s, 0
  {
    match s
    case PtrTo(to) =>
      TypeHasShape(table, to, true);
      OneMorePointer(UniverseOf(table), TypeIn(table, s));
    case StructOf(_, fields) => TypesHaveShapes(table, fields);
    case _ =>
  }

  lemma {:induction false} TypesHaveShapes(table: seq<Shape>, ss: seq<Shape>)
    requires CoversAll(table, ss) && AllLegal(ss)
    ensures StopsAll(UniverseOf(table), TypesIn(table, ss))
    ensures ShapesOf(UniverseOf(table), TypesIn(table, ss)) == Some(ss)
    decreases ss, 0
  {
    if ss != [] {
      TypesHaveShapes(table, Front(ss));
      TypeHasShape(table, Last(ss), false);
      assert ss == Front(ss) + [Last(ss)];
      assert Front(TypesIn(table, ss)) == TypesIn(table, Front(ss));
    }
  }

  /** Every legal list of shapes is that of some Go types. */
  lemma ListOfTypes(ss: seq<Shape>) returns (u: Universe, ts: seq<GoType>)
    requires AllLegal(ss)
    ensures StopsAll(u, ts) && ShapesOf(u, ts) == Some(ss)
  {
    var table := AllPointees(ss);
    AllPointeesCover(table, ss);
    TypesHaveShapes(table, ss);
    u, ts := UniverseOf(table), TypesIn(table, ss);
  }

  /** Go types with another list of shapes and the same encoding. */
  ghost predicate ShareText(u': Universe, ts': seq<GoType>, u: Universe, ts: seq<GoType>)
    requires StopsAll(u, ts) && ShapesOf(u, ts).Some?
  {
    && StopsAll(u', ts') && ShapesOf(u', ts').Some? && ShapesOf(u', ts') != ShapesOf(u, ts)
    && EncodeFields(u', ts') == EncodeFields(u, ts)
  }

  /** AmbiguousIff in terms of Go types. */
  lemma TypesAmbiguousIff(u: Universe, ts: seq<GoType>)
    requires StopsAll(u, ts) && ShapesOf(u, ts).Some?
    ensures (exists u', ts' :: ShareText(u', ts', u, ts)) <==> Reinterpretable(FlattenAll(ShapesOf(u, ts).value))
  {
    var ss := ShapesOf(u, ts).value;
    EncodePrintsShapes(u, ts);
    AmbiguousIff(ss);
    if Reinterpretable(FlattenAll(ss)) {
      var ss' :| AllLegal(ss') && ss' != ss && ShowAll(ss') == ShowAll(ss);
      var u', ts' := ListOfTypes(ss');
      EncodePrintsShapes(u', ts');
      assert ShareText(u', ts', u, ts);
    }
    if u', ts' :| ShareText(u', ts', u, ts) {
      EncodePrintsShapes(u', ts');
      assert ShowAll(ShapesOf(u', ts').value) == ShowAll(ss);
    }
  }

  /** Every legal signature is that of some Go function type. */
  lemma SignatureOfType(d: Decoded) returns (u: Universe, ty: FuncType)
    requires LegalSignature(d)
    ensures HasShape(u, ty) && SignatureShape(u, ty) == Some(d)
  {
    var params := d.params[1..];
    assert d.params == [OBJECT] + params;
    var table := AllPointees(params) + if d.result.Some? then Pointees(d.result.value) else [];
    AllPointeesCover(table, params);
    TypesHaveShapes(table, params);
    u := UniverseOf(table);
    var ins, outs := [Uintptr(IdName)] + TypesIn(table, params), [];
    if d.result.Some? {
      PointeesCover(table, d.result.value);
      TypeHasShape(table, d.result.value, false);
      outs := [TypeIn(table, d.result.value)];
    }
    ty := FuncType(ins, outs, false);
    assert ty.ins[1..] == TypesIn(table, params);
  }

  // ---------- Which signatures share their encoding with another ----------

  /** A chain of pointers that ends in an object, or in a word. */
  predicate EndsInObject(s: Shape) {
    s.PtrTo? && (s.to == OBJECT || EndsInObject(s.to))
  }

  predicate AllWords(s: Shape) {
    s == Word || (s.PtrTo? && AllWords(s.to))
  }

  /** A signature has another reading: something among its parameters can be reread; or the fields of
      its result can; or its result ends in an object, which could be the receiver; or its result is
      words only and the first parameter an object, which could be the receiver while the receiver
      belongs to the result. */
  ghost predicate Rereadable(d: Decoded)
    requires d.params != []
  {
    || Reinterpretable(FlattenAll(d.params[1..]))
    || (d.result.Some? && ResultRereadable(d.result.value, d.params[1..]))
  }

  ghost predicate ResultRereadable(r: Shape, params: seq<Shape>) {
    || (r.StructOf? && Reinterpretable(FlattenAll(r.fields)))
    || EndsInObject(r)
    || (AllWords(r) && params != [] && params[0] == OBJECT)
  }

  /** The result without the object it ends in, and with the receiver added to it. */
  function Shorter(s: Shape): (r: Shape)
    requires EndsInObject(s)
    ensures Legal(r) && !r.StructRef? && !r.StructOf?
  {
    if s.to == OBJECT then Word else PtrTo(Shorter(s.to))
  }

  function Longer(s: Shape): (r: Shape)
    requires AllWords(s)
    ensures Legal(r) && !r.StructRef? && !r.StructOf?
  {
    if s == Word then PtrTo(OBJECT) else PtrTo(Longer(s.to))
  }

  lemma {:induction false} ShorterText(s: Shape)
    requires EndsInObject(s)
    ensures Show(s) == Show(Shorter(s)) + "@"
  {
    if s.to != OBJECT {
      ShorterText(s.to);
      Regroup("^", Show(Shorter(s.to)), "@");
    }
  }

  lemma {:induction false} LongerText(s: Shape)
    requires AllWords(s)
    ensures Show(Longer(s)) == Show(s) + "@"
  {
    if s != Word {
      LongerText(s.to);
      Regroup("^", Show(s.to), "@");
    }
  }

  ghost predicate IsOtherReading(d': Decoded, d: Decoded) {
    LegalSignature(d') && d' != d && SignatureText(d') == SignatureText(d)
  }

  lemma ShowReceiver(params: seq<Shape>)
    ensures ShowAll([OBJECT] + params) == "@" + ShowAll(params)
  {
    ShowAllConcat([OBJECT], params);
    ShowOne(OBJECT);
  }

  /** Rereading parameters or fields. */
  lemma RereadList(d: Decoded) returns (d': Decoded)
    requires LegalSignature(d) && Reinterpretable(FlattenAll(d.params[1..]))
    ensures IsOtherReading(d', d)
  {
    var params := d.params[1..];
    AmbiguousIff(params);
    var ss :| AllLegal(ss) && ss != params && ShowAll(ss) == ShowAll(params);
    d' := Decoded(d.result, [OBJECT] + ss);
    assert d.params == [OBJECT] + params && d'.params[1..] == ss;
    ShowReceiver(params);
    ShowReceiver(ss);
  }

  lemma RereadFields(d: Decoded) returns (d': Decoded)
    requires LegalSignature(d) && d.result.Some? && d.result.value.StructOf?
    requires Reinterpretable(FlattenAll(d.result.value.fields))
    ensures IsOtherReading(d', d)
  {
    var r := d.result.value;
    AmbiguousIff(r.fields);
    var ss :| AllLegal(ss) && ss != r.fields && ShowAll(ss) == ShowAll(r.fields);
    d' := Decoded(Some(StructOf(r.name, ss)), d.params);
  }

  lemma RereadShorter(d: Decoded) returns (d': Decoded)
    requires LegalSignature(d) && d.result.Some? && EndsInObject(d.result.value)
    ensures IsOtherReading(d', d)
  {
    var r := d.result.value;
    d' := Decoded(Some(Shorter(r)), [OBJECT] + d.params);
    ShorterText(r);
    ShowReceiver(d.params);
    Regroup(Show(Shorter(r)), "@", ShowAll(d.params));
    assert |d'.params| > |d.params|;
  }

  lemma RereadLonger(d: Decoded) returns (d': Decoded)
    requires LegalSignature(d) && d.result.Some? && AllWords(d.result.value)
    requires |d.params| > 1 && d.params[1] == OBJECT
    ensures IsOtherReading(d', d)
  {
    var r, params := d.result.value, d.params[1..];
    d' := Decoded(Some(Longer(r)), params);
    LongerText(r);
    assert d.params == [OBJECT] + params;
    ShowReceiver(params);
    Regroup(Show(r), "@", ShowAll(params));
    assert |params| < |d.params|;
  }

  /** Two readings of the same tokens as a result and what follows the receiver. */
  lemma {:induction false} Readings(r: Shape, rest: seq<Shape>, r': Shape, rest': seq<Shape>)
    requires Legal(r) && Legal(r') && Flatten(r) + rest == Flatten(r') + rest'
    requires rest != [] && rest' != [] && rest[0] == rest'[0] == OBJECT
    ensures || (Flatten(r) == Flatten(r') && rest == rest')
            || EndsInObject(r)
            || (AllWords(r) && |rest| > 1 && rest[1] == OBJECT)
    decreases r
  {
    var all := Flatten(r) + rest;
    assert all[0] == Flatten(r)[0] == Flatten(r')[0];
    if r.PtrTo? && !r.to.StructRef? {
      assert all[1..] == Flatten(r.to) + rest;
      if r'.PtrTo? {
        assert all[1..] == Flatten(r'.to) + rest';
        Readings(r.to, rest, r'.to, rest');
      } else {
        assert all[1..] == rest' && all[1] == Flatten(r.to)[0] == OBJECT;
      }
    } else if r == Word {
      WordReadings(rest, r', rest');
    } else {
      assert all[1..] == rest && all[1..] == rest';
    }
  }

  lemma WordReadings(rest: seq<Shape>, r': Shape, rest': seq<Shape>)
    requires Legal(r') && [Word] + rest == Flatten(r') + rest'
    requires rest != [] && rest' != [] && rest[0] == rest'[0] == OBJECT
    ensures (Flatten(r') == [Word] && rest == rest') || (|rest| > 1 && rest[1] == OBJECT)
  {
    var all := [Word] + rest;
    assert all[0] == Flatten(r')[0] && all[1..] == rest;
    if r'.PtrTo? {
      assert all[1..] == Flatten(r'.to) + rest';
      FirstObject(r'.to);
      assert rest[1] == rest'[0];
    } else {
      assert all[1..] == rest';
    }
  }

  lemma FirstObject(s: Shape)
    requires Flatten(s)[0] == OBJECT
    ensures s == OBJECT && Flatten(s) == [OBJECT]
  {
  }

  /** Only the fields of a struct can be lost in flattening. */
  lemma {:induction false} FlattenSame(r: Shape, r': Shape)
    requires Legal(r) && Legal(r') && Flatten(r) == Flatten(r') && r != r'
    ensures r.StructOf? && Reinterpretable(FlattenAll(r.fields))
    decreases r
  {
    if r.PtrTo? && !r.to.StructRef? {
      assert Flatten(r)[1..] == Flatten(r.to) && Flatten(r')[0] == Word && |Flatten(r')| > 1;
      assert Flatten(r')[1..] == Flatten(r'.to);
      FlattenSame(r.to, r'.to);
    } else {
      assert Flatten(r)[0] == Flatten(r')[0];
      if r.StructOf? {
        SameTextIff(r.fields, r'.fields);
        AmbiguousIff(r.fields);
      }
    }
  }

  lemma ListedTokens(d: Decoded)
    requires LegalSignature(d)
    ensures FlattenAll(d.params) == [OBJECT] + FlattenAll(d.params[1..])
    ensures FlattenAll(Listed(d)) == (if d.result.None? then [] else Flatten(d.result.value)) + FlattenAll(d.params)
  {
    if d.result.Some? {
      assert Listed(d)[1..] == d.params;
    } else {
      assert Listed(d) == d.params;
    }
  }

  lemma OtherIsRereading(d: Decoded, d': Decoded)
    requires LegalSignature(d) && IsOtherReading(d', d)
    ensures Rereadable(d)
  {
    SameSignatureTextIff(d, d');
    ListedTokens(d);
    ListedTokens(d');
    var rest, rest' := FlattenAll(d.params), FlattenAll(d'.params);
    if d.result.None? {
      assert [] + rest == rest && [] + rest' == rest';
      SameRest(d, d');
    } else {
      Readings(d.result.value, rest, d'.result.value, rest');
      if rest == rest' {
        SameRest(d, d');
      } else if !EndsInObject(d.result.value) {
        assert rest[1] == FlattenAll(d.params[1..])[0];
        FirstParameter(d.params[1..]);
      }
    }
  }

  lemma FirstParameter(params: seq<Shape>)
    requires FlattenAll(params) != [] && FlattenAll(params)[0] == OBJECT
    ensures params != [] && params[0] == OBJECT
  {
    assert FlattenAll(params)[0] == Flatten(params[0])[0];
    FirstObject(params[0]);
  }

  /** Two readings whose results have the same tokens. */
  lemma SameRest(d: Decoded, d': Decoded)
    requires LegalSignature(d) && LegalSignature(d') && d != d'
    requires d.result.None? <==> d'.result.None?
    requires FlattenAll(d.params) == FlattenAll(d'.params)
    requires FlattenAll(Listed(d)) == FlattenAll(Listed(d'))
    ensures Rereadable(d)
  {
    ListedTokens(d);
    ListedTokens(d');
    var params, params' := d.params[1..], d'.params[1..];
    assert FlattenAll(d.params)[1..] == FlattenAll(params) && FlattenAll(d'.params)[1..] == FlattenAll(params');
    if params != params' {
      SameTextIff(params, params');
      AmbiguousIff(params);
    } else {
      assert d.params == [OBJECT] + params && d'.params == [OBJECT] + params';
      assert d.result.Some? && d.result != d'.result;
      SameFront(Flatten(d.result.value), Flatten(d'.result.value), FlattenAll(d.params));
      FlattenSame(d.result.value, d'.result.value);
    }
  }

  lemma SameFront(a: seq<Shape>, b: seq<Shape>, rest: seq<Shape>)
    requires a + rest == b + rest
    ensures a == b
  {
    assert |a| == |b|;
    assert a == (a + rest)[..|a|] && b == (b + rest)[..|b|];
  }

  /** A signature shares its encoding with a Go function type of another shape, in this universe of types
      or another, exactly if it is rereadable. */
  lemma SignatureAmbiguousIff(u: Universe, ty: FuncType)
    requires HasShape(u, ty)
    ensures (exists u', ty' :: SharesEncoding(u', ty', u, ty)) <==> Rereadable(SignatureShape(u, ty).value)
  {
    var d := SignatureShape(u, ty).value;
    SignaturePrintsShape(u, ty);
    if Rereadable(d) {
      var d' := AnotherReading(d);
      var u', ty' := SignatureOfType(d');
      SignaturePrintsShape(u', ty');
      assert SharesEncoding(u', ty', u, ty);
    }
    if u', ty' :| SharesEncoding(u', ty', u, ty) {
      SignaturePrintsShape(u', ty');
      OtherIsRereading(d, SignatureShape(u', ty').value);
    }
  }

  /** Two signatures of different shapes with the same encoding. */
  ghost predicate SharesEncoding(u': Universe, ty': FuncType, u: Universe, ty: FuncType)
    requires HasShape(u, ty)
  {
    && HasShape(u', ty') && Signature(u', ty') == Signature(u, ty)
    && SignatureShape(u', ty') != SignatureShape(u, ty)
  }

  lemma AnotherReading(d: Decoded) returns (d': Decoded)
    requires LegalSignature(d) && Rereadable(d)
    ensures IsOtherReading(d', d)
  {
    if Reinterpretable(FlattenAll(d.params[1..])) {
      d' := RereadList(d);
    } else if d.result.value.StructOf? && Reinterpretable(FlattenAll(d.result.value.fields)) {
      d' := RereadFields(d);
    } else if EndsInObject(d.result.value) {
      d' := RereadShorter(d);
    } else {
      d' := RereadLonger(d);
    }
  }
}
