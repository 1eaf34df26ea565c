/** Why only pointer-sized words may take a fast wrapper: a wrapper runs under the registered type, so
    its parameters must occupy the same slots, with pointers in the same places. */
module SpillLayout {
  import opened Words
  import opened GoTypes
  import opened Descriptors
  import opened Marshal
  import opened FastTable
  import opened Classifier

  /** The Go type of a wrapper's parameter under its type arguments. */
  function ParamType(w: Installed, p: nat): GoType
    requires p < |w.wrapper.params|
  {
    match w.wrapper.params[p]
    case FloatParam(bits) => if bits == 32 then Float32 else Float64
    case IntParam(k) => if 0 < k <= |w.pointers| && w.pointers[k - 1] then UnsafePointer else Uintptr(Plain)
  }

  function ParamTypes(w: Installed): seq<GoType> {
    seq(|w.wrapper.params|, p requires 0 <= p < |w.wrapper.params| => ParamType(w, p))
  }

  /** What the register ABI and the garbage collector see of one parameter. */
  predicate SameSlot(a: GoType, b: GoType) {
    && GoSize(a) == GoSize(b) && GoAlign(a) == GoAlign(b)
    && IsPointerKind(a) == IsPointerKind(b) && IsFloatKind(a) == IsFloatKind(b)
  }

  lemma {:induction false} SameSlotsSameEnd(a: seq<GoType>, b: seq<GoType>)
    requires |a| == |b| && forall p :: 0 <= p < |a| ==> SameSlot(a[p], b[p])
    ensures GoEnd(a) == GoEnd(b)
  {
    if a != [] {
      SameSlotsSameEnd(a[..|a| - 1], b[..|b| - 1]);
      assert SameSlot(a[|a| - 1], b[|b| - 1]);
    }
  }

  /** The spill area is laid out like a struct of the parameters. */
  lemma SameSlotsSameOffsets(a: seq<GoType>, b: seq<GoType>)
    requires |a| == |b| && forall p :: 0 <= p < |a| ==> SameSlot(a[p], b[p])
    ensures forall p :: 0 <= p < |a| ==> GoOffset(a, p) == GoOffset(b, p)
  {
    forall p | 0 <= p < |a| ensures GoOffset(a, p) == GoOffset(b, p) {
      SameSlotsSameEnd(a[..p], b[..p]);
      assert SameSlot(a[p], b[p]);
    }
  }

  /** An installed wrapper has the width, float class and pointerness of the registered type in every
      parameter, and so the same offset in every spill slot. */
  lemma WrapperMatchesSignature(w: Installed, ty: FuncType)
    requires Fits(w, ty) && forall p :: 0 <= p < |ty.ins| ==> FastKind(ty.ins[p])
    ensures |ParamTypes(w)| == |ty.ins|
    ensures forall p :: 0 <= p < |ty.ins| ==>
              SameSlot(ParamTypes(w)[p], ty.ins[p]) && GoOffset(ParamTypes(w), p) == GoOffset(ty.ins, p)
  {
    forall p | 0 <= p < |ty.ins| ensures SameSlot(ParamTypes(w)[p], ty.ins[p]) {
      ParameterMatches(w, ty, p);
    }
    SameSlotsSameOffsets(ParamTypes(w), ty.ins);
  }

  /** It also returns as the registered type does: nothing, or in an integer register a value no longer
      than the uintptr the wrapper returns. */
  lemma WrapperResultMatches(w: Installed, ty: FuncType)
    requires Fits(w, ty) && FastEligible(ty)
    ensures w.wrapper.hasResult <==> ty.outs != []
    ensures ty.outs != [] ==>
              && GoSize(ty.outs[0]) <= GoSize(Uintptr(UintptrName.Plain))
              && TypeClass(ty.outs[0]) != FloatClass && TypeClass(ty.outs[0]) != AggregateClass
  {
  }

  lemma ParameterMatches(w: Installed, ty: FuncType, p: nat)
    requires Fits(w, ty) && p < |ty.ins| && FastKind(ty.ins[p])
    ensures SameSlot(ParamType(w, p), ty.ins[p])
  {
    ParamsForAt(ty.ins, p);
    if IsFloatKind(ty.ins[p]) {
      FloatSlotMatches(ParamType(w, p), ty.ins[p]);
    } else {
      PointerFlagsAt(ty.ins, p);
      var k := NumInts(ty.ins[..p]);
      assert w.wrapper.params[p] == IntParam(k + 1) && w.pointers[k] == IsPointerKind(ty.ins[p]);
      WordSlotMatches(ty.ins[p]);
    }
  }

  lemma FloatSlotMatches(a: GoType, t: GoType)
    requires IsFloatKind(t) && a == t
    ensures SameSlot(a, t)
  {
  }

  lemma WordSlotMatches(t: GoType)
    requires IsWordKind(t)
    ensures SameSlot(if IsPointerKind(t) then UnsafePointer else Uintptr(UintptrName.Plain), t)
  {
  }

  /** The parameter types a generated wrapper can have. */
  predicate IsWrapperType(t: GoType) {
    t == Uintptr(UintptrName.Plain) || t == UnsafePointer || IsFloatKind(t)
  }

  predicate IsScalar(t: GoType) {
    IsNumber(t) || t.Bool? || IsPointerKind(t)
  }

  /** A scalar shares its slot with some wrapper parameter exactly if it is of a fast kind: every narrower
      one has to stay on the reflect path. */
  lemma NarrowNeverFits(t: GoType)
    requires IsScalar(t)
    ensures FastKind(t) <==> SameSlot(SlotType(t), t)
    ensures forall a :: IsWrapperType(a) && SameSlot(a, t) ==> FastKind(t)
    ensures IsWrapperType(SlotType(t))
  {
  }

  /** The wrapper parameter for a type. */
  function SlotType(t: GoType): GoType {
    if IsFloatKind(t) then t else if IsPointerKind(t) then UnsafePointer else Uintptr(UintptrName.Plain)
  }

  predicate SameSlots(a: seq<GoType>, b: seq<GoType>) {
    |a| == |b| && forall p :: 0 <= p < |b| ==> IsWrapperType(a[p]) && SameSlot(a[p], b[p])
  }

  /** The kinds the classifier lets through are the right ones: a list of scalars has a wrapper parameter
      list that agrees with it slot for slot exactly if all of them are of fast kinds. */
  lemma WrapperExistsIff(ins: seq<GoType>)
    requires forall p :: 0 <= p < |ins| ==> IsScalar(ins[p])
    ensures (exists ts :: SameSlots(ts, ins)) <==> AllFast(ins)
  {
    if AllFast(ins) {
      var ts := seq(|ins|, p requires 0 <= p < |ins| => SlotType(ins[p]));
      forall p | 0 <= p < |ins| ensures IsWrapperType(ts[p]) && SameSlot(ts[p], ins[p]) {
        NarrowNeverFits(ins[p]);
      }
      assert SameSlots(ts, ins);
    }
    if ts :| SameSlots(ts, ins) {
      forall p | 0 <= p < |ins| ensures FastKind(ins[p]) {
        NarrowNeverFits(ins[p]);
        assert IsWrapperType(ts[p]) && SameSlot(ts[p], ins[p]);
      }
    }
  }

  /** The kinds a wrapper would widen to a word: every non-float scalar of less than eight bytes. */
  predicate IsNarrow(t: GoType) {
    (IsNumber(t) || t.Bool?) && !IsFloatKind(t) && GoSize(t) < 8
  }

  predicate NarrowPair(ins: seq<GoType>) {
    exists i :: 0 <= i < |ins| - 1 && IsNarrow(ins[i]) && IsNarrow(ins[i + 1])
  }

  function WordTypes(n: nat): seq<GoType> {
    seq(n, _ => Uintptr(UintptrName.Plain))
  }

  lemma {:induction false} AlignUpMonotone(x: nat, y: nat, a: nat)
    requires x <= y
    ensures AlignUp(x, a) <= AlignUp(y, a)
    decreases a
  {
    if a > 1 {
      AlignUpMonotone((x + 1) / 2, (y + 1) / 2, a / 2);
    }
  }

  lemma EightAligned(a: nat)
    requires IsAlignment(a)
    ensures Aligned(8, a) && Aligned(8 - a, a)
  {
    ScalarSizesAligned();
    ZeroAligned(8);
    if a <= 4 {
      assert Aligned(4, a) by {
        if a < 4 {
          SumAligned(a, a, a);
          SumAligned(2, 2, a);
        }
      }
      SumAligned(4, 4, a);
      if a == 2 {
        SumAligned(4, 2, 2);
      }
    }
  }

  lemma MultipleAligned(k: nat, a: nat)
    requires IsAlignment(a)
    ensures Aligned(8 * k, a)
  {
    EightAligned(a);
    MultipleOfAligned(k, 8, a);
  }

  /** Rounding up never passes a multiple of eight. */
  lemma AlignUpWithin(x: nat, a: nat, k: nat)
    requires IsAlignment(a) && x <= 8 * k
    ensures AlignUp(x, a) <= 8 * k
    ensures x == 8 * k ==> AlignUp(x, a) == x
  {
    MultipleAligned(k, a);
    AlignUpMonotone(x, 8 * k, a);
  }

  lemma {:induction false} WordsEnd(n: nat)
    ensures GoEnd(WordTypes(n)) == 8 * n
  {
    if n > 0 {
      WordsEnd(n - 1);
      assert WordTypes(n)[..n - 1] == WordTypes(n - 1);
      AlignUpWithin(8 * (n - 1), 8, n - 1);
    }
  }

  lemma NarrowPairStep(ins: seq<GoType>)
    requires |ins| >= 2
    ensures NarrowPair(ins) <==>
            NarrowPair(Front(ins)) || (IsNarrow(Last(Front(ins))) && IsNarrow(Last(ins)))
  {
    var front, n := Front(ins), |ins|;
    assert forall i :: 0 <= i < n - 1 ==> front[i] == ins[i];
    if NarrowPair(front) {
      var i :| 0 <= i < |front| - 1 && IsNarrow(front[i]) && IsNarrow(front[i + 1]);
      assert IsNarrow(ins[i]) && IsNarrow(ins[i + 1]);
    }
    if IsNarrow(Last(front)) && IsNarrow(Last(ins)) {
      assert IsNarrow(ins[n - 2]) && IsNarrow(ins[n - 2 + 1]);
    }
  }

  /** Where a caller's parameters end: in the last word, or before it if two narrow ones share a word. */
  lemma {:induction false} CallerEnd(ins: seq<GoType>)
    requires ins != [] && forall i :: 0 <= i < |ins| ==> IsWordKind(ins[i]) || IsNarrow(ins[i])
    ensures if NarrowPair(ins) then GoEnd(ins) <= 8 * (|ins| - 1)
            else GoEnd(ins) == 8 * (|ins| - 1) + GoSize(Last(ins))
    decreases |ins|
  {
    var n, t := |ins|, Last(ins);
    var front := Front(ins);
    var end := GoEnd(front);
    assert GoEnd(ins) == AlignUp(end, GoAlign(t)) + GoSize(t) && GoSize(t) == GoAlign(t);
    if n == 1 {
      assert front == [];
      AlignUpWithin(0, GoAlign(t), 0);
    } else {
      CallerEnd(front);
      NarrowPairStep(ins);
      if NarrowPair(front) {
        AlignUpWithin(end, GoAlign(t), n - 2);
      } else {
        AfterLast(end, GoSize(Last(front)), GoSize(t), n - 2);
      }
    }
  }

  /** A parameter of size `b` behind one of size `a` that starts word `k`. */
  lemma AfterLast(end: nat, a: nat, b: nat, k: nat)
    requires IsAlignment(a) && IsAlignment(b) && end == 8 * k + a
    ensures if a < 8 && b < 8 then AlignUp(end, b) + b <= 8 * (k + 1) else AlignUp(end, b) == 8 * (k + 1)
  {
    if a == 8 {
      AlignUpWithin(end, b, k + 1);
    } else if b == 8 {
      NextWord(end, a, k);
    } else {
      BehindNarrow(end, a, b, k);
    }
  }

  lemma NextWord(end: nat, a: nat, k: nat)
    requires 0 < a <= 8 && end == 8 * k + a
    ensures AlignUp(end, 8) == 8 * (k + 1)
  {
    AlignUpIsLeast(end, 8);
  }

  lemma BehindNarrow(end: nat, a: nat, b: nat, k: nat)
    requires IsAlignment(a) && IsAlignment(b) && a < 8 && b < 8 && end == 8 * k + a
    ensures AlignUp(end, b) + b <= 8 * (k + 1)
  {
    EightAligned(b);
    MultipleAligned(k, b);
    SumAligned(8 * k, 8 - b, b);
    AlignUpMonotone(end, 8 * k + (8 - b), b);
  }

  /** If narrow arguments were widened to words, the wrapper's last word would lie wholly behind the spill
      area its caller laid out exactly if somewhere two narrow arguments stand side by side. */
  lemma NarrowArgumentsOverrunIff(ins: seq<GoType>)
    requires ins != [] && forall i :: 0 <= i < |ins| ==> IsWordKind(ins[i]) || IsNarrow(ins[i])
    ensures GoOffset(WordTypes(|ins|), |ins| - 1) == 8 * (|ins| - 1)
    ensures GoEnd(ins) <= GoOffset(WordTypes(|ins|), |ins| - 1) <==> NarrowPair(ins)
  {
    LastWordOffset(|ins|);
    CallerEnd(ins);
    LastSize(Last(ins));
  }

  lemma LastWordOffset(n: nat)
    requires n > 0
    ensures GoOffset(WordTypes(n), n - 1) == 8 * (n - 1)
  {
    assert WordTypes(n)[..n - 1] == WordTypes(n - 1);
    WordsEnd(n - 1);
    AlignUpWithin(8 * (n - 1), 8, n - 1);
  }

  lemma LastSize(t: GoType)
    requires IsWordKind(t) || IsNarrow(t)
    ensures GoSize(t) > 0
  {
  }
}
