/** The classifier that decides which signatures get a generated wrapper, and which one. */
module Classifier {
  import opened Words
  import opened GoTypes
  import opened Marshal
  import opened FastTable

  // ---------- What a list of parameter types amounts to ----------

  function NumFloats(ins: seq<GoType>): (n: nat)
    ensures n <= |ins|
  {
    if ins == [] then 0 else NumFloats(Front(ins)) + if IsFloatKind(Last(ins)) then 1 else 0
  }

  function NumInts(ins: seq<GoType>): (n: nat)
    ensures n + NumFloats(ins) == |ins|
  {
    if ins == [] then 0 else NumInts(Front(ins)) + if IsFloatKind(Last(ins)) then 0 else 1
  }

  /** Which of the non-float parameters, in order, are pointers. */
  function PointerFlags(ins: seq<GoType>): (flags: seq<bool>)
    ensures |flags| == NumInts(ins)
  {
    if ins == [] then []
    else PointerFlags(Front(ins)) + if IsFloatKind(Last(ins)) then [] else [IsPointerKind(Last(ins))]
  }

  /** The number whose bit i says whether integer argument i is a pointer. */
  function Mask(flags: seq<bool>): (m: nat)
    ensures m < Pow2(|flags|)
  {
    if flags == [] then 0 else Mask(Front(flags)) + if Last(flags) then Pow2(|flags| - 1) else 0
  }

  predicate NoPointers(ins: seq<GoType>) {
    forall t :: t in ins ==> !IsPointerKind(t)
  }

  /** The parameter list a wrapper needs to be called under this signature. */
  function ParamsFor(ins: seq<GoType>): (ps: seq<Param>)
    ensures |ps| == |ins|
  {
    if ins == [] then []
    else ParamsFor(Front(ins)) + [ParamFor(Front(ins), Last(ins))]
  }

  function ParamFor(before: seq<GoType>, t: GoType): Param {
    if t.Float32? then FloatParam(32) else if t.Float64? then FloatParam(64) else IntParam(NumInts(before) + 1)
  }

  lemma {:induction false} ParamsForAt(ins: seq<GoType>, p: nat)
    requires p < |ins|
    ensures ParamsFor(ins)[p] == ParamFor(ins[..p], ins[p])
  {
    if p < |ins| - 1 {
      ParamsForAt(Front(ins), p);
      assert Front(ins)[..p] == ins[..p];
    }
  }

  lemma {:induction false} PointerFlagsAt(ins: seq<GoType>, p: nat)
    requires p < |ins| && !IsFloatKind(ins[p])
    ensures NumInts(ins[..p]) < NumInts(ins)
    ensures PointerFlags(ins)[NumInts(ins[..p])] == IsPointerKind(ins[p])
  {
    if p < |ins| - 1 {
      PointerFlagsAt(Front(ins), p);
      assert Front(ins)[..p] == ins[..p];
    }
  }

  // ---------- The mask and its type arguments are inverse ----------

  lemma {:induction false} BitsAbove(m: nat, n: nat, i: nat)
    requires m < Pow2(n) && n <= i
    ensures !Bit(m, i)
    ensures Bit(m + Pow2(i), i)
    ensures SetBit(m, i) == m + Pow2(i)
    decreases i
  {
    if i > 0 {
      if n == 0 {
        BitsAbove(0, 0, i - 1);
      } else {
        BitsAbove(m / 2, n - 1, i - 1);
      }
      assert (m + Pow2(i)) / 2 == m / 2 + Pow2(i - 1);
    }
  }

  lemma {:induction false} HigherBitsLeaveLower(m: nat, i: nat, j: nat)
    requires j < i
    ensures Bit(m + Pow2(i), j) == Bit(m, j)
    decreases j
  {
    assert (m + Pow2(i)) / 2 == m / 2 + Pow2(i - 1);
    if j > 0 {
      HigherBitsLeaveLower(m / 2, i - 1, j - 1);
    }
  }

  /** The generator's decoding of a mask gives back the flags the classifier set. */
  lemma {:induction false} MaskRoundTrip(flags: seq<bool>)
    ensures TypeArguments(Mask(flags), |flags|) == flags
  {
    if flags != [] {
      var n := |flags| - 1;
      var front := Front(flags);
      MaskRoundTrip(front);
      BitsAbove(Mask(front), n, n);
      forall j | 0 <= j < n ensures Bit(Mask(flags), j) == flags[j] {
        HigherBitsLeaveLower(Mask(front), n, j);
        assert TypeArguments(Mask(front), n)[j] == flags[j];
      }
    }
  }

  /** The mask decoded and then re-encoded is the mask. */
  lemma {:induction false} TypeArgumentsRoundTrip(mask: nat, n: nat)
    requires mask < Pow2(n)
    ensures Mask(TypeArguments(mask, n)) == mask
    decreases n
  {
    if n > 0 {
      var top := n - 1;
      if mask < Pow2(top) {
        TypeArgumentsRoundTrip(mask, top);
        BitsAbove(mask, top, top);
        assert Front(TypeArguments(mask, n)) == TypeArguments(mask, top);
      } else {
        var low := mask - Pow2(top);
        TypeArgumentsRoundTrip(low, top);
        BitsAbove(low, top, top);
        forall j | 0 <= j < top ensures Bit(mask, j) == Bit(low, j) {
          HigherBitsLeaveLower(low, top, j);
        }
        assert Front(TypeArguments(mask, n)) == TypeArguments(low, top);
      }
    }
  }

  lemma {:induction false} MaskZero(flags: seq<bool>)
    ensures Mask(flags) == 0 <==> true !in flags
  {
    if flags != [] {
      MaskZero(Front(flags));
      assert flags == Front(flags) + [Last(flags)];
    }
  }

  lemma {:induction false} NoPointersFlags(ins: seq<GoType>)
    ensures NoPointers(ins) <==> true !in PointerFlags(ins)
  {
    if ins != [] {
      NoPointersFlags(Front(ins));
      assert ins == Front(ins) + [Last(ins)];
      assert forall t :: t in ins <==> t in Front(ins) || t == Last(ins);
    }
  }

  // ---------- Which signatures are accepted ----------

  predicate FastKind(t: GoType) {
    IsWordKind(t) || IsFloatKind(t)
  }

  predicate AllFast(ins: seq<GoType>) {
    forall i :: 0 <= i < |ins| ==> FastKind(ins[i])
  }

  predicate FastResult(outs: seq<GoType>) {
    outs == [] || outs[0].Bool? || IsPointerKind(outs[0]) || (IsNumber(outs[0]) && !IsFloatKind(outs[0]))
  }

  /** The accepted signatures in closed form. */
  predicate FastEligible(ty: FuncType) {
    var ins := ty.ins;
    && |ins| <= 15
    && AllFast(ins)
    && FastResult(ty.outs)
    && ( || (TrailingFloat(ins) && (NoPointers(ins) || NumInts(ins) <= MAX_POINTER_MASK_ARGS))
         || (InnerFloat32(ins) && NoPointers(ins)))
  }

  /** No float, or one and it comes last. */
  predicate TrailingFloat(ins: seq<GoType>) {
    forall i :: 0 <= i < |ins| - 1 ==> !IsFloatKind(ins[i])
  }

  /** Exactly one float, a float32 that does not come last. */
  predicate InnerFloat32(ins: seq<GoType>) {
    exists p :: 0 <= p < |ins| - 1 && ins[p].Float32? && forall i :: 0 <= i < |ins| && i != p ==> !IsFloatKind(ins[i])
  }

  /** What it means for an installed wrapper to fit a signature slot for slot: its parameters are the
      signature's in order, word k is stored in ints[k], the float (if any) in floats[0] at its own
      width, exactly the pointer arguments are pointers and each is kept alive past the call, and it
      returns a word exactly if the signature has a result. */
  predicate Fits(w: Installed, ty: FuncType) {
    && w.wrapper.params == ParamsFor(ty.ins)
    && w.wrapper.stores == Stores(NumInts(ty.ins))
    && w.wrapper.floatBits == FloatWidth(ty.ins)
    && w.wrapper.hasResult == (ty.outs != [])
    && w.pointers == PointerFlags(ty.ins)
    && forall k :: 0 <= k < |w.pointers| && w.pointers[k] ==> k + 1 in w.wrapper.kept
  }

  /** The width of the only float, 0 for none. */
  function FloatWidth(ins: seq<GoType>): nat {
    if ins == [] then 0
    else if Last(ins).Float32? then 32
    else if Last(ins).Float64? then 64
    else FloatWidth(Front(ins))
  }

  // ---------- Counting floats ----------

  lemma {:induction false} CountsConcat(a: seq<GoType>, b: seq<GoType>)
    ensures NumFloats(a + b) == NumFloats(a) + NumFloats(b)
    decreases |b|
  {
    if b == [] {
      assert a + b == a;
    } else {
      CountsConcat(a, Front(b));
      assert Front(a + b) == a + Front(b);
    }
  }

  lemma {:induction false} NoFloats(ins: seq<GoType>)
    ensures NumFloats(ins) == 0 <==> forall i :: 0 <= i < |ins| ==> !IsFloatKind(ins[i])
  {
    if ins != [] {
      NoFloats(Front(ins));
      assert forall i :: 0 <= i < |ins| - 1 ==> Front(ins)[i] == ins[i];
    }
  }

  lemma SplitAtFloat(ins: seq<GoType>, p: nat)
    requires p < |ins| && IsFloatKind(ins[p])
    ensures NumFloats(ins) == NumFloats(ins[..p]) + 1 + NumFloats(ins[p + 1..])
  {
    SplitCount(ins[..p], ins[p], ins[p + 1..]);
    Split(ins, p);
  }

  lemma Split(ins: seq<GoType>, p: nat)
    requires p < |ins|
    ensures ins[..p] + ([ins[p]] + ins[p + 1..]) == ins
  {
  }

  lemma SplitCount(before: seq<GoType>, t: GoType, after: seq<GoType>)
    requires IsFloatKind(t)
    ensures NumFloats(before + ([t] + after)) == NumFloats(before) + 1 + NumFloats(after)
  {
    CountsConcat(before, [t] + after);
    CountsConcat([t], after);
    assert Front([t]) == [];
  }

  /** A float at `p` is the only one exactly if the count is one. */
  lemma OnlyFloat(ins: seq<GoType>, p: nat)
    requires p < |ins| && IsFloatKind(ins[p])
    ensures NumFloats(ins) == NumFloats(ins[..p]) + 1 + NumFloats(ins[p + 1..])
    ensures NumFloats(ins) == 1 <==> forall i :: 0 <= i < |ins| && i != p ==> !IsFloatKind(ins[i])
  {
    SplitAtFloat(ins, p);
    NoFloats(ins[..p]);
    NoFloats(ins[p + 1..]);
    NoOtherFloats(ins, ins[..p], ins[p + 1..]);
  }

  lemma NoOtherFloats(ins: seq<GoType>, before: seq<GoType>, after: seq<GoType>)
    requires |before| < |ins| && before == ins[..|before|] && after == ins[|before| + 1..]
    ensures (forall i :: 0 <= i < |ins| && i != |before| ==> !IsFloatKind(ins[i])) <==>
            && (forall i :: 0 <= i < |before| ==> !IsFloatKind(before[i]))
            && (forall i :: 0 <= i < |after| ==> !IsFloatKind(after[i]))
  {
    var p := |before|;
    assert forall i :: 0 <= i < p ==> before[i] == ins[i];
    assert forall i :: p < i < |ins| ==> after[i - p - 1] == ins[i];
    assert forall j :: 0 <= j < |after| ==> after[j] == ins[j + p + 1];
  }

  /** No word follows a float: what the loop's `trailingFloats` records. */
  predicate WordsFirst(ins: seq<GoType>) {
    ins == [] || (WordsFirst(Front(ins)) && (IsFloatKind(Last(ins)) || NumFloats(Front(ins)) == 0))
  }

  lemma {:induction false} WordsFirstAt(ins: seq<GoType>, p: nat)
    requires WordsFirst(ins) && p < |ins| && IsFloatKind(ins[p])
    ensures forall i :: p <= i < |ins| ==> IsFloatKind(ins[i])
  {
    NoFloats(Front(ins));
    if p < |ins| - 1 {
      assert Front(ins)[p] == ins[p];
      WordsFirstAt(Front(ins), p);
      assert forall i :: p <= i < |ins| - 1 ==> Front(ins)[i] == ins[i];
    }
  }

  lemma {:induction false} NotWordsFirst(ins: seq<GoType>)
    requires !WordsFirst(ins)
    ensures exists p, q :: 0 <= p < q < |ins| && IsFloatKind(ins[p]) && !IsFloatKind(ins[q])
  {
    var front := Front(ins);
    if !WordsFirst(front) {
      NotWordsFirst(front);
      var p, q :| 0 <= p < q < |front| && IsFloatKind(front[p]) && !IsFloatKind(front[q]);
      assert IsFloatKind(ins[p]) && !IsFloatKind(ins[q]);
    } else {
      NoFloats(front);
      var p :| 0 <= p < |front| && IsFloatKind(front[p]);
      assert IsFloatKind(ins[p]) && !IsFloatKind(ins[|ins| - 1]);
    }
  }

  // ---------- The three shapes and the wrappers generated for them ----------

  lemma {:induction false} AllWordsShape(ins: seq<GoType>)
    requires NumFloats(ins) == 0
    ensures TrailingFloat(ins) && !InnerFloat32(ins)
    ensures ParamsFor(ins) == IntParams(|ins|) && FloatWidth(ins) == 0
  {
    NoFloats(ins);
    if ins != [] {
      AllWordsShape(Front(ins));
    }
  }

  lemma TrailingShape(ins: seq<GoType>)
    requires NumFloats(ins) == 1 && WordsFirst(ins)
    ensures ins != [] && NumInts(ins) == |ins| - 1 && IsFloatKind(Last(ins))
    ensures TrailingFloat(ins) && !InnerFloat32(ins)
    ensures ParamsFor(ins) == IntParams(|ins| - 1) + [FloatParam(FloatWidth(ins))]
    ensures FloatWidth(ins) == if Last(ins).Float32? then 32 else 64
  {
    NoFloats(ins);
    var p :| 0 <= p < |ins| && IsFloatKind(ins[p]);
    WordsFirstAt(ins, p);
    OnlyFloat(ins, p);
    assert IsFloatKind(Last(ins));
    AllWordsShape(Front(ins));
  }

  lemma InnerShape(ins: seq<GoType>, p: nat)
    requires NumFloats(ins) == 1 && !WordsFirst(ins) && p < |ins| && IsFloatKind(ins[p])
    ensures p < |ins| - 1 && !TrailingFloat(ins)
    ensures InnerFloat32(ins) <==> ins[p].Float32?
    ensures ins[p].Float32? ==> ParamsFor(ins) == InterleavedParams(|ins|, p) && FloatWidth(ins) == 32
  {
    OnlyFloat(ins, p);
    NotWordsFirst(ins);
    var p', q :| 0 <= p' < q < |ins| && IsFloatKind(ins[p']) && !IsFloatKind(ins[q]);
    assert p' == p;
    if ins[p].Float32? {
      InnerParams(ins, p);
    }
  }

  lemma {:induction false} InnerParams(ins: seq<GoType>, p: nat)
    requires p < |ins| && ins[p].Float32? && forall i :: 0 <= i < |ins| && i != p ==> !IsFloatKind(ins[i])
    ensures ParamsFor(ins) == InterleavedParams(|ins|, p) && FloatWidth(ins) == 32
    ensures NumInts(ins) == |ins| - 1
  {
    var front := Front(ins);
    if p < |ins| - 1 {
      InnerParams(front, p);
    } else {
      NoFloats(front);
      AllWordsShape(front);
    }
  }

  lemma ManyFloatsShape(ins: seq<GoType>)
    requires NumFloats(ins) > 1
    ensures !TrailingFloat(ins) && !InnerFloat32(ins)
  {
    NoFloats(ins);
    var p :| 0 <= p < |ins| && IsFloatKind(ins[p]);
    OnlyFloat(ins, p);
    var q :| 0 <= q < |ins| && q != p && IsFloatKind(ins[q]);
    assert IsFloatKind(ins[if p < q then p else q]);
  }

  // ---------- Acceptance, shape by shape ----------

  lemma {:induction false} FloatFreeCounts(ins: seq<GoType>)
    requires forall i :: 0 <= i < |ins| ==> !IsFloatKind(ins[i])
    ensures NumInts(ins) == |ins|
  {
    NoFloats(ins);
  }

  /** Without floats, at most fifteen arguments of one register each, and at most six if one is a pointer. */
  lemma WordsAccepted(ty: FuncType)
    requires forall i :: 0 <= i < |ty.ins| ==> !IsFloatKind(ty.ins[i])
    ensures FastEligible(ty) <==>
              && |ty.ins| <= 15 && FastResult(ty.outs)
              && (forall i :: 0 <= i < |ty.ins| ==> IsWordKind(ty.ins[i]))
              && ((exists i :: 0 <= i < |ty.ins| && IsPointerKind(ty.ins[i])) ==> |ty.ins| <= 6)
  {
    FloatFreeCounts(ty.ins);
    AllWordsShape(ty.ins);
    assert NoPointers(ty.ins) <==> forall i :: 0 <= i < |ty.ins| ==> !IsPointerKind(ty.ins[i]);
  }

  /** With one float at `p`: last, it may be of either width and the words are as without it; elsewhere it
      must be a float32 among words that are no pointers. */
  lemma OneFloatAccepted(ty: FuncType, p: nat)
    requires p < |ty.ins| && IsFloatKind(ty.ins[p])
    requires forall i :: 0 <= i < |ty.ins| && i != p ==> !IsFloatKind(ty.ins[i])
    ensures FastEligible(ty) <==>
              && |ty.ins| <= 15 && FastResult(ty.outs)
              && (forall i :: 0 <= i < |ty.ins| && i != p ==> IsWordKind(ty.ins[i]))
              && ((exists i :: 0 <= i < |ty.ins| && IsPointerKind(ty.ins[i])) ==> p == |ty.ins| - 1 <= 6)
              && (p < |ty.ins| - 1 ==> ty.ins[p].Float32?)
  {
    OnlyFloat(ty.ins, p);
    assert NumInts(ty.ins) == |ty.ins| - 1;
    assert NoPointers(ty.ins) <==> forall i :: 0 <= i < |ty.ins| ==> !IsPointerKind(ty.ins[i]);
    FloatPlace(ty.ins, p);
  }

  lemma FloatPlace(ins: seq<GoType>, p: nat)
    requires p < |ins| && IsFloatKind(ins[p])
    requires forall i :: 0 <= i < |ins| && i != p ==> !IsFloatKind(ins[i])
    ensures TrailingFloat(ins) <==> p == |ins| - 1
    ensures InnerFloat32(ins) <==> p < |ins| - 1 && ins[p].Float32?
  {
  }

  /** More than one float is never accepted. */
  lemma TwoFloatsRejected(ty: FuncType, p: nat, q: nat)
    requires p < q < |ty.ins| && IsFloatKind(ty.ins[p]) && IsFloatKind(ty.ins[q])
    ensures !FastEligible(ty)
  {
  }

  // ---------- The classification loop ----------

  /** How one more parameter changes what the loop has recorded: the counts ... */
  lemma CountStep(ins: seq<GoType>, i: nat)
    requires i < |ins|
    ensures var before, after, t := ins[..i], ins[..i + 1], ins[i];
            && NumFloats(after) == NumFloats(before) + (if IsFloatKind(t) then 1 else 0)
            && NumInts(after) == NumInts(before) + (if IsFloatKind(t) then 0 else 1)
            && (WordsFirst(after) <==> WordsFirst(before) && (IsFloatKind(t) || NumFloats(before) == 0))
  {
    assert Front(ins[..i + 1]) == ins[..i] && Last(ins[..i + 1]) == ins[i];
  }

  /** ... and the pointer mask. */
  lemma MaskStep(ins: seq<GoType>, i: nat)
    requires i < |ins|
    ensures var before, after, t := ins[..i], ins[..i + 1], ins[i];
            Mask(PointerFlags(after)) ==
            if IsPointerKind(t) then SetBit(Mask(PointerFlags(before)), NumInts(before))
            else Mask(PointerFlags(before))
  {
    var before, after, t := ins[..i], ins[..i + 1], ins[i];
    assert Front(after) == before && Last(after) == t;
    var flags := PointerFlags(before);
    if IsFloatKind(t) {
      assert PointerFlags(after) == flags;
    } else {
      assert PointerFlags(after) == flags + [IsPointerKind(t)];
      MaskAppend(flags, IsPointerKind(t));
    }
  }

  lemma MaskAppend(flags: seq<bool>, b: bool)
    ensures Mask(flags + [b]) == if b then SetBit(Mask(flags), |flags|) else Mask(flags)
  {
    assert Front(flags + [b]) == flags && Last(flags + [b]) == b;
    BitsAbove(Mask(flags), |flags|, |flags|);
  }

  lemma TrailingFits(ty: FuncType)
    requires NumFloats(ty.ins) == 0 || (NumFloats(ty.ins) == 1 && WordsFirst(ty.ins))
    requires AllFast(ty.ins)
    ensures var flags, n, width := PointerFlags(ty.ins), NumInts(ty.ins), FloatWidth(ty.ins);
            && Fits(Installed(TrailingWrapper(n, width, ty.outs != []), TypeArguments(Mask(flags), n)), ty)
            && (|ty.ins| <= 15 && FastResult(ty.outs) ==>
                  (FastEligible(ty) <==> InDispatch(Key(width, n, Mask(flags)))))
  {
    var ins := ty.ins;
    if NumFloats(ins) == 0 {
      AllWordsShape(ins);
    } else {
      TrailingShape(ins);
    }
    MaskZeroIff(ins);
    MaskRoundTrip(PointerFlags(ins));
    var kept := TrailingWrapper(NumInts(ins), FloatWidth(ins), ty.outs != []).kept;
    var flags := PointerFlags(ins);
    forall k | 0 <= k < |flags| && flags[k] ensures k + 1 in kept {
      assert kept[k] == k + 1;
    }
  }

  lemma InnerFits(ty: FuncType, p: nat)
    requires NumFloats(ty.ins) == 1 && !WordsFirst(ty.ins)
    requires p < |ty.ins| && IsFloatKind(ty.ins[p])
    requires AllFast(ty.ins)
    ensures |ty.ins| <= 15 ==> InInterleaved(Spot(|ty.ins|, p, ty.outs != []))
    ensures |ty.ins| <= 15 && FastResult(ty.outs) ==>
              (FastEligible(ty) <==> ty.ins[p].Float32? && Mask(PointerFlags(ty.ins)) == 0)
    ensures |ty.ins| <= 15 && ty.ins[p].Float32? && Mask(PointerFlags(ty.ins)) == 0 ==>
              Fits(Installed(InterleavedWrapper(Spot(|ty.ins|, p, ty.outs != [])), seq(|ty.ins| - 1, _ => false)), ty)
  {
    InnerShape(ty.ins, p);
    MaskZeroIff(ty.ins);
    if Mask(PointerFlags(ty.ins)) == 0 {
      UnsetFlags(ty.ins);
    }
  }

  lemma MaskZeroIff(ins: seq<GoType>)
    ensures Mask(PointerFlags(ins)) == 0 <==> NoPointers(ins)
  {
    MaskZero(PointerFlags(ins));
    NoPointersFlags(ins);
  }

  lemma UnsetFlags(ins: seq<GoType>)
    requires Mask(PointerFlags(ins)) == 0
    ensures PointerFlags(ins) == seq(NumInts(ins), _ => false)
  {
    var flags := PointerFlags(ins);
    MaskZero(flags);
    forall k | 0 <= k < |flags| ensures !flags[k] {
      assert flags[k] in flags;
    }
  }

  /** The position of the first float, or -1. */
  function FirstFloat(ins: seq<GoType>): (p: int)
    ensures -1 <= p < |ins|
    ensures p < 0 <==> NumFloats(ins) == 0
  {
    if ins == [] then -1
    else
      var p := FirstFloat(Front(ins));
      if p < 0 && IsFloatKind(Last(ins)) then |ins| - 1 else p
  }

  lemma {:induction false} FirstFloatIsFirst(ins: seq<GoType>)
    requires FirstFloat(ins) >= 0
    ensures IsFirstFloat(ins, FirstFloat(ins))
  {
    var p := FirstFloat(Front(ins));
    if p >= 0 {
      FirstFloatIsFirst(Front(ins));
      assert forall j :: 0 <= j <= p ==> Front(ins)[j] == ins[j];
    } else {
      NoFloats(Front(ins));
      assert forall j :: 0 <= j < |ins| - 1 ==> Front(ins)[j] == ins[j];
    }
  }

  predicate IsFirstFloat(ins: seq<GoType>, p: nat)
    requires p < |ins|
  {
    IsFloatKind(ins[p]) && forall j :: 0 <= j < p ==> !IsFloatKind(ins[j])
  }

  lemma FirstFloatStep(ins: seq<GoType>, i: nat)
    requires i < |ins|
    ensures FirstFloat(ins[..i + 1]) ==
            if FirstFloat(ins[..i]) < 0 && IsFloatKind(ins[i]) then i else FirstFloat(ins[..i])
  {
    assert Front(ins[..i + 1]) == ins[..i] && Last(ins[..i + 1]) == ins[i];
  }

  /** What the loop knows of the parameters it has passed. */
  predicate Recorded(ins: seq<GoType>, numFloats: nat, numInts: nat, ptrMask: nat, trailingFloats: bool) {
    && numFloats == NumFloats(ins) && numInts == NumInts(ins)
    && ptrMask == Mask(PointerFlags(ins)) && trailingFloats == WordsFirst(ins)
  }

  lemma RecordWord(ins: seq<GoType>, i: nat, numFloats: nat, numInts: nat, ptrMask: nat, trailingFloats: bool)
    requires i < |ins| && IsWordKind(ins[i]) && Recorded(ins[..i], numFloats, numInts, ptrMask, trailingFloats)
    ensures Recorded(ins[..i + 1], numFloats, numInts + 1,
                     if IsPointerKind(ins[i]) then SetBit(ptrMask, numInts) else ptrMask,
                     trailingFloats && numFloats == 0)
  {
    CountStep(ins, i);
    MaskStep(ins, i);
  }

  lemma RecordFloat(ins: seq<GoType>, i: nat, numFloats: nat, numInts: nat, ptrMask: nat, trailingFloats: bool)
    requires i < |ins| && IsFloatKind(ins[i]) && Recorded(ins[..i], numFloats, numInts, ptrMask, trailingFloats)
    ensures Recorded(ins[..i + 1], numFloats + 1, numInts, ptrMask, trailingFloats)
  {
    CountStep(ins, i);
    MaskStep(ins, i);
  }

  lemma AllFastStep(ins: seq<GoType>, i: nat)
    requires i < |ins| && AllFast(ins[..i])
    ensures AllFast(ins[..i + 1]) <==> FastKind(ins[i])
    ensures !FastKind(ins[i]) ==> !AllFast(ins)
  {
    assert ins[..i + 1][i] == ins[i];
    assert forall j :: 0 <= j < i ==> ins[..i + 1][j] == ins[..i][j];
  }

  lemma RecordNothing(ins: seq<GoType>)
    ensures Recorded(ins[..0], 0, 0, 0, true)
  {
    assert ins[..0] == [];
  }

  lemma RecordAll(ins: seq<GoType>, numFloats: nat, numInts: nat, ptrMask: nat, trailingFloats: bool)
    requires Recorded(ins[..|ins|], numFloats, numInts, ptrMask, trailingFloats)
    ensures Recorded(ins, numFloats, numInts, ptrMask, trailingFloats)
  {
    assert ins[..|ins|] == ins;
  }

  /** The loop over the parameter kinds. */
  method ClassifyArguments(ins: seq<GoType>)
    returns (ok: bool, numFloats: nat, numInts: nat, ptrMask: nat, trailingFloats: bool, floatPos: int)
    ensures ok <==> AllFast(ins)
    ensures ok ==> Recorded(ins, numFloats, numInts, ptrMask, trailingFloats)
    ensures ok && numFloats > 0 ==> 0 <= floatPos < |ins| && IsFirstFloat(ins, floatPos)
  {
    numFloats, numInts, ptrMask := 0, 0, 0;
    trailingFloats, floatPos := true, -1;
    var seenFloat := false;
    RecordNothing(ins);
    for i := 0 to |ins|
      invariant Recorded(ins[..i], numFloats, numInts, ptrMask, trailingFloats)
      invariant AllFast(ins[..i])
      invariant seenFloat == (numFloats > 0)
      invariant floatPos == FirstFloat(ins[..i])
    {
      FirstFloatStep(ins, i);
      AllFastStep(ins, i);
      if IsWordKind(ins[i]) {
        RecordWord(ins, i, numFloats, numInts, ptrMask, trailingFloats);
        if seenFloat {
          trailingFloats := false;
        }
        if IsPointerKind(ins[i]) {
          ptrMask := SetBit(ptrMask, numInts);
        }
        numInts := numInts + 1;
      } else if IsFloatKind(ins[i]) {
        RecordFloat(ins, i, numFloats, numInts, ptrMask, trailingFloats);
        if !seenFloat {
          floatPos := i;
        }
        seenFloat := true;
        numFloats := numFloats + 1;
      } else {
        return false, numFloats, numInts, ptrMask, trailingFloats, floatPos;
      }
    }
    RecordAll(ins, numFloats, numInts, ptrMask, trailingFloats);
    assert ins[..|ins|] == ins;
    if floatPos >= 0 {
      FirstFloatIsFirst(ins);
    }
    ok := true;
  }

  /** `platformOk` is the GOARCH/GOOS guard; `installed` is what has been written over the function
      variable when the method returns. */
  method TryRegisterFastPath(t: Tables, platformOk: bool, ty: FuncType) returns (ok: bool, installed: Option<Installed>)
    requires Generated(t)
    ensures ok <==> platformOk && FastEligible(ty)
    ensures ok <==> installed.Some?
    ensures ok ==> Fits(installed.value, ty)
  {
    var numIn := |ty.ins|;
    if !platformOk || numIn > 15 {
      return false, None;
    }
    var fastKinds, numFloats, numInts, ptrMask, trailingFloats, floatPos := ClassifyArguments(ty.ins);
    if !fastKinds {
      return false, None;
    }
    if numFloats > 8 || numInts > 15 {
      ManyFloats(ty);
      return false, None;
    }
    if |ty.outs| > 0 && !FastResult(ty.outs) {
      return false, None;
    }
    ok, installed := InstallFor(t, ty, numFloats, numInts, ptrMask, trailingFloats, floatPos);
  }

  lemma ManyFloats(ty: FuncType)
    ensures NumFloats(ty.ins) > 1 ==> !FastEligible(ty)
  {
    if NumFloats(ty.ins) > 1 {
      ManyFloatsShape(ty.ins);
    }
  }

  /** No float or a trailing one: the dispatch table decides. */
  method InstallTrailing(t: Tables, ty: FuncType, numFloats: nat, numInts: nat, ptrMask: nat)
    returns (ok: bool, installed: Option<Installed>)
    requires Generated(t) && AllFast(ty.ins) && |ty.ins| <= 15 && FastResult(ty.outs)
    requires Recorded(ty.ins, numFloats, numInts, ptrMask, true) && numFloats <= 1
    ensures ok <==> FastEligible(ty)
    ensures ok <==> installed.Some?
    ensures ok ==> Fits(installed.value, ty)
  {
    var hasReturn := |ty.outs| > 0;
    TrailingFits(ty);
    if numFloats == 0 {
      AllWordsShape(ty.ins);
      installed := RegisterFastFunc(t, numInts, ptrMask, 0, hasReturn);
      return installed.Some?, installed;
    }
    TrailingShape(ty.ins);
    if ty.ins[numInts].Float32? {
      installed := RegisterFastFunc(t, numInts, ptrMask, 32, hasReturn);
    } else {
      installed := RegisterFastFunc(t, numInts, ptrMask, 64, hasReturn);
    }
    ok := installed.Some?;
  }

  /** The choice of a wrapper from what the loop has recorded. */
  method InstallFor(t: Tables, ty: FuncType, numFloats: nat, numInts: nat, ptrMask: nat, trailingFloats: bool, floatPos: int)
    returns (ok: bool, installed: Option<Installed>)
    requires Generated(t) && AllFast(ty.ins) && |ty.ins| <= 15 && FastResult(ty.outs)
    requires Recorded(ty.ins, numFloats, numInts, ptrMask, trailingFloats)
    requires numFloats > 0 ==> 0 <= floatPos < |ty.ins| && IsFirstFloat(ty.ins, floatPos)
    ensures ok <==> FastEligible(ty)
    ensures ok <==> installed.Some?
    ensures ok ==> Fits(installed.value, ty)
  {
    if numFloats == 0 || (numFloats == 1 && trailingFloats) {
      NoFloatsWordsFirst(ty.ins);
      ok, installed := InstallTrailing(t, ty, numFloats, numInts, ptrMask);
      return;
    }
    if numFloats > 1 {
      ManyFloats(ty);
      return false, None;
    }
    InnerFits(ty, floatPos);
    if ptrMask == 0 && ty.ins[floatPos].Float32? {
      installed := RegisterInterleaved(t, |ty.ins|, floatPos, |ty.outs| > 0);
      return true, installed;
    }
    return false, None;
  }

  lemma {:induction false} NoFloatsWordsFirst(ins: seq<GoType>)
    ensures NumFloats(ins) == 0 ==> WordsFirst(ins)
  {
    if ins != [] {
      NoFloatsWordsFirst(Front(ins));
    }
  }
}
