/** A call through an installed wrapper, and why it is the reflect path's call. */
module FastCall {
  import opened Words
  import opened GoTypes
  import opened Descriptors
  import opened Marshal
  import opened FastTable
  import opened Classifier
  import opened ReflectCall

  /** A pointer into a context's own arrays. */
  datatype Slot = NilSlot | IntSlot(i: nat) | FloatSlot(i: nat)

  predicate IsFloatDescriptor(d: Descriptor) {
    d.kind == FloatKind || d.kind == DoubleKind
  }

  function FloatsIn(ds: seq<Descriptor>): (n: nat)
    ensures n <= |ds|
  {
    if ds == [] then 0 else FloatsIn(Front(ds)) + if IsFloatDescriptor(Last(ds)) then 1 else 0
  }

  /** Where argument `p` of an interface is read from. */
  function SlotOf(ds: seq<Descriptor>, p: nat): Slot
    requires p < |ds|
  {
    var floats := FloatsIn(ds[..p]);
    if IsFloatDescriptor(ds[p]) then FloatSlot(floats) else IntSlot(p - floats)
  }

  /** The interfaces the 15 + 8 slots of a context can serve, with arguments of at most a word. */
  predicate FitsContext(ds: seq<Descriptor>) {
    FloatsIn(ds) <= 8 && |ds| - FloatsIn(ds) <= 15 && forall d :: d in ds ==> d.size <= 8
  }

  lemma {:induction false} FloatsMonotone(ds: seq<Descriptor>, p: nat)
    requires p < |ds|
    ensures FloatsIn(ds[..p]) + (if IsFloatDescriptor(ds[p]) then 1 else 0) <= FloatsIn(ds)
    ensures p - FloatsIn(ds[..p]) + (if IsFloatDescriptor(ds[p]) then 0 else 1) <= |ds| - FloatsIn(ds)
  {
    if p < |ds| - 1 {
      FloatsMonotone(Front(ds), p);
      assert Front(ds)[..p] == ds[..p];
    }
  }

  function ReadSlot(s: Slot, ints: seq<word>, floats: seq<word>): word
    requires s.IntSlot? ==> s.i < |ints|
    requires s.FloatSlot? ==> s.i < |floats|
  {
    match s
    case NilSlot => 0
    case IntSlot(i) => ints[i]
    case FloatSlot(i) => floats[i]
  }

  /** The bytes behind argument `p`: the low bytes of its word, as many as its descriptor says. */
  function FastCell(ds: seq<Descriptor>, ints: seq<word>, floats: seq<word>, p: nat): Cell
    requires |ints| == 15 && |floats| == 8 && FitsContext(ds) && p < |ds|
  {
    FloatsMonotone(ds, p);
    Bytes(LittleEndian(ReadSlot(SlotOf(ds, p), ints, floats), 8)[..ds[p].size])
  }

  function FastCells(ds: seq<Descriptor>, ints: seq<word>, floats: seq<word>): seq<Cell>
    requires |ints| == 15 && |floats| == 8 && FitsContext(ds)
  {
    seq(|ds|, p requires 0 <= p < |ds| => FastCell(ds, ints, floats, p))
  }

  /** The word left in `ret`: zero, overwritten by the bytes the callee stored, if it returned. */
  function ReturnWord(outcome: CallOutcome): word
    requires outcome.Returned? ==> |outcome.bytes| <= 8
  {
    if outcome.Returned? then StoreBytes(0, outcome.bytes) else 0
  }

  class FastCallContext {
    const ints: array<word>
    const floats: array<word>
    const args: array<Slot>
    var ret: word

    ghost predicate Valid() {
      ints.Length == 15 && floats.Length == 8 && args.Length == 23 && ints != floats
    }

    /** No two contexts share memory. */
    ghost predicate Apart(other: FastCallContext) {
      && this != other && args != other.args
      && ints != other.ints && ints != other.floats && floats != other.ints && floats != other.floats
    }

    constructor ()
      ensures Valid() && fresh(ints) && fresh(floats) && fresh(args)
    {
      ints := new word[15](_ => 0);
      floats := new word[8](_ => 0);
      args := new Slot[23](_ => NilSlot);
      ret := 0;
    }

    /** The context holds these words, with one pointer per argument in declared order. */
    ghost predicate Loaded(ds: seq<Descriptor>, wordArgs: seq<word>, floatArgs: seq<word>)
      requires Valid()
      reads ints, floats, args
    {
      && ints[..] == wordArgs && floats[..] == floatArgs
      && |ds| <= 23 && forall p :: 0 <= p < |ds| ==> args[p] == SlotOf(ds, p)
    }

    /** Copies the words in and lets the two cursors place the pointers. */
    method Fill(ds: seq<Descriptor>, wordArgs: seq<word>, floatArgs: seq<word>) returns (argIdx: nat)
      requires Valid() && |wordArgs| == 15 && |floatArgs| == 8 && FitsContext(ds)
      modifies this, ints, floats, args
      ensures Loaded(ds, wordArgs, floatArgs) && argIdx == |ds| && ret == 0
    {
      forall i | 0 <= i < 15 {
        ints[i] := wordArgs[i];
      }
      forall i | 0 <= i < 8 {
        floats[i] := floatArgs[i];
      }
      assert ints[..] == wordArgs && floats[..] == floatArgs;
      argIdx := 0;
      var iIdx, fIdx := 0, 0;
      for k := 0 to |ds|
        invariant argIdx == k && iIdx + fIdx == argIdx && fIdx == FloatsIn(ds[..k])
        invariant ints[..] == wordArgs && floats[..] == floatArgs
        invariant forall p :: 0 <= p < k ==> args[p] == SlotOf(ds, p)
      {
        FloatsMonotone(ds, k);
        assert Front(ds[..k + 1]) == ds[..k] && Last(ds[..k + 1]) == ds[k];
        if ds[k].kind == FloatKind || ds[k].kind == DoubleKind {
          args[argIdx] := FloatSlot(fIdx);
          fIdx := fIdx + 1;
        } else {
          args[argIdx] := IntSlot(iIdx);
          iIdx := iIdx + 1;
        }
        argIdx := argIdx + 1;
      }
      ret := 0;
    }

    /** The engine reads each argument through args[..n] and stores the result into `ret`. */
    method CallFunction(f: Foreign, cif: CallInterface, cfn: word, n: nat,
                        ghost wordArgs: seq<word>, ghost floatArgs: seq<word>)
      returns (outcome: CallOutcome)
      requires Valid() && FitsContext(cif.argTypes) && cif.ret.size <= 8 && Honest(f)
      requires Loaded(cif.argTypes, wordArgs, floatArgs) && n == |cif.argTypes|
      modifies this`ret
      ensures outcome == f.call(cif, cfn, FastCells(cif.argTypes, wordArgs, floatArgs))
      ensures outcome.Returned? ==> |outcome.bytes| <= 8
      ensures ret == if outcome.Returned? then StoreBytes(old(ret), outcome.bytes) else old(ret)
    {
      var cells: seq<Cell> := [];
      for p := 0 to n
        invariant ret == old(ret)
        invariant cells == FastCells(cif.argTypes, wordArgs, floatArgs)[..p]
      {
        FloatsMonotone(cif.argTypes, p);
        assert cif.argTypes[p] in cif.argTypes;
        var w := match args[p]
          case NilSlot => 0
          case IntSlot(i) => ints[i]
          case FloatSlot(i) => floats[i];
        cells := cells + [Bytes(LittleEndian(w, 8)[..cif.argTypes[p].size])];
      }
      assert cells == FastCells(cif.argTypes, wordArgs, floatArgs);
      outcome := f.call(cif, cfn, cells);
      if outcome.Returned? {
        ret := StoreBytes(ret, outcome.bytes);
      }
    }

    /** What another call may do to a context while it has it. */
    method Scribble()
      modifies this, ints, floats, args
    {
      ret := *;
      for i := 0 to ints.Length {
        ints[i] := *;
      }
      for i := 0 to floats.Length {
        floats[i] := *;
      }
      for i := 0 to args.Length {
        args[i] := *;
      }
    }
  }

  /** The pool of contexts: a sync.Pool, which hands out any context put back earlier or a new one. */
  class FastPool {
    var idle: set<FastCallContext>

    ghost predicate Valid()
      reads this
    {
      && (forall c :: c in idle ==> c.Valid())
      && (forall c, d :: c in idle && d in idle && c != d ==> c.Apart(d))
    }

    /** A context that has been taken out, so that no other call touches it. */
    ghost predicate Taken(mine: FastCallContext)
      reads this
    {
      mine.Valid() && forall c :: c in idle ==> mine.Apart(c)
    }

    ghost function WordArrays(): set<array<word>>
      reads this
    {
      (set c | c in idle :: c.ints) + (set c | c in idle :: c.floats)
    }

    ghost function SlotArrays(): set<array<Slot>>
      reads this
    {
      set c | c in idle :: c.args
    }

    constructor ()
      ensures Valid() && idle == {}
    {
      idle := {};
    }

    method Get() returns (c: FastCallContext)
      requires Valid()
      modifies this
      ensures Valid() && Taken(c) && idle <= old(idle)
      ensures c in old(idle) || (fresh(c) && fresh(c.ints) && fresh(c.floats) && fresh(c.args))
    {
      if idle == {} {
        c := new FastCallContext();
      } else {
        c :| c in idle;
        idle := idle - {c};
      }
    }

    /** From here on any other call may take the context and write to it. */
    method Put(c: FastCallContext)
      requires Valid() && Taken(c)
      modifies this, c, c.ints, c.floats, c.args
      ensures Valid() && idle == old(idle) + {c}
    {
      idle := idle + {c};
      c.Scribble();
    }

    /** Other calls write anything into the contexts they take. */
    method ScribbleAll(mine: FastCallContext)
      requires Valid() && Taken(mine)
      modifies idle, WordArrays(), SlotArrays()
      ensures unchanged(mine, mine.ints, mine.floats, mine.args)
    {
      var rest := idle;
      while rest != {}
        invariant rest <= idle
        invariant unchanged(mine, mine.ints, mine.floats, mine.args)
        decreases |rest|
      {
        var c :| c in rest;
        assert mine.Apart(c);
        c.Scribble();
        rest := rest - {c};
      }
    }

    /** Some contexts are still out, and one may come back that was out before. */
    method Shuffle(mine: FastCallContext)
      requires Valid() && Taken(mine)
      modifies this
      ensures Valid() && Taken(mine)
      ensures forall c :: c in idle ==>
                c in old(idle) || (fresh(c) && fresh(c.ints) && fresh(c.floats) && fresh(c.args))
    {
      var left: set<FastCallContext> :| left <= idle;
      idle := left;
      if * {
        var c := new FastCallContext();
        c.Scribble();
        idle := idle + {c};
      }
    }

    /** What other calls do between two statements of one that has taken `mine`: they take contexts,
        write anything into them, and put back some of them or others. */
    method Others(mine: FastCallContext)
      requires Valid() && Taken(mine)
      modifies this, idle, WordArrays(), SlotArrays()
      ensures Valid() && Taken(mine) && unchanged(mine, mine.ints, mine.floats, mine.args)
      ensures forall c :: c in idle ==>
                c in old(idle) || (fresh(c) && fresh(c.ints) && fresh(c.floats) && fresh(c.args))
    {
      ScribbleAll(mine);
      Shuffle(mine);
    }

    /** fastCallIF. The word returned is this call's own although other calls use the pool all the
        time: the context is not in it until `ret` has been read. */
    method FastCallIF(f: Foreign, cif: CallInterface, cfn: word, wordArgs: seq<word>, floatArgs: seq<word>) returns (r: word)
      requires Valid() && |wordArgs| == 15 && |floatArgs| == 8
      requires FitsContext(cif.argTypes) && cif.ret.size <= 8 && Honest(f)
      modifies this, idle, WordArrays(), SlotArrays()
      ensures Valid()
      ensures r == ReturnWord(f.call(cif, cfn, FastCells(cif.argTypes, wordArgs, floatArgs)))
    {
      var ctx := Get();
      Others(ctx);
      var n := ctx.Fill(cif.argTypes, wordArgs, floatArgs);
      Others(ctx);
      var _ := ctx.CallFunction(f, cif, cfn, n, wordArgs, floatArgs);
      Others(ctx);
      r := ctx.ret;
      Put(ctx);
    }

    /** Runs a generated wrapper's body on its arguments' bit patterns. */
    method RunWrapper(w: Installed, args_: seq<word>, f: Foreign, cif: CallInterface, cfn: word) returns (r: word)
      requires Valid() && |args_| == |w.wrapper.params|
      requires forall s :: s in w.wrapper.stores ==> s.slot < 15
      requires FitsContext(cif.argTypes) && cif.ret.size <= 8 && Honest(f)
      modifies this, idle, WordArrays(), SlotArrays()
      ensures Valid()
      ensures var ints, floats := WrapperInts(w.wrapper, args_), WrapperFloats(w.wrapper, args_);
              r == ReturnWord(f.call(cif, cfn, FastCells(cif.argTypes, ints, floats)))
    {
      var params := w.wrapper.params;
      var stores := w.wrapper.stores;
      var wordArgs: seq<word> := seq(15, _ => 0);
      assert stores[..|stores|] == stores;
      for i := 0 to |stores|
        invariant |wordArgs| == 15 && wordArgs == StoreWords(stores[..i], params, args_)
      {
        assert stores[i] in stores;
        assert Front(stores[..i + 1]) == stores[..i] && Last(stores[..i + 1]) == stores[i];
        wordArgs := wordArgs[stores[i].slot := WordNamed(params, args_, stores[i].k)];
      }
      var floatArgs: seq<word> := seq(8, _ => 0);
      if w.wrapper.floatBits != 0 {
        floatArgs := floatArgs[0 := FloatNamed(params, args_)];
      }
      r := FastCallIF(f, cif, cfn, wordArgs, floatArgs);
    }
  }

  /** The value of parameter a<k>. */
  function WordNamed(params: seq<Param>, args: seq<word>, k: nat): word
    requires |params| == |args|
  {
    if params == [] then 0
    else if Last(params) == IntParam(k) then Last(args)
    else WordNamed(Front(params), Front(args), k)
  }

  /** The value of parameter f1. */
  function FloatNamed(params: seq<Param>, args: seq<word>): word
    requires |params| == |args|
  {
    if params == [] then 0
    else if Last(params).FloatParam? then Last(args)
    else FloatNamed(Front(params), Front(args))
  }

  /** The `ints` array after the store statements. */
  function StoreWords(stores: seq<Store>, params: seq<Param>, args: seq<word>): (ints: seq<word>)
    requires |params| == |args| && forall s :: s in stores ==> s.slot < 15
    ensures |ints| == 15
  {
    if stores == [] then seq(15, _ => 0)
    else
      assert Last(stores) in stores;
      StoreWords(Front(stores), params, args)[Last(stores).slot := WordNamed(params, args, Last(stores).k)]
  }

  function WrapperInts(w: Wrapper, args: seq<word>): (ints: seq<word>)
    requires |w.params| == |args| && forall s :: s in w.stores ==> s.slot < 15
    ensures |ints| == 15
  {
    StoreWords(w.stores, w.params, args)
  }

  function WrapperFloats(w: Wrapper, args: seq<word>): (floats: seq<word>)
    requires |w.params| == |args|
    ensures |floats| == 8
  {
    var zero: seq<word> := seq(8, _ => 0);
    if w.floatBits != 0 then zero[0 := FloatNamed(w.params, args)] else zero
  }

  // ---------- The wrapper delivers every argument to its own slot ----------

  lemma {:induction false} WordNamedIsArgument(ins: seq<GoType>, args: seq<word>, p: nat)
    requires |args| == |ins| && p < |ins| && !IsFloatKind(ins[p])
    ensures WordNamed(ParamsFor(ins), args, NumInts(ins[..p]) + 1) == args[p]
  {
    assert Front(ParamsFor(ins)) == ParamsFor(Front(ins));
    if p < |ins| - 1 {
      assert Front(ins)[..p] == ins[..p];
      EarlierWord(ins, p);
      WordNamedIsArgument(Front(ins), Front(args), p);
    } else {
      assert ins[..p] == Front(ins);
    }
  }

  /** An earlier word's name is not that of the last parameter. */
  lemma EarlierWord(ins: seq<GoType>, p: nat)
    requires p < |ins| - 1 && !IsFloatKind(ins[p])
    ensures Last(ParamsFor(ins)) != IntParam(NumInts(ins[..p]) + 1)
  {
    EarlierCount(ins, p);
    if Last(ParamsFor(ins)).IntParam? {
      assert Last(ParamsFor(ins)) == ParamFor(Front(ins), Last(ins));
    }
  }

  lemma EarlierCount(ins: seq<GoType>, p: nat)
    requires p < |ins| - 1 && !IsFloatKind(ins[p])
    ensures NumInts(ins[..p]) < NumInts(Front(ins))
  {
    PointerFlagsAt(Front(ins), p);
    assert Front(ins)[..p] == ins[..p];
  }

  lemma {:induction false} FloatNamedIsArgument(ins: seq<GoType>, args: seq<word>, p: nat)
    requires |args| == |ins| && p < |ins| && IsFloatKind(ins[p]) && NumFloats(ins) == 1
    ensures FloatNamed(ParamsFor(ins), args) == args[p]
    ensures FloatWidth(ins) == if ins[p].Float32? then 32 else 64
  {
    var n := |ins| - 1;
    assert Front(ParamsFor(ins)) == ParamsFor(Front(ins));
    OnlyFloat(ins, p);
    if p < n {
      OnlyFloat(Front(ins), p);
      FloatNamedIsArgument(Front(ins), Front(args), p);
    }
  }

  lemma {:induction false} StoreWordsAt(n: nat, params: seq<Param>, args: seq<word>, j: nat)
    requires |params| == |args| && j < n <= 15
    ensures StoreWords(Stores(n), params, args)[j] == WordNamed(params, args, j + 1)
  {
    assert Front(Stores(n)) == Stores(n - 1);
    if j < n - 1 {
      StoreWordsAt(n - 1, params, args, j);
    }
  }

  lemma FastDescriptor(t: GoType)
    requires FastKind(t)
    ensures GoArgTypeToFfiType(t).Some?
    ensures IsFloatDescriptor(GoArgTypeToFfiType(t).value) <==> IsFloatKind(t)
    ensures GoArgTypeToFfiType(t).value.size <= 8
  {
  }

  lemma FloatsInAppend(ds: seq<Descriptor>, d: Descriptor)
    ensures FloatsIn(ds + [d]) == FloatsIn(ds) + if IsFloatDescriptor(d) then 1 else 0
  {
    assert Front(ds + [d]) == ds && Last(ds + [d]) == d;
  }

  /** The descriptors of a fast signature split into floats and words as its types do. */
  lemma {:induction false} FastDescriptors(ins: seq<GoType>)
    requires forall i :: 0 <= i < |ins| ==> FastKind(ins[i])
    ensures ArgDescriptors(ins).Some?
    ensures FloatsIn(ArgDescriptors(ins).value) == NumFloats(ins)
  {
    if ins != [] {
      var front, t := Front(ins), Last(ins);
      FastDescriptors(front);
      FastDescriptor(t);
      FloatsInAppend(ArgDescriptors(front).value, GoArgTypeToFfiType(t).value);
    }
  }

  lemma FastDescriptorSizes(ins: seq<GoType>)
    requires ArgDescriptors(ins).Some? && forall i :: 0 <= i < |ins| ==> FastKind(ins[i])
    ensures forall d :: d in ArgDescriptors(ins).value ==> d.size <= 8
  {
    var ds := ArgDescriptors(ins).value;
    forall k | 0 <= k < |ds| ensures ds[k].size <= 8 {
      ArgDescriptorsAt(ins, k);
      FastDescriptor(ins[k]);
    }
  }

  lemma {:induction false} ArgDescriptorsPrefix(ts: seq<GoType>, p: nat)
    requires ArgDescriptors(ts).Some? && p <= |ts|
    ensures ArgDescriptors(ts[..p]) == Some(ArgDescriptors(ts).value[..p])
  {
    var ds := ArgDescriptors(ts).value;
    if p < |ts| {
      ArgDescriptorsPrefix(Front(ts), p);
      assert Front(ts)[..p] == ts[..p] && ds[..p] == ArgDescriptors(Front(ts)).value[..p];
    } else {
      assert ts[..p] == ts && ds[..p] == ds;
    }
  }

  /** The bit pattern of a value passed in one register. */
  function ArgBits(v: GoValue): word
    requires WellTyped(v) && FastKind(TypeOf(v))
  {
    Pow256Of8();
    if v.NumberValue? then
      assert Pow256(GoSize(v.numberType)) <= Pow256(8) by {
        assert Pow256(4) <= Pow256(8);
      }
      v.bits
    else v.addr
  }

  function AllBits(args: seq<GoValue>, ins: seq<GoType>): (bits: seq<word>)
    requires ArgsMatch(args, ins) && forall i :: 0 <= i < |ins| ==> FastKind(ins[i])
  {
    seq(|args|, i requires 0 <= i < |args| => ArgBits(args[i]))
  }

  lemma SlotOfArgument(ins: seq<GoType>, p: nat)
    requires (forall i :: 0 <= i < |ins| ==> FastKind(ins[i])) && ArgDescriptors(ins).Some? && p < |ins|
    ensures SlotOf(ArgDescriptors(ins).value, p) ==
            if IsFloatKind(ins[p]) then FloatSlot(NumFloats(ins[..p])) else IntSlot(NumInts(ins[..p]))
  {
    ArgDescriptorsAt(ins, p);
    ArgDescriptorsPrefix(ins, p);
    FastDescriptors(ins[..p]);
    FastDescriptor(ins[p]);
  }

  /** A wrapper at the argument list's own shape delivers its words and its float. */
  predicate Carries(w: Wrapper, ins: seq<GoType>) {
    w.params == ParamsFor(ins) && w.stores == Stores(NumInts(ins)) && w.floatBits == FloatWidth(ins)
  }

  lemma WordDelivered(w: Wrapper, ins: seq<GoType>, bits: seq<word>, p: nat)
    requires Carries(w, ins) && |ins| <= 15 && |bits| == |ins| && p < |ins| && !IsFloatKind(ins[p])
    ensures NumInts(ins[..p]) < 15 && WrapperInts(w, bits)[NumInts(ins[..p])] == bits[p]
  {
    WordNamedIsArgument(ins, bits, p);
    PointerFlagsAt(ins, p);
    StoreWordsAt(NumInts(ins), w.params, bits, NumInts(ins[..p]));
  }

  lemma FloatDelivered(w: Wrapper, ins: seq<GoType>, bits: seq<word>, p: nat)
    requires Carries(w, ins) && |bits| == |ins| && p < |ins| && IsFloatKind(ins[p]) && NumFloats(ins) == 1
    ensures NumFloats(ins[..p]) == 0 && WrapperFloats(w, bits)[0] == bits[p]
  {
    SplitAtFloat(ins, p);
    FloatNamedIsArgument(ins, bits, p);
  }

  /** Whatever slot the cursors choose for argument `p` holds argument `p`. */
  lemma SlotHoldsArgument(w: Installed, ty: FuncType, bits: seq<word>, p: nat)
    requires Fits(w, ty) && NumFloats(ty.ins) <= 1 && |ty.ins| <= 15 && |bits| == |ty.ins|
    requires (forall i :: 0 <= i < |ty.ins| ==> FastKind(ty.ins[i])) && ArgDescriptors(ty.ins).Some? && p < |ty.ins|
    ensures var s := SlotOf(ArgDescriptors(ty.ins).value, p);
            && (s.IntSlot? ==> s.i < 15) && (s.FloatSlot? ==> s.i < 8)
            && ReadSlot(s, WrapperInts(w.wrapper, bits), WrapperFloats(w.wrapper, bits)) == bits[p]
  {
    SlotOfArgument(ty.ins, p);
    if IsFloatKind(ty.ins[p]) {
      SplitAtFloat(ty.ins, p);
      FloatDelivered(w.wrapper, ty.ins, bits, p);
    } else {
      WordDelivered(w.wrapper, ty.ins, bits, p);
    }
  }

  /** Wrapper, word arrays and cursors together put at position `p` exactly the bytes packArg makes. */
  lemma CellMatches(w: Installed, ty: FuncType, args: seq<GoValue>, callback: nat -> word, p: nat)
    requires Fits(w, ty) && NumFloats(ty.ins) <= 1 && |ty.ins| <= 15
    requires ArgsMatch(args, ty.ins) && (forall i :: 0 <= i < |ty.ins| ==> FastKind(ty.ins[i]))
    requires ArgDescriptors(ty.ins).Some? && FitsContext(ArgDescriptors(ty.ins).value) && p < |ty.ins|
    ensures PackArg(args[p], callback).Some?
    ensures FastCell(ArgDescriptors(ty.ins).value,
                     WrapperInts(w.wrapper, AllBits(args, ty.ins)),
                     WrapperFloats(w.wrapper, AllBits(args, ty.ins)), p)
            == PackArg(args[p], callback).value.0
  {
    var ds, bits := ArgDescriptors(ty.ins).value, AllBits(args, ty.ins);
    SlotHoldsArgument(w, ty, bits, p);
    ArgDescriptorsAt(ty.ins, p);
    PackedBits(args[p], callback);
  }

  lemma PackedBits(v: GoValue, callback: nat -> word)
    requires WellTyped(v) && FastKind(TypeOf(v))
    ensures GoArgTypeToFfiType(TypeOf(v)).Some? && GoArgTypeToFfiType(TypeOf(v)).value.size <= 8
    ensures PackArg(v, callback).Some?
    ensures PackArg(v, callback).value.0 ==
            Bytes(LittleEndian(ArgBits(v), 8)[..GoArgTypeToFfiType(TypeOf(v)).value.size])
  {
    LowBytes(ArgBits(v), GoArgTypeToFfiType(TypeOf(v)).value.size, 8);
  }
}
