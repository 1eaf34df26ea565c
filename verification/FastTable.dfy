/** The generator of the fast path: the wrappers it writes, the dispatch table that instantiates them
    and the table of interleaved-float wrappers. Generated Go code is modelled as data with a meaning,
    so that "the generator emits the right code" is a statement about tables. */
module FastTable {
  import opened Words

  /** A wrapper parameter: `a<k> A<k>` or `f1 float<bits>`. */
  datatype Param = IntParam(k: nat) | FloatParam(bits: nat)

  /** The statement `ints[slot] = uintptr(a<k>)`. */
  datatype Store = Store(slot: nat, k: nat)

  /** A generated wrapper. `floatBits` is the width moved to floats[0], 0 for none; `kept` lists the
      parameters named in KeepAlive statements after the call. */
  datatype Wrapper = Wrapper(params: seq<Param>, stores: seq<Store>, floatBits: nat, kept: seq<nat>, hasResult: bool)

  /** A wrapper instantiated for its type arguments: pointers[k-1] says whether A<k> is
      unsafe.Pointer or uintptr. This is what forceFuncPtr installs. */
  datatype Installed = Installed(wrapper: Wrapper, pointers: seq<bool>)

  /** A dispatch case: the two wrapper names it calls and their type arguments. */
  datatype Case = Case(withResult: string, withoutResult: string, pointers: seq<bool>)

  datatype Key = Key(bits: nat, n: nat, mask: nat)
  datatype Spot = Spot(totalArgs: nat, floatPos: nat, hasResult: bool)

  const MAX_POINTER_MASK_ARGS: nat := 6

  function Pow2(n: nat): (p: nat)
    ensures p > 0
  {
    if n == 0 then 1 else 2 * Pow2(n - 1)
  }

  /** `mask & (1 << i) != 0`. */
  predicate Bit(mask: nat, i: nat) {
    if i == 0 then mask % 2 == 1 else Bit(mask / 2, i - 1)
  }

  /** `mask | (1 << i)`. */
  function SetBit(mask: nat, i: nat): nat {
    if Bit(mask, i) then mask else mask + Pow2(i)
  }

  function MaxInts(bits: nat): nat {
    if bits == 0 then 15 else 14
  }

  // ---------- wrapper names ----------

  function Digit(d: nat): char
    requires d < 10
  {
    '0' + d as char
  }

  function Decimal(n: nat): string
    requires n < 100
  {
    if n < 10 then [Digit(n)] else [Digit(n / 10), Digit(n % 10)]
  }

  /** What follows the argument count in a name. */
  function NameRest(bits: nat, ret: bool): string
    requires bits < 100
  {
    (if bits != 0 then "F" + Decimal(bits) else "") + (if ret then "R" else "V")
  }

  const NAME_HEAD := "fastInts"

  function WrapperName(n: nat, bits: nat, ret: bool): string
    requires n < 100 && bits < 100
  {
    NAME_HEAD + (Decimal(n) + NameRest(bits, ret))
  }

  predicate Emitted(n: nat, bits: nat) {
    (bits == 0 || bits == 32 || bits == 64) && n <= MaxInts(bits)
  }

  function DigitValue(c: char): nat {
    if '0' <= c <= '9' then c as int - '0' as int else 0
  }

  function RestBits(rest: string): nat {
    if |rest| < 2 then 0 else if rest[1] == '3' then 32 else 64
  }

  /** Reads the argument count, float width and result shape back from a name. */
  function ParseName(w: string): (nat, nat, bool)
    requires |w| > 9
  {
    var two := '0' <= w[9] <= '9';
    (if two then 10 * DigitValue(w[8]) + DigitValue(w[9]) else DigitValue(w[8]),
     RestBits(if two then w[10..] else w[9..]),
     w[|w| - 1] == 'R')
  }

  lemma NameParses(n: nat, bits: nat, ret: bool)
    requires Emitted(n, bits)
    ensures |WrapperName(n, bits, ret)| > 9 && ParseName(WrapperName(n, bits, ret)) == (n, bits, ret)
  {
    CountDigits(n);
    RestParses(bits, ret);
    SplitParses(NAME_HEAD, Decimal(n), NameRest(bits, ret));
  }

  /** A name is parsed by its parts. */
  lemma SplitParses(head: string, d: string, rest: string)
    requires |head| == 8 && 1 <= |d| <= 2 && rest != "" && !('0' <= rest[0] <= '9')
    requires forall i :: 0 <= i < |d| ==> '0' <= d[i] <= '9'
    ensures |head + (d + rest)| > 9
    ensures ParseName(head + (d + rest)) ==
            (if |d| == 1 then DigitValue(d[0]) else 10 * DigitValue(d[0]) + DigitValue(d[1]),
             RestBits(rest), rest[|rest| - 1] == 'R')
  {
    Suffixes(head, d, rest);
  }

  lemma CountDigits(n: nat)
    requires n < 100
    ensures var d := Decimal(n);
            && |d| == (if n < 10 then 1 else 2) && (forall i :: 0 <= i < |d| ==> '0' <= d[i] <= '9')
            && n == if |d| == 1 then DigitValue(d[0]) else 10 * DigitValue(d[0]) + DigitValue(d[1])
  {
  }

  lemma RestParses(bits: nat, ret: bool)
    requires bits == 0 || bits == 32 || bits == 64
    ensures var rest := NameRest(bits, ret);
            && rest != "" && !('0' <= rest[0] <= '9') && rest[|rest| - 1] == (if ret then 'R' else 'V')
            && RestBits(rest) == bits
  {
  }

  /** Where the parts of a name are found again. */
  lemma Suffixes(head: string, d: string, rest: string)
    requires |head| == 8 && 1 <= |d| <= 2 && rest != ""
    ensures var w := head + (d + rest);
            && |w| == 8 + |d| + |rest| && w[8] == d[0] && w[8 + |d|..] == rest && w[8 + |d|] == rest[0]
            && (|d| == 2 ==> w[9] == d[1]) && w[|w| - 1] == rest[|rest| - 1]
  {
  }

  /** No two generated wrappers share a name. */
  lemma WrapperNamesDistinct(n: nat, bits: nat, ret: bool, n': nat, bits': nat, ret': bool)
    requires Emitted(n, bits) && Emitted(n', bits')
    requires WrapperName(n, bits, ret) == WrapperName(n', bits', ret')
    ensures n == n' && bits == bits' && ret == ret'
  {
    NameParses(n, bits, ret);
    NameParses(n', bits', ret');
  }

  // ---------- emitWrappers ----------

  function IntParams(n: nat): seq<Param> {
    seq(n, (i: nat) => IntParam(i + 1))
  }

  function Stores(n: nat): seq<Store> {
    seq(n, (i: nat) => Store(i, i + 1))
  }

  /** fastInts{n}{F<bits>}{R|V}: n words, then the float if there is one. */
  function TrailingWrapper(n: nat, bits: nat, ret: bool): Wrapper {
    Wrapper(IntParams(n) + (if bits != 0 then [FloatParam(bits)] else []), Stores(n), bits, seq(n, (i: nat) => i + 1), ret)
  }

  method EmitWrapper(n: nat, bits: nat, ret: bool) returns (w: Wrapper)
    ensures w == TrailingWrapper(n, bits, ret)
  {
    var params: seq<Param> := [];
    for i := 1 to n + 1
      invariant params == IntParams(i - 1)
    {
      params := params + [IntParam(i)];
    }
    if bits != 0 {
      params := params + [FloatParam(bits)];
    }
    var stores: seq<Store> := [];
    for i := 1 to n + 1
      invariant stores == Stores(i - 1)
    {
      stores := stores + [Store(i - 1, i)];
    }
    var kept: seq<nat> := [];
    for i := 1 to n + 1
      invariant kept == seq(i - 1, (j: nat) => j + 1)
    {
      kept := kept + [i];
    }
    w := Wrapper(params, stores, bits, kept, ret);
  }

  function Width(b: nat): nat {
    if b == 0 then 0 else if b == 1 then 32 else 64
  }

  /** The wrappers written before the generator reaches count `m` of width number `b`. */
  predicate EmittedBefore(n: nat, bits: nat, b: nat, m: nat)
    ensures EmittedBefore(n, bits, b, m) ==> Emitted(n, bits)
  {
    || (bits == 0 && n <= 15 && (b > 0 || n < m))
    || (bits == 32 && n <= 14 && (b > 1 || (b == 1 && n < m)))
    || (bits == 64 && n <= 14 && (b > 2 || (b == 2 && n < m)))
  }

  ghost predicate WrappersUpTo(defs: map<string, Wrapper>, b: nat, m: nat) {
    && (forall n, bits, ret :: EmittedBefore(n, bits, b, m) ==> Defined(defs, n, bits, ret))
    && (forall name :: name in defs ==> NamedBefore(name, b, m))
  }

  predicate Defined(defs: map<string, Wrapper>, n: nat, bits: nat, ret: bool)
    requires Emitted(n, bits)
  {
    var name := WrapperName(n, bits, ret);
    name in defs && defs[name] == TrailingWrapper(n, bits, ret)
  }

  predicate NamedBefore(name: string, b: nat, m: nat) {
    |name| > 9 && var (n, bits, ret) := ParseName(name); EmittedBefore(n, bits, b, m)
  }

  /** Exactly the wrappers fastInts0..15, fastInts0..14F32 and fastInts0..14F64, each in both result
      shapes and each declared under its own name. */
  ghost predicate AllWrappers(defs: map<string, Wrapper>) {
    WrappersUpTo(defs, 3, 0)
  }

  /** `duplicate` reports whether some wrapper would be declared twice, which Go would reject. */
  method EmitWrappers() returns (defs: map<string, Wrapper>, duplicate: bool)
    ensures AllWrappers(defs)
    ensures !duplicate
  {
    defs, duplicate := map[], false;
    for b := 0 to 3
      invariant WrappersUpTo(defs, b, 0) && !duplicate
    {
      var bits := Width(b);
      var maxInts := 15;
      if bits != 0 {
        maxInts := 14;
      }
      for n := 0 to maxInts + 1
        invariant WrappersUpTo(defs, b, n) && !duplicate
      {
        NameParses(n, bits, true);
        NameParses(n, bits, false);
        var withResult := EmitWrapper(n, bits, true);
        var withoutResult := EmitWrapper(n, bits, false);
        var r, v := WrapperName(n, bits, true), WrapperName(n, bits, false);
        duplicate := duplicate || r in defs || v in defs;
        WrappersStep(defs, b, n);
        defs := defs[r := withResult][v := withoutResult];
      }
    }
  }

  lemma WrappersStep(defs: map<string, Wrapper>, b: nat, n: nat)
    requires b < 3 && n <= MaxInts(Width(b)) && WrappersUpTo(defs, b, n)
    ensures var bits := Width(b);
            var r, v := WrapperName(n, bits, true), WrapperName(n, bits, false);
            && r !in defs && v !in defs
            && WrappersUpTo(defs[r := TrailingWrapper(n, bits, true)][v := TrailingWrapper(n, bits, false)], b, n + 1)
  {
    var bits := Width(b);
    NameParses(n, bits, true);
    NameParses(n, bits, false);
    var r, v := WrapperName(n, bits, true), WrapperName(n, bits, false);
    var after := defs[r := TrailingWrapper(n, bits, true)][v := TrailingWrapper(n, bits, false)];
    assert !NamedBefore(r, b, n) && !NamedBefore(v, b, n);
    assert NamedBefore(r, b, n + 1) && NamedBefore(v, b, n + 1);
    forall name | name in after ensures NamedBefore(name, b, n + 1) {
      assert name == r || name == v || NamedBefore(name, b, n);
    }
    forall n', bits', ret' | EmittedBefore(n', bits', b, n + 1) ensures Defined(after, n', bits', ret') {
      if EmittedBefore(n', bits', b, n) {
        assert Defined(defs, n', bits', ret');
        NameParses(n', bits', ret');
      } else {
        assert n' == n && bits' == bits;
      }
    }
  }

  // ---------- emitDispatch ----------

  function Masks(n: nat): nat {
    if n <= MAX_POINTER_MASK_ARGS then Pow2(n) else 1
  }

  /** The type arguments of a mask: bit i makes argument i a pointer. */
  function TypeArguments(mask: nat, n: nat): seq<bool> {
    seq(n, (i: nat) => Bit(mask, i))
  }

  predicate InDispatch(key: Key) {
    Emitted(key.n, key.bits) && key.mask < Masks(key.n)
  }

  function DispatchCase(key: Key): Case
    requires InDispatch(key)
  {
    Case(WrapperName(key.n, key.bits, true), WrapperName(key.n, key.bits, false), TypeArguments(key.mask, key.n))
  }

  ghost predicate DispatchUpTo(table: map<Key, Case>, b: nat, m: nat, masks: nat) {
    forall key :: (key in table <==>
                     && InDispatch(key)
                     && (EmittedBefore(key.n, key.bits, b, m) || (key.bits == Width(b) && key.n == m && key.mask < masks)))
                  && (key in table ==> table[key] == DispatchCase(key))
  }

  /** The switch has a case exactly for the generated wrappers and, up to six words, every mask. */
  ghost predicate FullDispatch(table: map<Key, Case>) {
    forall key :: (key in table <==> InDispatch(key)) && (key in table ==> table[key] == DispatchCase(key))
  }

  method EmitDispatch() returns (table: map<Key, Case>)
    ensures FullDispatch(table)
  {
    table := map[];
    for b := 0 to 3
      invariant DispatchUpTo(table, b, 0, 0)
    {
      var bits := Width(b);
      var maxInts := 15;
      if bits != 0 {
        maxInts := 14;
      }
      for n := 0 to maxInts + 1
        invariant DispatchUpTo(table, b, n, 0)
      {
        var masks := 1;
        if n <= MAX_POINTER_MASK_ARGS {
          masks := Pow2(n);
        }
        for mask := 0 to masks
          invariant DispatchUpTo(table, b, n, mask)
        {
          DispatchStep(table, b, n, mask);
          var pointers: seq<bool> := [];
          for i := 0 to n
            invariant pointers == TypeArguments(mask, i)
          {
            pointers := pointers + [Bit(mask, i)];
          }
          table := table[Key(bits, n, mask) := Case(WrapperName(n, bits, true), WrapperName(n, bits, false), pointers)];
        }
      }
    }
  }

  lemma DispatchStep(table: map<Key, Case>, b: nat, n: nat, mask: nat)
    requires b < 3 && n <= MaxInts(Width(b)) && mask < Masks(n) && DispatchUpTo(table, b, n, mask)
    ensures var key := Key(Width(b), n, mask);
            DispatchUpTo(table[key := DispatchCase(key)], b, n, mask + 1)
  {
  }

  // ---------- emitInterleavedFloat32x1 ----------

  /** The parameters with one float32 at `floatPos` and words numbered from 1 around it. */
  function InterleavedParams(count: nat, floatPos: nat): seq<Param> {
    seq(count, (i: nat) => if i < floatPos then IntParam(i + 1) else if i == floatPos then FloatParam(32) else IntParam(i))
  }

  predicate InInterleaved(spot: Spot) {
    2 <= spot.totalArgs <= 15 && spot.floatPos + 2 <= spot.totalArgs
  }

  function InterleavedWrapper(spot: Spot): Wrapper
    requires InInterleaved(spot)
  {
    Wrapper(InterleavedParams(spot.totalArgs, spot.floatPos), Stores(spot.totalArgs - 1), 32, [], spot.hasResult)
  }

  ghost predicate InterleavedUpTo(table: map<Spot, Wrapper>, total: nat, pos: nat) {
    forall spot :: (spot in table <==>
                      && InInterleaved(spot)
                      && (spot.totalArgs < total || (spot.totalArgs == total && spot.floatPos < pos)))
                   && (spot in table ==> table[spot] == InterleavedWrapper(spot))
  }

  ghost predicate FullInterleaved(table: map<Spot, Wrapper>) {
    forall spot :: (spot in table <==> InInterleaved(spot)) && (spot in table ==> table[spot] == InterleavedWrapper(spot))
  }

  method EmitInterleavedFloat32x1() returns (table: map<Spot, Wrapper>)
    ensures FullInterleaved(table)
  {
    table := map[];
    for totalArgs := 2 to 16
      invariant InterleavedUpTo(table, totalArgs, 0)
    {
      for floatPos := 0 to totalArgs - 1
        invariant InterleavedUpTo(table, totalArgs, floatPos)
      {
        var params: seq<Param> := [];
        var intIdx := 1;
        for i := 0 to totalArgs
          invariant params == InterleavedParams(i, floatPos)
          invariant intIdx == if i <= floatPos then i + 1 else i
        {
          if i == floatPos {
            params := params + [FloatParam(32)];
          } else {
            params := params + [IntParam(intIdx)];
            intIdx := intIdx + 1;
          }
        }
        var stores: seq<Store> := [];
        for i := 0 to totalArgs - 1
          invariant stores == Stores(i)
        {
          stores := stores + [Store(i, i + 1)];
        }
        table := table[Spot(totalArgs, floatPos, true) := Wrapper(params, stores, 32, [], true)]
                      [Spot(totalArgs, floatPos, false) := Wrapper(params, stores, 32, [], false)];
      }
    }
  }

  // ---------- The generated lookups ----------

  datatype Tables = Tables(wrappers: map<string, Wrapper>, dispatch: map<Key, Case>, interleaved: map<Spot, Wrapper>)

  ghost predicate Generated(t: Tables) {
    AllWrappers(t.wrappers) && FullDispatch(t.dispatch) && FullInterleaved(t.interleaved)
  }

  method Generate() returns (t: Tables)
    ensures Generated(t)
  {
    var wrappers, _ := EmitWrappers();
    var dispatch := EmitDispatch();
    var interleaved := EmitInterleavedFloat32x1();
    t := Tables(wrappers, dispatch, interleaved);
  }

  /** registerFastFunc: `None` when no case matches. Every case of the switch calls a wrapper that was
      generated, at the number of type arguments it declares. */
  method RegisterFastFunc(t: Tables, numInts: nat, ptrMask: nat, floatBits: nat, hasReturn: bool)
    returns (installed: Option<Installed>)
    requires Generated(t)
    ensures installed.Some? <==> InDispatch(Key(floatBits, numInts, ptrMask))
    ensures installed.Some? ==>
              installed.value == Installed(TrailingWrapper(numInts, floatBits, hasReturn), TypeArguments(ptrMask, numInts))
  {
    var key := Key(floatBits, numInts, ptrMask);
    if key in t.dispatch {
      var c := t.dispatch[key];
      assert Defined(t.wrappers, numInts, floatBits, true) && Defined(t.wrappers, numInts, floatBits, false);
      if hasReturn {
        return Some(Installed(t.wrappers[c.withResult], c.pointers));
      } else {
        return Some(Installed(t.wrappers[c.withoutResult], c.pointers));
      }
    }
    return None;
  }

  /** registerFastFuncInterleavedFloat32x1: installs nothing when no case matches. */
  method RegisterInterleaved(t: Tables, totalArgs: nat, floatPos: nat, hasReturn: bool)
    returns (installed: Option<Installed>)
    requires Generated(t)
    ensures installed.Some? <==> InInterleaved(Spot(totalArgs, floatPos, hasReturn))
    ensures installed.Some? ==>
              installed.value == Installed(InterleavedWrapper(Spot(totalArgs, floatPos, hasReturn)),
                                           seq(totalArgs - 1, _ => false))
  {
    var spot := Spot(totalArgs, floatPos, hasReturn);
    if spot in t.interleaved {
      return Some(Installed(t.interleaved[spot], seq(totalArgs - 1, _ => false)));
    }
    return None;
  }
}
