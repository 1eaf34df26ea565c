/** SyscallN: interfaces prepared once per argument count, contexts whose pointer array is linked once. */
module Syscalls {
  import opened Words
  import opened GoTypes
  import opened Descriptors
  import opened Marshal
  import opened ReflectCall

  const MAX_ARGS: nat := 32

  const RESULT_TYPE: Descriptor := Descriptor(StructKind, 16, 8, [UINT64_DESCRIPTOR, UINT64_DESCRIPTOR])

  /** The interface that preparing `n` pointer arguments on demand would give. */
  function SyscallInterface(n: nat): CallInterface {
    CallInterface(false, RESULT_TYPE, seq(n, _ => POINTER_DESCRIPTOR), None)
  }

  /** The engine, with the errno it captures during a call. */
  datatype Engine = Engine(f: Foreign, errno: (CallInterface, word, seq<Cell>) -> word)

  /** The cells C sees: the n words of this call. */
  function WordCells(args: seq<word>): seq<Cell> {
    seq(|args|, i requires 0 <= i < |args| => Bytes(LittleEndian(args[i], 8)))
  }

  datatype SyscallResult = Panicked | Result(r1: word, r2: word, err: word)

  /** A 32-bit -1, sign- or zero-extended. */
  predicate IsMinusOne(r: word) {
    r % 0x1_0000_0000 == 0xFFFF_FFFF
  }

  /** What a call over an interface of two result words gives. */
  function Performed(e: Engine, cif: CallInterface, fn: word, args: seq<word>): SyscallResult
    requires Honest(e.f) && cif.ret.size == 16
  {
    var cells := WordCells(args);
    match e.f.call(cif, fn, cells)
    case CallFailed => Result(0, 0, 0)
    case Returned(bytes) =>
      var r1, r2 := Address(bytes[..8]), Address(bytes[8..]);
      Result(r1, r2, if IsMinusOne(r1) then e.errno(cif, fn, cells) else 0)
  }

  /** The interface of n arguments is n pointers and a 16-byte struct of two words, at offsets 0 and 8. */
  lemma InterfaceMeaning(n: nat)
    ensures var cif := SyscallInterface(n);
            && !cif.cdecl && cif.variadicAfter == None && |cif.argTypes| == n
            && (forall i :: 0 <= i < n ==> ClassOf(cif.argTypes[i]) == PointerClass && cif.argTypes[i].size == 8)
            && cif.ret.kind == StructKind && |cif.ret.members| == 2
            && cif.ret.size == CSize(cif.ret) == 16 && cif.ret.align == CAlign(cif.ret) == 8
            && (forall i :: 0 <= i < 2 ==> cif.ret.members[i] == UINT64_DESCRIPTOR && COffset(cif.ret.members, i) == 8 * i)
  {
    var w := UINT64_DESCRIPTOR;
    var ms := [w, w];
    ScalarSizesAligned();
    ZeroAligned(8);
    OneMember(w);
    assert ms[..0] == [] && ms[..1] == [w];
    assert CEnd(ms) == AlignUp(CEnd([w]), 8) + 8 && CMaxAlign(ms) == Max(CMaxAlign([w]), 8);
  }

  /** C finds at each pointer exactly the word passed there. */
  lemma WordCellsMeaning(args: seq<word>)
    ensures |WordCells(args)| == |args|
    ensures forall i :: 0 <= i < |args| ==>
              var c := WordCells(args)[i]; c.Bytes? && |c.bytes| == 8 && FromLittleEndian(c.bytes) == args[i]
  {
    forall i | 0 <= i < |args| ensures FromLittleEndian(WordCells(args)[i].bytes) == args[i] {
      WordArrives(args[i]);
    }
  }

  lemma LowBytesMinusOne(bytes: seq<byte>)
    requires |bytes| == 8
    ensures IsMinusOne(Address(bytes)) <==> bytes[..4] == [255, 255, 255, 255]
  {
    var a: int, b: int, c: int, d: int := bytes[0], bytes[1], bytes[2], bytes[3];
    FourBytes(bytes);
    LowHalf(a + 256 * b + 0x1_0000 * c + 0x100_0000 * d, FromLittleEndian(bytes[4..]));
    assert bytes[..4] == [bytes[0], bytes[1], bytes[2], bytes[3]];
  }

  lemma LowHalf(low: int, high: nat)
    requires 0 <= low < 0x1_0000_0000
    ensures (low + 0x1_0000_0000 * high) % 0x1_0000_0000 == low
  {
  }

  lemma FourBytes(bytes: seq<byte>)
    requires |bytes| == 8
    ensures var a: int, b: int, c: int, d: int := bytes[0], bytes[1], bytes[2], bytes[3];
            FromLittleEndian(bytes) ==
            a + 256 * b + 0x1_0000 * c + 0x100_0000 * d + 0x1_0000_0000 * FromLittleEndian(bytes[4..])
  {
    var b1, b2, b3 := bytes[1..], bytes[2..], bytes[3..];
    assert b1[1..] == b2 && b2[1..] == b3 && b3[1..] == bytes[4..];
    var a: int, b: int, c: int, d: int := bytes[0], bytes[1], bytes[2], bytes[3];
    assert FromLittleEndian(b3) == d + 256 * FromLittleEndian(bytes[4..]);
    assert FromLittleEndian(b2) == c + 256 * FromLittleEndian(b3);
    assert FromLittleEndian(b1) == b + 256 * FromLittleEndian(b2);
    assert FromLittleEndian(bytes) == a + 256 * FromLittleEndian(b1);
  }

  /** What SyscallN gives: over the interface that preparing one pointer argument per word would give. */
  function ExpectedResult(e: Engine, fn: word, args: seq<word>): SyscallResult
    requires Honest(e.f)
  {
    if fn == 0 || |args| > MAX_ARGS || !e.f.prepares(SyscallInterface(|args|)) then SyscallResult.Panicked
    else Performed(e, SyscallInterface(|args|), fn, args)
  }

  /** SyscallN panics exactly on a nil function, on more than 32 arguments and on a refused interface. A
      failed call gives zeros. Otherwise r1 and r2 are the two words C stored, and err is the errno captured
      during the call exactly if the low four bytes of the first word are all ones, and 0 if not. */
  lemma SyscallMeaning(e: Engine, fn: word, args: seq<word>)
    requires Honest(e.f)
    ensures var r, cif := ExpectedResult(e, fn, args), SyscallInterface(|args|);
            && (r.Panicked? <==> fn == 0 || |args| > 32 || !e.f.prepares(cif))
            && (r.Result? ==>
                  var answer, captured := e.f.call(cif, fn, WordCells(args)), e.errno(cif, fn, WordCells(args));
                  && (answer.CallFailed? ==> r == Result(0, 0, 0))
                  && (answer.Returned? ==>
                        && |answer.bytes| == 16
                        && LittleEndian(r.r1, 8) == answer.bytes[..8] && LittleEndian(r.r2, 8) == answer.bytes[8..]
                        && r.err == if answer.bytes[..4] == [255, 255, 255, 255] then captured else 0))
  {
    var cif := SyscallInterface(|args|);
    var answer := e.f.call(cif, fn, WordCells(args));
    if answer.Returned? {
      var low, high := answer.bytes[..8], answer.bytes[8..];
      BytesRoundTrip(low);
      BytesRoundTrip(high);
      LowBytesMinusOne(low);
      assert low[..4] == answer.bytes[..4];
    }
  }

  /** The global interface cache behind a sync.Once. */
  class InterfaceCache {
    const cifs: array<CallInterface>
    const failed: array<bool>
    var done: bool

    ghost predicate Valid(f: Foreign)
      reads this, cifs, failed
    {
      && cifs.Length == MAX_ARGS + 1 && failed.Length == MAX_ARGS + 1
      && (done ==> forall n :: 0 <= n <= MAX_ARGS ==>
            cifs[n] == SyscallInterface(n) && failed[n] == !f.prepares(SyscallInterface(n)))
    }

    constructor (ghost f: Foreign)
      ensures Valid(f) && !done && fresh(cifs) && fresh(failed)
    {
      cifs := new CallInterface[MAX_ARGS + 1](_ => SyscallInterface(0));
      failed := new bool[MAX_ARGS + 1](_ => false);
      done := false;
    }

    /** initSyscallCIFs, run by the first call only. */
    method Init(f: Foreign)
      requires Valid(f)
      modifies this`done, cifs, failed
      ensures Valid(f) && done
    {
      if done {
        return;
      }
      for i := 0 to MAX_ARGS + 1
        invariant forall n :: 0 <= n < i ==>
                    cifs[n] == SyscallInterface(n) && failed[n] == !f.prepares(SyscallInterface(n))
      {
        var argTypes: seq<Descriptor> := [];
        for j := 0 to i
          invariant argTypes == seq(j, _ => POINTER_DESCRIPTOR)
        {
          argTypes := argTypes + [POINTER_DESCRIPTOR];
        }
        cifs[i] := CallInterface(false, RESULT_TYPE, argTypes, None);
        failed[i] := !f.prepares(cifs[i]);
      }
      done := true;
    }
  }

  /** A pointer to a slot of the context's own `args`. */
  datatype ArgPointer = ArgPointer(slot: nat)

  /** A pooled context. */
  class SyscallContext {
    const args: array<word>
    const ffiArgs: array<ArgPointer>
    var r1: word
    var r2: word

    /** Pointer i still points at slot i. */
    ghost predicate Valid()
      reads ffiArgs
    {
      && args.Length == MAX_ARGS && ffiArgs.Length == MAX_ARGS
      && forall i :: 0 <= i < MAX_ARGS ==> ffiArgs[i] == ArgPointer(i)
    }

    constructor ()
      ensures Valid() && fresh(args) && fresh(ffiArgs)
    {
      args := new word[MAX_ARGS](_ => 0);
      ffiArgs := new ArgPointer[MAX_ARGS](_ => ArgPointer(0));
      r1, r2 := 0, 0;
      new;
      for i := 0 to MAX_ARGS
        invariant forall j :: 0 <= j < i ==> ffiArgs[j] == ArgPointer(j)
      {
        ffiArgs[i] := ArgPointer(i);
      }
    }

    /** Copies the words of this call into the context and clears the result. */
    method Load(wordArgs: seq<word>)
      requires Valid() && |wordArgs| <= MAX_ARGS
      modifies this, args
      ensures args[..|wordArgs|] == wordArgs && r1 == 0 && r2 == 0
    {
      for i := 0 to |wordArgs|
        invariant args[..i] == wordArgs[..i]
      {
        args[i] := wordArgs[i];
      }
      r1, r2 := 0, 0;
    }

    /** No two contexts share memory. */
    ghost predicate Apart(other: SyscallContext) {
      this != other && args != other.args
    }

    /** What another call may do to a context while it has it. */
    method Scribble()
      modifies this, args
    {
      r1, r2 := *, *;
      for i := 0 to args.Length {
        args[i] := *;
      }
    }

    /** The engine reads the arguments through ffiArgs[..n] and stores the two result words. */
    method CallFunction(e: Engine, cif: CallInterface, fn: word, n: nat, ghost wordArgs: seq<word>) returns (callErrno: word)
      requires Valid() && Honest(e.f) && cif.ret.size == 16
      requires n == |wordArgs| <= MAX_ARGS && args[..n] == wordArgs
      modifies this`r1, this`r2
      ensures Valid()
      ensures callErrno == e.errno(cif, fn, WordCells(wordArgs))
      ensures var outcome := e.f.call(cif, fn, WordCells(wordArgs));
              if outcome.Returned? then
                |outcome.bytes| == 16 && r1 == Address(outcome.bytes[..8]) && r2 == Address(outcome.bytes[8..])
              else r1 == old(r1) && r2 == old(r2)
    {
      var cells: seq<Cell> := [];
      for i := 0 to n
        invariant r1 == old(r1) && r2 == old(r2)
        invariant cells == WordCells(wordArgs)[..i]
      {
        assert args[i] == wordArgs[i];
        cells := cells + [Bytes(LittleEndian(args[ffiArgs[i].slot], 8))];
      }
      assert cells == WordCells(wordArgs);
      callErrno := e.errno(cif, fn, cells);
      var outcome := e.f.call(cif, fn, cells);
      if outcome.Returned? {
        r1, r2 := Address(outcome.bytes[..8]), Address(outcome.bytes[8..]);
      }
    }
  }

  /** The pool of contexts. */
  class SyscallPool {
    var idle: set<SyscallContext>

    ghost predicate Valid()
      reads this, PointerArrays()
    {
      && (forall c :: c in idle ==> c.Valid())
      && (forall c, d :: c in idle && d in idle && c != d ==> c.Apart(d))
    }

    /** A context that has been taken out, so that no other call touches it. */
    ghost predicate Taken(mine: SyscallContext)
      reads this, mine.ffiArgs
    {
      mine.Valid() && forall c :: c in idle ==> mine.Apart(c)
    }

    ghost function PointerArrays(): set<array<ArgPointer>>
      reads this
    {
      set c | c in idle :: c.ffiArgs
    }

    ghost function WordArrays(): set<array<word>>
      reads this
    {
      set c | c in idle :: c.args
    }

    constructor ()
      ensures Valid() && idle == {}
    {
      idle := {};
    }

    method Get() returns (c: SyscallContext)
      requires Valid()
      modifies this
      ensures Valid() && Taken(c) && idle <= old(idle)
      ensures c in old(idle) || (fresh(c) && fresh(c.args))
    {
      if idle == {} {
        c := new SyscallContext();
      } else {
        c :| c in idle;
        idle := idle - {c};
      }
    }

    /** From here on any other call may take the context and write to it. */
    method Put(c: SyscallContext)
      requires Valid() && Taken(c)
      modifies this, c, c.args
      ensures Valid() && idle == old(idle) + {c}
    {
      idle := idle + {c};
      c.Scribble();
    }

    method ScribbleAll(mine: SyscallContext)
      requires Valid() && Taken(mine)
      modifies idle, WordArrays()
      ensures Valid() && Taken(mine) && unchanged(mine, mine.args)
    {
      var rest := idle;
      while rest != {}
        invariant rest <= idle
        invariant unchanged(mine, mine.args)
        decreases |rest|
      {
        var c :| c in rest;
        assert mine.Apart(c);
        c.Scribble();
        rest := rest - {c};
      }
    }

    method Shuffle(mine: SyscallContext)
      requires Valid() && Taken(mine)
      modifies this
      ensures Valid() && Taken(mine)
      ensures forall c :: c in idle ==> c in old(idle) || (fresh(c) && fresh(c.args))
    {
      var left: set<SyscallContext> :| left <= idle;
      idle := left;
      if * {
        var c := new SyscallContext();
        c.Scribble();
        idle := idle + {c};
      }
    }

    /** What other calls do between two statements of one that has taken `mine`: they take contexts,
        write anything into them, and put back some of them or others. */
    method Others(mine: SyscallContext)
      requires Valid() && Taken(mine)
      modifies this, idle, WordArrays()
      ensures Valid() && Taken(mine) && unchanged(mine, mine.args)
      ensures forall c :: c in idle ==> c in old(idle) || (fresh(c) && fresh(c.args))
    {
      ScribbleAll(mine);
      Shuffle(mine);
    }

    /** The call on the context it has taken: C sees exactly this call's words, none left from a longer
        earlier one, and the result read is the one it stored. */
    method Perform(ctx: SyscallContext, e: Engine, cif: CallInterface, fn: word, wordArgs: seq<word>)
      returns (r: SyscallResult)
      requires Valid() && Taken(ctx) && Honest(e.f) && cif.ret.size == 16 && |wordArgs| <= MAX_ARGS
      modifies this, idle, WordArrays(), ctx, ctx.args
      ensures Valid() && Taken(ctx)
      ensures forall c :: c in idle ==> c in old(idle) || (fresh(c) && fresh(c.args))
      ensures r == Performed(e, cif, fn, wordArgs)
    {
      ctx.Load(wordArgs);
      Others(ctx);
      var callErrno := ctx.CallFunction(e, cif, fn, |wordArgs|, wordArgs);
      Others(ctx);
      var r1, r2 := ctx.r1, ctx.r2;
      var err: word := 0;
      if IsMinusOne(r1) {
        err := callErrno;
      }
      r := Result(r1, r2, err);
    }

    /** Get, the call, Put: the result is read before the context goes back. */
    method OnContext(e: Engine, cif: CallInterface, fn: word, wordArgs: seq<word>) returns (r: SyscallResult)
      requires Valid() && Honest(e.f) && cif.ret.size == 16 && |wordArgs| <= MAX_ARGS
      modifies this, idle, WordArrays()
      ensures Valid() && forall c :: c in idle ==> c in old(idle) || (fresh(c) && fresh(c.args))
      ensures r == Performed(e, cif, fn, wordArgs)
    {
      var ctx := Get();
      Others(ctx);
      r := Perform(ctx, e, cif, fn, wordArgs);
      Put(ctx);
    }

    /** SyscallN. The cached interface is the one prepared on demand, and whichever context the pool
        hands out, the result is this call's own. */
    method SyscallN(cache: InterfaceCache, e: Engine, fn: word, wordArgs: seq<word>) returns (r: SyscallResult)
      requires Valid() && cache.Valid(e.f) && Honest(e.f)
      modifies this, idle, WordArrays(), cache`done, cache.cifs, cache.failed
      ensures Valid() && cache.Valid(e.f)
      ensures forall c :: c in idle ==> c in old(idle) || (fresh(c) && fresh(c.args))
      ensures r == ExpectedResult(e, fn, wordArgs)
    {
      if fn == 0 {
        return SyscallResult.Panicked;
      }
      cache.Init(e.f);
      var nArgs := |wordArgs|;
      if nArgs > MAX_ARGS {
        return SyscallResult.Panicked;
      }
      if cache.failed[nArgs] {
        return SyscallResult.Panicked;
      }
      var cif := cache.cifs[nArgs];
      r := OnContext(e, cif, fn, wordArgs);
    }

    /** Over any sequence of calls, on contexts reused in any order, each call gives what it would give
        alone: nothing carries over from one call to the next. */
    method SyscallSequence(cache: InterfaceCache, e: Engine, fns: seq<word>, argLists: seq<seq<word>>)
      returns (results: seq<SyscallResult>)
      requires Valid() && cache.Valid(e.f) && Honest(e.f) && |fns| == |argLists|
      modifies this, idle, WordArrays(), cache`done, cache.cifs, cache.failed
      ensures Valid() && cache.Valid(e.f)
      ensures |results| == |fns| && forall i :: 0 <= i < |fns| ==> results[i] == ExpectedResult(e, fns[i], argLists[i])
    {
      results := [];
      for i := 0 to |fns|
        invariant Valid() && cache.Valid(e.f)
        invariant forall c :: c in idle ==> c in old(idle) || (fresh(c) && fresh(c.args))
        invariant |results| == i && forall j :: 0 <= j < i ==> results[j] == ExpectedResult(e, fns[j], argLists[j])
      {
        var r := SyscallN(cache, e, fns[i], argLists[i]);
        results := results + [r];
      }
    }
  }
}
