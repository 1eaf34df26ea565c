/** The block cache as the package's own code updates it, method by method, each tied to the steps of
    the interleaved model it performs. */
module BlockCache {
  import opened Words
  import opened BlockLifetime

  datatype Value = Value(ty: TypeTag, payload: int)

  /** What calling a Go function by reflection does: panic, or give results. */
  datatype CallResult = Panics | Results(values: seq<Value>)

  /** The Go side of function types and functions: how many parameters a type has, whether it has a
      block encoding, and what calling a function gives. */
  datatype GoSide = GoSide(numIn: TypeTag -> nat, encodes: TypeTag -> bool, call: (Fn, Address, seq<Value>) -> CallResult)

  datatype Outcome = Success(value: Value) | ArityError | ResultTypeError | Panicked

  /** What a caller of InvokeBlock sees of a block of function `fn`. */
  ghost predicate InvokesOwn(r: Outcome, go: GoSide, fn: Fn, a: Address, args: seq<Value>, want: TypeTag) {
    && (r == ArityError <==> go.numIn(fn.ty) != |args| + 1)
    && (r != ArityError ==>
          var answer := go.call(fn, a, args);
          && (r == Panicked <==> answer.Panics? || answer.values == [])
          && (r == ResultTypeError <==> answer.Results? && answer.values != [] && answer.values[0].ty != want)
          && (r.Success? <==> answer.Results? && answer.values != [] && answer.values[0].ty == want)
          && (r.Success? ==> r.value == answer.values[0]))
  }

  class Blocks {
    var heap: map<Address, Object>
    var functions: map<Address, Fn>
    var layouts: map<TypeTag, Layout>
    var thunks: map<nat, TypeTag>
    var refs: multiset<Address>
    ghost var ops: map<OpId, Op>

    /** `ops` are the operations of other threads, which stand still while one method runs. */
    ghost function Now(): State
      reads this
    {
      State(heap, functions, layouts, thunks, refs, ops)
    }

    constructor ()
      ensures Now() == INITIAL
    {
      heap, functions, layouts, thunks, refs, ops := map[], map[], map[], map[], multiset{}, map[];
    }

    method Load(key: Address) returns (fn: Option<Fn>)
      ensures fn == Lookup(Now(), key)
    {
      fn := if key in functions then Some(functions[key]) else None;
    }

    /** A function is stored only for a block that is on the heap. */
    method StoreFunction(key: Address, fn: Fn)
      requires key in heap
      modifies this`functions
      ensures functions == old(functions)[key := fn]
    {
      functions := functions[key := fn];
    }

    /** The dispose callback, which the runtime runs while the block still has its address. */
    method DeleteFunction(key: Address)
      requires key in heap && heap[key].count == 0
      modifies this`functions
      ensures functions == old(functions) - {key}
    {
      functions := functions - {key};
    }

    // The block runtime

    /** _Block_copy of a block on the stack. */
    method CopyToHeap(at: Address, fn: Fn, layout: Layout)
      requires at !in heap
      modifies this`heap
      ensures heap == old(heap)[at := Object(1, fn, layout)]
    {
      heap := heap[at := Object(1, fn, layout)];
    }

    method RetainBlock(a: Address)
      requires a in heap
      modifies this`heap
      ensures heap == Retain(old(heap), a)
    {
      heap := heap[a := heap[a].(count := heap[a].count + 1)];
    }

    /** Freeing makes the address available again, so no function may be left under it. */
    method FreeBlock(a: Address)
      requires a in heap && heap[a].count == 0 && a !in functions
      modifies this`heap
      ensures heap == old(heap) - {a}
    {
      heap := heap - {a};
    }

    /** Calls a block's function by reflection. Whatever the clients do with their references
        meanwhile, the block outlives the call: it has one more than theirs. The function must take the
        block and the arguments, or reflection panics before calling it. */
    method CallRetained(go: GoSide, fn: Fn, a: Address, args: seq<Value>) returns (r: CallResult)
      requires a in heap && heap[a].count > refs[a]
      requires go.numIn(fn.ty) == |args| + 1
      ensures r == go.call(fn, a, args)
    {
      r := go.call(fn, a, args);
    }

    /** blockCache.getLayout; `None` is the panic on a type without an encoding. */
    method GetLayout(go: GoSide, ty: TypeTag, newThunk: nat) returns (layout: Option<Layout>)
      requires newThunk !in thunks
      modifies this`layouts, this`thunks
      ensures layout.None? <==> ty !in old(layouts) && !go.encodes(ty)
      ensures layout.None? ==> layouts == old(layouts) && thunks == old(thunks)
      ensures layout.Some? ==>
                if ty in old(layouts) then
                  layout.value == old(layouts)[ty] && layouts == old(layouts) && thunks == old(thunks)
                else layout.value == Layout(newThunk) && layouts == old(layouts)[ty := layout.value]
                     && thunks == old(thunks)[newThunk := ty]
    {
      if ty in layouts {
        return Some(layouts[ty]);
      }
      if !go.encodes(ty) {
        return None;
      }
      thunks := thunks[newThunk := ty];
      layouts := layouts[ty := Layout(newThunk)];
      return Some(Layout(newThunk));
    }

    /** NewBlock: layout, copy to the heap at an address the runtime chooses, then Store. */
    method NewBlock(go: GoSide, fn: Fn, newThunk: nat, at: Address, ghost k: OpId) returns (block: Option<Address>)
      requires newThunk !in thunks && at !in heap && k !in ops
      modifies this
      ensures block.None? <==> fn.ty !in old(layouts) && !go.encodes(fn.ty)
      ensures block.None? ==> Now() == old(Now())
      ensures block.Some? ==>
                && block.value == at
                && Run(old(Now()), [BlockLifetime.GetLayout(k, fn, newThunk), CopyNew(k, at), Store(k)]) == Some(Now())
    {
      ghost var before := Now();
      var layout := GetLayout(go, fn.ty, newThunk);
      if layout.None? {
        return None;
      }
      CopyToHeap(at, fn, layout.value);
      StoreFunction(at, fn);
      refs := refs + multiset{at};
      block := Some(at);
      NewBlockSteps(before, k, fn, newThunk, at);
    }

    /** _Block_copy of a heap block by a holder. */
    method CopyBlock(a: Address)
      requires a in refs && a in heap
      modifies this`heap, this`refs
      ensures Now() == Apply(old(Now()), Copy(a))
    {
      RetainBlock(a);
      refs := refs + multiset{a};
    }

    /** _Block_release: the last reference runs the dispose helper, which deletes the function, before
        the memory is freed. */
    method ReleaseBlock(a: Address, ghost k: OpId)
      requires a in refs && a in heap && heap[a].count > 0 && k !in ops
      modifies this`heap, this`refs, this`functions
      ensures var steps := if old(heap[a].count) > 1 then [Release(k, a)] else [Release(k, a), Delete(k), Free(k)];
              Run(old(Now()), steps) == Some(Now())
    {
      ghost var before := Now();
      refs := refs - multiset{a};
      heap := heap[a := heap[a].(count := heap[a].count - 1)];
      if heap[a].count == 0 {
        DeleteFunction(a);
        FreeBlock(a);
      }
      ReleaseSteps(before, k, a);
    }

    /** InvokeBlock: retains the block, calls the function stored for it, and gives the reference back
        on success, on both error returns and on panic. */
    method InvokeBlock(go: GoSide, a: Address, args: seq<Value>, want: TypeTag) returns (r: Outcome)
      requires Reachable(Now()) && a in refs && a in heap
      modifies this`heap
      ensures Now() == old(Now())
      ensures r == ArityError <==> go.numIn(old(heap[a].fn).ty) != |args| + 1
      ensures go.numIn(old(heap[a].fn).ty) == |args| + 1 ==>
                var answer := go.call(old(heap[a].fn), a, args);
                && (r == Panicked <==> answer.Panics? || answer.values == [])
                && (r == ResultTypeError <==> answer.Results? && answer.values != [] && answer.values[0].ty != want)
                && (r.Success? <==> answer.Results? && answer.values != [] && answer.values[0].ty == want)
                && (r.Success? ==> r.value == answer.values[0])
    {
      SharedThunkDispatch(Now(), a);
      ReferencesConserved(Now(), a);
      RetainBlock(a);
      r := InvokeRetained(go, a, args, want);
      heap := heap[a := heap[a].(count := heap[a].count - 1)];
      assert heap == old(heap);
    }

    /** InvokeBlock between Copy and the deferred Release. */
    method InvokeRetained(go: GoSide, a: Address, args: seq<Value>, want: TypeTag) returns (r: Outcome)
      requires a in heap && heap[a].count > refs[a] && Lookup(Now(), a) == Some(heap[a].fn)
      ensures InvokesOwn(r, go, heap[a].fn, a, args, want)
    {
      var fn := Load(a);
      if go.numIn(fn.value.ty) != |args| + 1 {
        r := ArityError;
      } else {
        var results := CallRetained(go, fn.value, a, args);
        if results.Panics? || results.values == [] {
          r := Panicked;
        } else if results.values[0].ty != want {
          r := ResultTypeError;
        } else {
          r := Success(results.values[0]);
        }
      }
    }
  }

  lemma NewBlockSteps(s: State, k: OpId, fn: Fn, newThunk: nat, at: Address)
    requires newThunk !in s.thunks && at !in s.heap && k !in s.ops
    ensures var known := fn.ty in s.layouts;
            var layout := if known then s.layouts[fn.ty] else Layout(newThunk);
            Run(s, [BlockLifetime.GetLayout(k, fn, newThunk), CopyNew(k, at), Store(k)]) ==
            Some(State(s.heap[at := Object(1, fn, layout)], s.functions[at := fn],
                       if known then s.layouts else s.layouts[fn.ty := layout],
                       if known then s.thunks else s.thunks[newThunk := fn.ty],
                       s.refs + multiset{at}, s.ops))
  {
    var s1 := Apply(s, BlockLifetime.GetLayout(k, fn, newThunk));
    var s2 := Apply(s1, CopyNew(k, at));
    var s3 := Apply(s2, Store(k));
    assert s3.ops == s.ops;
    RunThree(s, BlockLifetime.GetLayout(k, fn, newThunk), CopyNew(k, at), Store(k));
  }

  lemma ReleaseSteps(s: State, k: OpId, a: Address)
    requires a in s.refs && a in s.heap && s.heap[a].count > 0 && k !in s.ops
    ensures var count := s.heap[a].count - 1;
            var heap := s.heap[a := s.heap[a].(count := count)];
            var refs := s.refs - multiset{a};
            if count > 0 then Run(s, [Release(k, a)]) == Some(s.(heap := heap, refs := refs))
            else Run(s, [Release(k, a), Delete(k), Free(k)]) ==
                 Some(s.(heap := heap - {a}, refs := refs, functions := s.functions - {a}))
  {
    var s1 := Apply(s, Release(k, a));
    if s.heap[a].count > 1 {
      assert s1.ops == s.ops;
      assert [Release(k, a)][1..] == [] && Run(s1, []) == Some(s1);
    } else {
      var s2 := Apply(s1, Delete(k));
      var s3 := Apply(s2, Free(k));
      assert s3.ops == s.ops;
      RunThree(s, Release(k, a), Delete(k), Free(k));
    }
  }

  lemma RunThree(s: State, a: Step, b: Step, c: Step)
    requires Enabled(s, a) && Enabled(Apply(s, a), b) && Enabled(Apply(Apply(s, a), b), c)
    ensures Run(s, [a, b, c]) == Some(Apply(Apply(Apply(s, a), b), c))
  {
    var s1 := Apply(s, a);
    var s2 := Apply(s1, b);
    assert [a, b, c][1..] == [b, c] && [b, c][1..] == [c] && [c][1..] == [];
    assert Run(Apply(s2, c), []) == Some(Apply(s2, c));
    assert Run(s2, [c]) == Some(Apply(s2, c));
    assert Run(s1, [b, c]) == Run(s2, [c]);
  }
}
