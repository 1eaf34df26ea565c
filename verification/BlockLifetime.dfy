/** Objective-C blocks made from Go functions, under any interleaving of any number of threads.

    The block runtime's part is taken from Clang's Block Implementation Specification: copying a stack
    block allocates an object with one reference at an address not in use, copying a heap block adds a
    reference, releasing the last one runs the dispose helper and only then frees the memory, after
    which the address may be handed out again. */
module BlockLifetime {
  import opened Words

  type Address = nat
  type OpId = nat
  type TypeTag = nat

  /** A Go function and its type. */
  datatype Fn = Fn(id: nat, ty: TypeTag)

  /** What a block's layout holds: the thunk C enters it by. */
  datatype Layout = Layout(thunk: nat)

  /** A heap block. `fn` is the function NewBlock was called with. */
  datatype Object = Object(count: nat, fn: Fn, layout: Layout)

  /** Operations in flight, each at a point where other threads may run. */
  datatype Op =
    | Copying(fn: Fn, layout: Layout)     // NewBlock, layout obtained
    | Storing(at: Address, stored: Fn)    // NewBlock, block copied, function not yet stored
    | Invoking(at: Address)               // InvokeBlock, block retained
    | Calling(at: Address, loaded: Option<Fn>)  // InvokeBlock, function loaded
    | Deleting(at: Address)               // last reference gone, dispose helper entered
    | Freeing(at: Address)                // dispose helper returned

  /** `refs` counts the references clients hold. */
  datatype State = State(
    heap: map<Address, Object>,
    functions: map<Address, Fn>,
    layouts: map<TypeTag, Layout>,
    thunks: map<nat, TypeTag>,
    refs: multiset<Address>,
    ops: map<OpId, Op>)

  const INITIAL: State := State(map[], map[], map[], map[], multiset{}, map[])

  datatype Step =
    | GetLayout(k: OpId, fn: Fn, freshThunk: nat)
    | CopyNew(k: OpId, a: Address)
    | Store(k: OpId)
    | Copy(a: Address)
    | Release(k: OpId, a: Address)
    | InvokeStart(k: OpId, a: Address)
    | InvokeLoad(k: OpId)
    | InvokeExit(k: OpId)    // success, either error return, or panic: the deferred Release
    | Delete(k: OpId)
    | Free(k: OpId)

  predicate Holding(op: Op, a: Address) {
    (op.Storing? || op.Invoking? || op.Calling?) && op.at == a
  }

  function Lookup(s: State, a: Address): Option<Fn> {
    if a in s.functions then Some(s.functions[a]) else None
  }

  /** A client copies, invokes or releases only a block it holds a reference to; a new operation has a
      new identity; an address is handed out only when free. */
  predicate Enabled(s: State, step: Step) {
    match step
    case GetLayout(k, fn, freshThunk) => k !in s.ops && freshThunk !in s.thunks
    case CopyNew(k, a) => k in s.ops && s.ops[k].Copying? && a !in s.heap
    case Store(k) => k in s.ops && s.ops[k].Storing?
    case Copy(a) => a in s.refs && a in s.heap
    case Release(k, a) => k !in s.ops && a in s.refs && a in s.heap && s.heap[a].count > 0
    case InvokeStart(k, a) => k !in s.ops && a in s.refs && a in s.heap
    case InvokeLoad(k) => k in s.ops && s.ops[k].Invoking?
    case InvokeExit(k) =>
      k in s.ops && (s.ops[k].Invoking? || s.ops[k].Calling?)
      && s.ops[k].at in s.heap && s.heap[s.ops[k].at].count > 0
    case Delete(k) => k in s.ops && s.ops[k].Deleting?
    case Free(k) => k in s.ops && s.ops[k].Freeing?
  }

  function Retain(heap: map<Address, Object>, a: Address): map<Address, Object>
    requires a in heap
  {
    heap[a := heap[a].(count := heap[a].count + 1)]
  }

  /** _Block_release by operation `k`: the last reference starts the dispose helper. */
  function Drop(s: State, k: OpId, a: Address): State
    requires a in s.heap && s.heap[a].count > 0
  {
    var count := s.heap[a].count - 1;
    s.(heap := s.heap[a := s.heap[a].(count := count)],
       ops := if count == 0 then s.ops[k := Deleting(a)] else s.ops - {k})
  }

  function Apply(s: State, step: Step): State
    requires Enabled(s, step)
  {
    match step
    case GetLayout(k, fn, freshThunk) =>
      if fn.ty in s.layouts then s.(ops := s.ops[k := Copying(fn, s.layouts[fn.ty])])
      else
        var layout := Layout(freshThunk);
        s.(layouts := s.layouts[fn.ty := layout], thunks := s.thunks[freshThunk := fn.ty],
           ops := s.ops[k := Copying(fn, layout)])
    case CopyNew(k, a) =>
      s.(heap := s.heap[a := Object(1, s.ops[k].fn, s.ops[k].layout)], ops := s.ops[k := Storing(a, s.ops[k].fn)])
    case Store(k) =>
      s.(functions := s.functions[s.ops[k].at := s.ops[k].stored], refs := s.refs + multiset{s.ops[k].at},
         ops := s.ops - {k})
    case Copy(a) => s.(heap := Retain(s.heap, a), refs := s.refs + multiset{a})
    case Release(k, a) => Drop(s.(refs := s.refs - multiset{a}), k, a)
    case InvokeStart(k, a) => s.(heap := Retain(s.heap, a), ops := s.ops[k := Invoking(a)])
    case InvokeLoad(k) => s.(ops := s.ops[k := Calling(s.ops[k].at, Lookup(s, s.ops[k].at))])
    case InvokeExit(k) => Drop(s, k, s.ops[k].at)
    case Delete(k) => s.(functions := s.functions - {s.ops[k].at}, ops := s.ops[k := Freeing(s.ops[k].at)])
    case Free(k) => s.(heap := s.heap - {s.ops[k].at}, ops := s.ops - {k})
  }

  /** The state after a run, if every step of it was possible. */
  function Run(s: State, steps: seq<Step>): Option<State>
    decreases |steps|
  {
    if steps == [] then Some(s)
    else if Enabled(s, steps[0]) then Run(Apply(s, steps[0]), steps[1..])
    else None
  }

  // ---------- The invariant ----------

  function Holders(ops: map<OpId, Op>, a: Address): set<OpId> {
    set k | k in ops && Holding(ops[k], a)
  }

  ghost predicate CountExact(s: State, a: Address)
    requires a in s.heap
  {
    s.heap[a].count == s.refs[a] + |Holders(s.ops, a)|
  }

  /** A block's count is the number of references clients hold plus those of operations in flight. */
  ghost predicate CountsExact(s: State) {
    && (forall a :: a in s.heap ==> CountExact(s, a))
    && (forall a :: a in s.refs ==> a in s.heap)
  }

  predicate IsDying(op: Op) {
    op.Deleting? || op.Freeing?
  }

  /** Operations refer to live blocks; a block being stored is known to its creator only; a block being
      destroyed has no references; a call has loaded its block's own function. */
  ghost predicate OpOk(s: State, op: Op) {
    op.Copying? || (op.at in s.heap &&
       var block := s.heap[op.at];
       match op
       case Storing(a, stored) => block.count == 1 && s.refs[a] == 0 && stored == block.fn
       case Calling(_, loaded) => loaded == Some(block.fn)
       case Deleting(_) => block.count == 0
       case Freeing(_) => block.count == 0
       case _ => true)
  }

  /** A block is destroyed once. */
  ghost predicate DyingUnique(ops: map<OpId, Op>) {
    forall k, k' :: k in ops && k' in ops && IsDying(ops[k]) && IsDying(ops[k']) && ops[k].at == ops[k'].at ==> k == k'
  }

  ghost predicate OpsValid(s: State) {
    (forall k :: k in s.ops ==> OpOk(s, s.ops[k])) && DyingUnique(s.ops)
  }

  predicate IsPending(op: Op) {
    op.Storing? || op.Freeing?
  }

  /** The live blocks whose Store is still to come or whose Delete is done. */
  function Pending(ops: map<OpId, Op>): set<Address> {
    set k | k in ops && IsPending(ops[k]) :: ops[k].at
  }

  /** The function map holds exactly the live blocks whose Store is done and whose Delete is not, each
      with its own function. */
  ghost predicate MapExact(s: State) {
    && s.functions.Keys == s.heap.Keys - Pending(s.ops)
    && (forall a :: a in s.functions ==> s.functions[a] == s.heap[a].fn)
  }

  /** One layout and one thunk per function type; every block carries its own type's. */
  ghost predicate LayoutsExact(s: State) {
    && (forall ty :: ty in s.layouts ==> s.layouts[ty].thunk in s.thunks && s.thunks[s.layouts[ty].thunk] == ty)
    && (forall a :: a in s.heap ==> s.heap[a].fn.ty in s.layouts && s.heap[a].layout == s.layouts[s.heap[a].fn.ty])
    && (forall k :: k in s.ops && s.ops[k].Copying? ==>
          s.ops[k].fn.ty in s.layouts && s.ops[k].layout == s.layouts[s.ops[k].fn.ty])
  }

  ghost predicate BlocksOk(s: State) {
    CountsExact(s) && OpsValid(s) && MapExact(s)
  }

  ghost predicate Inv(s: State) {
    BlocksOk(s) && LayoutsExact(s)
  }

  lemma HoldersUpdate(ops: map<OpId, Op>, k: OpId, op: Op, a: Address)
    ensures |Holders(ops[k := op], a)| ==
            |Holders(ops, a)| - (if k in ops && Holding(ops[k], a) then 1 else 0) + (if Holding(op, a) then 1 else 0)
  {
    HoldersAfter(ops, k, op, a);
    var before := Holders(ops, a);
    if k in before {
      assert before + {k} == before && before == (before - {k}) + {k};
    } else {
      assert before - {k} == before;
    }
  }

  lemma HoldersAfter(ops: map<OpId, Op>, k: OpId, op: Op, a: Address)
    ensures Holders(ops[k := op], a) == if Holding(op, a) then Holders(ops, a) + {k} else Holders(ops, a) - {k}
    ensures k in Holders(ops, a) <==> k in ops && Holding(ops[k], a)
  {
    var before, after := Holders(ops, a), Holders(ops[k := op], a);
    assert forall j :: j in after <==> if j == k then Holding(op, a) else j in before;
  }

  lemma HoldersRemove(ops: map<OpId, Op>, k: OpId, a: Address)
    ensures Holders(ops - {k}, a) == Holders(ops, a) - {k}
    ensures |Holders(ops - {k}, a)| == |Holders(ops, a)| - if k in ops && Holding(ops[k], a) then 1 else 0
  {
    assert Holders(ops - {k}, a) == Holders(ops, a) - {k};
  }

  /** A block with a holder or a client reference is not being destroyed. */
  lemma CountedIsAlive(s: State, a: Address)
    requires CountsExact(s) && OpsValid(s) && a in s.heap
    requires a in s.refs || Holders(s.ops, a) != {}
    ensures s.heap[a].count > 0
    ensures forall k :: k in s.ops && IsDying(s.ops[k]) ==> s.ops[k].at != a
  {
    assert s.heap[a].count > 0;
    forall k | k in s.ops && IsDying(s.ops[k]) ensures s.ops[k].at != a {
      assert OpOk(s, s.ops[k]);
    }
  }

  /** Nobody else holds a block that is still being stored. */
  lemma StoringAlone(s: State, k: OpId, j: OpId)
    requires CountsExact(s) && OpsValid(s) && k in s.ops && j in s.ops && s.ops[k].Storing? && j != k
    ensures !Holding(s.ops[j], s.ops[k].at)
  {
    var a := s.ops[k].at;
    assert OpOk(s, s.ops[k]);
    if Holding(s.ops[j], a) {
      assert {j, k} <= Holders(s.ops, a);
      CardinalityMonotone({j, k}, Holders(s.ops, a));
    }
  }

  lemma CardinalityMonotone<T>(a: set<T>, b: set<T>)
    requires a <= b
    ensures |a| <= |b|
  {
    assert b == a + (b - a);
  }

  lemma HolderCounts(s: State, k: OpId, a: Address)
    requires k in s.ops && Holding(s.ops[k], a)
    ensures k in Holders(s.ops, a)
  {
  }

  lemma LastReference(s: State, a: Address)
    requires CountsExact(s) && a in s.heap && s.heap[a].count == 0
    ensures s.refs[a] == 0 && forall k :: k in s.ops ==> !Holding(s.ops[k], a)
  {
    forall k | k in s.ops ensures !Holding(s.ops[k], a) {
      assert k !in Holders(s.ops, a);
    }
  }

  // ---------- Every step keeps the invariant ----------

  lemma PendingUpdate(ops: map<OpId, Op>, k: OpId, op: Op)
    requires k in ops ==> !IsPending(ops[k])
    ensures Pending(ops[k := op]) == Pending(ops) + if IsPending(op) then {op.at} else {}
  {
    var ops' := ops[k := op];
    forall a | a in Pending(ops) ensures a in Pending(ops') {
      var j :| j in ops && IsPending(ops[j]) && ops[j].at == a;
      assert j != k && ops'[j] == ops[j];
    }
    if IsPending(op) {
      assert ops'[k] == op;
    }
  }

  lemma PendingRemove(ops: map<OpId, Op>, k: OpId)
    requires k in ops
    requires forall j :: j in ops && j != k && IsPending(ops[j]) && IsPending(ops[k]) ==> ops[j].at != ops[k].at
    ensures Pending(ops - {k}) == Pending(ops) - if IsPending(ops[k]) then {ops[k].at} else {}
  {
    var ops' := ops - {k};
    forall a | a in Pending(ops) && !(IsPending(ops[k]) && a == ops[k].at) ensures a in Pending(ops') {
      var j :| j in ops && IsPending(ops[j]) && ops[j].at == a;
      assert j != k && ops'[j] == ops[j];
    }
  }

  lemma PendingHas(s: State, k: OpId)
    requires k in s.ops && IsPending(s.ops[k])
    ensures s.ops[k].at in Pending(s.ops)
  {
  }

  lemma NotPending(s: State, a: Address)
    requires forall k :: k in s.ops ==> !(IsPending(s.ops[k]) && s.ops[k].at == a)
    ensures a !in Pending(s.ops)
  {
  }

  // NewBlock

  /** A step of operation `k` that touches neither blocks nor references. */
  ghost predicate OnlyOp(s: State, s': State, k: OpId, op: Op) {
    s'.heap == s.heap && s'.refs == s.refs && s'.ops == s.ops[k := op]
  }

  lemma OnlyOpCounts(s: State, s': State, k: OpId, op: Op)
    requires CountsExact(s) && OnlyOp(s, s', k, op)
    requires forall a :: (k in s.ops && Holding(s.ops[k], a)) <==> Holding(op, a)
    ensures CountsExact(s')
  {
    forall a | a in s'.heap ensures CountExact(s', a) {
      HoldersUpdate(s.ops, k, op, a);
    }
  }

  lemma OnlyOpOps(s: State, s': State, k: OpId, op: Op)
    requires OpsValid(s) && OnlyOp(s, s', k, op) && OpOk(s, op)
    requires IsDying(op) ==> k in s.ops && IsDying(s.ops[k]) && s.ops[k].at == op.at
    ensures OpsValid(s')
  {
    forall j | j in s'.ops ensures OpOk(s', s'.ops[j]) {
      assert j != k ==> OpOk(s, s.ops[j]);
    }
  }

  lemma GetLayoutMap(s: State, k: OpId, fn: Fn, freshThunk: nat)
    requires MapExact(s) && Enabled(s, GetLayout(k, fn, freshThunk))
    ensures MapExact(Apply(s, GetLayout(k, fn, freshThunk)))
  {
    PendingUpdate(s.ops, k, Apply(s, GetLayout(k, fn, freshThunk)).ops[k]);
  }

  lemma GetLayoutKeeps(s: State, k: OpId, fn: Fn, freshThunk: nat)
    requires BlocksOk(s) && Enabled(s, GetLayout(k, fn, freshThunk))
    ensures BlocksOk(Apply(s, GetLayout(k, fn, freshThunk)))
  {
    var s' := Apply(s, GetLayout(k, fn, freshThunk));
    GetLayoutOnlyOp(s, k, fn, freshThunk);
    OnlyOpCounts(s, s', k, s'.ops[k]);
    OnlyOpOps(s, s', k, s'.ops[k]);
    GetLayoutMap(s, k, fn, freshThunk);
  }

  lemma GetLayoutOnlyOp(s: State, k: OpId, fn: Fn, freshThunk: nat)
    requires Enabled(s, GetLayout(k, fn, freshThunk))
    ensures var s' := Apply(s, GetLayout(k, fn, freshThunk));
            k in s'.ops && s'.ops[k].Copying? && OnlyOp(s, s', k, s'.ops[k])
  {
  }

  /** A step that leaves an operation's block and its client references alone leaves it valid. */
  lemma OthersStayOk(s: State, s': State, k: OpId)
    requires OpsValid(s)
    requires forall j :: j in s.ops && j != k && !s.ops[j].Copying? ==>
               var a := s.ops[j].at; a in s'.heap && s'.heap[a] == s.heap[a] && s'.refs[a] == s.refs[a]
    ensures forall j :: j in s.ops && j != k ==> OpOk(s', s.ops[j])
  {
    forall j | j in s.ops && j != k ensures OpOk(s', s.ops[j]) {
      assert OpOk(s, s.ops[j]);
    }
  }

  lemma FreeAddressUnheld(s: State, at: Address)
    requires OpsValid(s) && at !in s.heap
    ensures Holders(s.ops, at) == {}
  {
    forall j | j in s.ops ensures !Holding(s.ops[j], at) {
      assert OpOk(s, s.ops[j]);
    }
  }

  lemma CopyNewCounts(s: State, k: OpId, at: Address)
    requires CountsExact(s) && OpsValid(s) && Enabled(s, CopyNew(k, at))
    ensures CountsExact(Apply(s, CopyNew(k, at)))
  {
    var s' := Apply(s, CopyNew(k, at));
    FreeAddressUnheld(s, at);
    forall a | a in s'.heap ensures CountExact(s', a) {
      HoldersUpdate(s.ops, k, Storing(at, s.ops[k].fn), a);
      assert a != at ==> CountExact(s, a);
    }
  }

  lemma CopyNewOps(s: State, k: OpId, at: Address)
    requires CountsExact(s) && OpsValid(s) && Enabled(s, CopyNew(k, at))
    ensures OpsValid(Apply(s, CopyNew(k, at)))
  {
    var s' := Apply(s, CopyNew(k, at));
    forall j | j in s.ops && !s.ops[j].Copying? ensures s.ops[j].at != at {
      assert OpOk(s, s.ops[j]);
    }
    OthersStayOk(s, s', k);
    assert at !in s.refs && OpOk(s', s'.ops[k]);
  }

  lemma CopyNewMap(s: State, k: OpId, at: Address)
    requires OpsValid(s) && MapExact(s) && Enabled(s, CopyNew(k, at))
    ensures MapExact(Apply(s, CopyNew(k, at)))
  {
    PendingUpdate(s.ops, k, Storing(at, s.ops[k].fn));
  }

  lemma StoreCounts(s: State, k: OpId)
    requires CountsExact(s) && OpsValid(s) && Enabled(s, Store(k))
    ensures CountsExact(Apply(s, Store(k)))
  {
    var s' := Apply(s, Store(k));
    assert OpOk(s, s.ops[k]);
    forall a | a in s'.heap ensures CountExact(s', a) {
      HoldersRemove(s.ops, k, a);
    }
  }

  lemma StoreOps(s: State, k: OpId)
    requires CountsExact(s) && OpsValid(s) && Enabled(s, Store(k))
    ensures OpsValid(Apply(s, Store(k)))
  {
    var s', at := Apply(s, Store(k)), s.ops[k].at;
    assert OpOk(s, s.ops[k]);
    forall j | j in s.ops && j != k ensures OpOk(s', s.ops[j]) {
      assert OpOk(s, s.ops[j]);
      StoringAlone(s, k, j);
    }
  }

  lemma StoreMap(s: State, k: OpId)
    requires CountsExact(s) && OpsValid(s) && MapExact(s) && Enabled(s, Store(k))
    ensures MapExact(Apply(s, Store(k)))
  {
    var at := s.ops[k].at;
    assert OpOk(s, s.ops[k]);
    forall j | j in s.ops && j != k && IsPending(s.ops[j]) ensures s.ops[j].at != at {
      assert OpOk(s, s.ops[j]);
      StoringAlone(s, k, j);
    }
    PendingRemove(s.ops, k);
  }

  // Copy and InvokeBlock

  lemma CopyCounts(s: State, at: Address)
    requires CountsExact(s) && Enabled(s, Copy(at))
    ensures CountsExact(Apply(s, Copy(at)))
  {
  }

  lemma CopyOps(s: State, at: Address)
    requires CountsExact(s) && OpsValid(s) && Enabled(s, Copy(at))
    ensures OpsValid(Apply(s, Copy(at)))
  {
    var s' := Apply(s, Copy(at));
    forall j | j in s.ops ensures OpOk(s', s.ops[j]) {
      assert OpOk(s, s.ops[j]);
    }
  }

  lemma InvokeStartCounts(s: State, k: OpId, at: Address)
    requires CountsExact(s) && Enabled(s, InvokeStart(k, at))
    ensures CountsExact(Apply(s, InvokeStart(k, at)))
  {
    var s' := Apply(s, InvokeStart(k, at));
    forall a | a in s'.heap ensures CountExact(s', a) {
      HoldersUpdate(s.ops, k, Invoking(at), a);
    }
  }

  lemma InvokeStartOps(s: State, k: OpId, at: Address)
    requires CountsExact(s) && OpsValid(s) && Enabled(s, InvokeStart(k, at))
    ensures OpsValid(Apply(s, InvokeStart(k, at)))
  {
    var s' := Apply(s, InvokeStart(k, at));
    forall j | j in s.ops ensures OpOk(s', s.ops[j]) {
      assert OpOk(s, s.ops[j]);
    }
  }

  lemma InvokeStartMap(s: State, k: OpId, at: Address)
    requires MapExact(s) && Enabled(s, InvokeStart(k, at))
    ensures MapExact(Apply(s, InvokeStart(k, at)))
  {
    PendingUpdate(s.ops, k, Invoking(at));
  }

  /** A block that a client or an invocation holds maps to the function it was made from. */
  lemma HeldIsFound(s: State, a: Address)
    requires CountsExact(s) && OpsValid(s) && MapExact(s) && a in s.heap
    requires a in s.refs || exists k :: k in s.ops && Holding(s.ops[k], a) && !s.ops[k].Storing?
    ensures Lookup(s, a) == Some(s.heap[a].fn)
  {
    if a !in s.refs {
      var k :| k in s.ops && Holding(s.ops[k], a) && !s.ops[k].Storing?;
      HolderCounts(s, k, a);
      forall j | j in s.ops && s.ops[j].Storing? ensures s.ops[j].at != a {
        StoringAlone(s, j, k);
      }
    }
    CountedIsAlive(s, a);
    forall j | j in s.ops && IsPending(s.ops[j]) ensures s.ops[j].at != a {
      assert OpOk(s, s.ops[j]);
    }
    NotPending(s, a);
  }

  lemma InvokeLoadMap(s: State, k: OpId)
    requires MapExact(s) && Enabled(s, InvokeLoad(k))
    ensures MapExact(Apply(s, InvokeLoad(k)))
  {
    PendingUpdate(s.ops, k, Apply(s, InvokeLoad(k)).ops[k]);
  }

  lemma InvokeLoadKeeps(s: State, k: OpId)
    requires BlocksOk(s) && Enabled(s, InvokeLoad(k))
    ensures BlocksOk(Apply(s, InvokeLoad(k)))
  {
    var s' := Apply(s, InvokeLoad(k));
    assert OpOk(s, s.ops[k]);
    HeldIsFound(s, s.ops[k].at);
    OnlyOpCounts(s, s', k, s'.ops[k]);
    OnlyOpOps(s, s', k, s'.ops[k]);
    InvokeLoadMap(s, k);
  }

  // Giving up one reference, the client's own (`s` is then `s0` without it) or that of operation `k`

  predicate GivesUp(s: State, s0: State, k: OpId, at: Address) {
    && s == s0.(refs := s.refs)
    && at in s0.heap && s0.heap[at].count > 0
    && ( || (k !in s.ops && at in s0.refs && s.refs == s0.refs - multiset{at})
         || (k in s.ops && (s.ops[k].Invoking? || s.ops[k].Calling?) && s.ops[k].at == at && s.refs == s0.refs))
  }

  lemma DropCounts(s: State, s0: State, k: OpId, at: Address)
    requires CountsExact(s0) && GivesUp(s, s0, k, at)
    ensures CountsExact(Drop(s, k, at))
  {
    var s' := Drop(s, k, at);
    forall a | a in s'.heap ensures CountExact(s', a) {
      DropCountAt(s, s0, k, at, a);
    }
  }

  lemma DropCountAt(s: State, s0: State, k: OpId, at: Address, a: Address)
    requires CountsExact(s0) && GivesUp(s, s0, k, at) && a in s.heap
    ensures CountExact(Drop(s, k, at), a)
  {
    var s' := Drop(s, k, at);
    assert CountExact(s0, a);
    if s'.heap[at].count == 0 {
      HoldersUpdate(s.ops, k, Deleting(at), a);
    } else {
      HoldersRemove(s.ops, k, a);
    }
  }

  lemma DropOps(s: State, s0: State, k: OpId, at: Address)
    requires CountsExact(s0) && OpsValid(s0) && GivesUp(s, s0, k, at)
    ensures OpsValid(Drop(s, k, at))
  {
    var s' := Drop(s, k, at);
    forall j | j in s0.ops && j != k ensures OpOk(s', s0.ops[j]) {
      DropOpsOthers(s, s0, k, at, j);
    }
    if s'.heap[at].count == 0 {
      forall j | j in s0.ops && IsDying(s0.ops[j]) ensures s0.ops[j].at != at {
        assert OpOk(s0, s0.ops[j]);
      }
      assert OpOk(s', s'.ops[k]);
    }
  }

  lemma DropOpsOthers(s: State, s0: State, k: OpId, at: Address, j: OpId)
    requires CountsExact(s0) && OpsValid(s0) && GivesUp(s, s0, k, at) && j in s0.ops && j != k
    ensures OpOk(Drop(s, k, at), s0.ops[j])
  {
    assert OpOk(s0, s0.ops[j]);
    if s0.ops[j].Storing? && k in s0.ops {
      StoringAlone(s0, j, k);
    }
  }

  lemma DropMap(s: State, s0: State, k: OpId, at: Address)
    requires MapExact(s0) && GivesUp(s, s0, k, at)
    ensures MapExact(Drop(s, k, at))
  {
    PendingUpdate(s.ops, k, Deleting(at));
    if k in s.ops {
      PendingRemove(s.ops, k);
    } else {
      assert s.ops - {k} == s.ops;
    }
  }

  lemma DropKeeps(s: State, s0: State, k: OpId, at: Address)
    requires BlocksOk(s0) && GivesUp(s, s0, k, at)
    ensures BlocksOk(Drop(s, k, at))
  {
    DropCounts(s, s0, k, at);
    DropOps(s, s0, k, at);
    DropMap(s, s0, k, at);
  }

  // The end of a block

  lemma DeleteMap(s: State, k: OpId)
    requires MapExact(s) && Enabled(s, Delete(k))
    ensures MapExact(Apply(s, Delete(k)))
  {
    PendingUpdate(s.ops, k, Apply(s, Delete(k)).ops[k]);
  }

  lemma DeleteKeeps(s: State, k: OpId)
    requires BlocksOk(s) && Enabled(s, Delete(k))
    ensures BlocksOk(Apply(s, Delete(k)))
  {
    var s' := Apply(s, Delete(k));
    assert OpOk(s, s.ops[k]);
    OnlyOpCounts(s, s', k, s'.ops[k]);
    OnlyOpOps(s, s', k, s'.ops[k]);
    DeleteMap(s, k);
  }

  lemma FreeCounts(s: State, k: OpId)
    requires CountsExact(s) && OpsValid(s) && Enabled(s, Free(k))
    ensures CountsExact(Apply(s, Free(k)))
  {
    var s' := Apply(s, Free(k));
    assert OpOk(s, s.ops[k]);
    LastReference(s, s.ops[k].at);
    forall a | a in s'.heap ensures CountExact(s', a) {
      HoldersRemove(s.ops, k, a);
    }
  }

  /** No other operation refers to a block that is about to be freed. */
  lemma FreedAlone(s: State, k: OpId, j: OpId)
    requires CountsExact(s) && OpsValid(s) && k in s.ops && j in s.ops && s.ops[k].Freeing? && j != k
    ensures !s.ops[j].Copying? ==> s.ops[j].at != s.ops[k].at
  {
    assert OpOk(s, s.ops[k]) && OpOk(s, s.ops[j]);
    LastReference(s, s.ops[k].at);
    assert !Holding(s.ops[j], s.ops[k].at);
  }

  lemma FreeOps(s: State, k: OpId)
    requires CountsExact(s) && OpsValid(s) && Enabled(s, Free(k))
    ensures OpsValid(Apply(s, Free(k)))
  {
    var s' := Apply(s, Free(k));
    forall j | j in s.ops && j != k ensures OpOk(s', s.ops[j]) {
      assert OpOk(s, s.ops[j]);
      FreedAlone(s, k, j);
    }
  }

  lemma FreeMap(s: State, k: OpId)
    requires CountsExact(s) && OpsValid(s) && MapExact(s) && Enabled(s, Free(k))
    ensures MapExact(Apply(s, Free(k)))
  {
    PendingHas(s, k);
    forall j | j in s.ops && j != k && IsPending(s.ops[j]) ensures s.ops[j].at != s.ops[k].at {
      FreedAlone(s, k, j);
    }
    PendingRemove(s.ops, k);
  }

  // All steps

  lemma CopyNewKeeps(s: State, k: OpId, at: Address)
    requires BlocksOk(s) && Enabled(s, CopyNew(k, at))
    ensures BlocksOk(Apply(s, CopyNew(k, at)))
  {
    CopyNewCounts(s, k, at);
    CopyNewOps(s, k, at);
    CopyNewMap(s, k, at);
  }

  lemma StoreKeeps(s: State, k: OpId)
    requires BlocksOk(s) && Enabled(s, Store(k))
    ensures BlocksOk(Apply(s, Store(k)))
  {
    StoreCounts(s, k);
    StoreOps(s, k);
    StoreMap(s, k);
  }

  lemma CopyKeeps(s: State, at: Address)
    requires BlocksOk(s) && Enabled(s, Copy(at))
    ensures BlocksOk(Apply(s, Copy(at)))
  {
    CopyCounts(s, at);
    CopyOps(s, at);
  }

  lemma InvokeStartKeeps(s: State, k: OpId, at: Address)
    requires BlocksOk(s) && Enabled(s, InvokeStart(k, at))
    ensures BlocksOk(Apply(s, InvokeStart(k, at)))
  {
    InvokeStartCounts(s, k, at);
    InvokeStartOps(s, k, at);
    InvokeStartMap(s, k, at);
  }

  lemma FreeKeeps(s: State, k: OpId)
    requires BlocksOk(s) && Enabled(s, Free(k))
    ensures BlocksOk(Apply(s, Free(k)))
  {
    FreeCounts(s, k);
    FreeOps(s, k);
    FreeMap(s, k);
  }

  lemma BlocksKept(s: State, step: Step)
    requires BlocksOk(s) && Enabled(s, step)
    ensures BlocksOk(Apply(s, step))
  {
    match step
    case GetLayout(k, fn, freshThunk) => GetLayoutKeeps(s, k, fn, freshThunk);
    case CopyNew(k, a) => CopyNewKeeps(s, k, a);
    case Store(k) => StoreKeeps(s, k);
    case Copy(a) => CopyKeeps(s, a);
    case Release(k, a) => DropKeeps(s.(refs := s.refs - multiset{a}), s, k, a);
    case InvokeStart(k, a) => InvokeStartKeeps(s, k, a);
    case InvokeLoad(k) => InvokeLoadKeeps(s, k);
    case InvokeExit(k) => DropKeeps(s, s, k, s.ops[k].at);
    case Delete(k) => DeleteKeeps(s, k);
    case Free(k) => FreeKeeps(s, k);
  }

  /** Steps that neither add a layout nor a block. */
  lemma LayoutsSame(s: State, s': State)
    requires LayoutsExact(s) && s'.layouts == s.layouts && s'.thunks == s.thunks
    requires forall a :: a in s'.heap ==>
               a in s.heap && s'.heap[a].fn == s.heap[a].fn && s'.heap[a].layout == s.heap[a].layout
    requires forall k :: k in s'.ops && s'.ops[k].Copying? ==> k in s.ops && s'.ops[k] == s.ops[k]
    ensures LayoutsExact(s')
  {
  }

  lemma GetLayoutLayouts(s: State, k: OpId, fn: Fn, freshThunk: nat)
    requires LayoutsExact(s) && Enabled(s, GetLayout(k, fn, freshThunk))
    ensures LayoutsExact(Apply(s, GetLayout(k, fn, freshThunk)))
  {
  }

  lemma CopyNewLayouts(s: State, k: OpId, at: Address)
    requires LayoutsExact(s) && Enabled(s, CopyNew(k, at))
    ensures LayoutsExact(Apply(s, CopyNew(k, at)))
  {
  }

  /** Steps that add neither a layout nor a block. */
  lemma AddsNothing(s: State, step: Step)
    requires Enabled(s, step) && !step.GetLayout? && !step.CopyNew?
    ensures Apply(s, step).layouts == s.layouts && Apply(s, step).thunks == s.thunks
    ensures var heap' := Apply(s, step).heap;
            forall a :: a in heap' ==>
              a in s.heap && heap'[a].fn == s.heap[a].fn && heap'[a].layout == s.heap[a].layout
  {
    var heap' := Apply(s, step).heap;
    match step
    case Copy(a) => assert heap' == Retain(s.heap, a);
    case InvokeStart(_, a) => assert heap' == Retain(s.heap, a);
    case Release(_, a) => assert heap' == s.heap[a := s.heap[a].(count := s.heap[a].count - 1)];
    case InvokeExit(k) =>
      var a := s.ops[k].at;
      assert heap' == s.heap[a := s.heap[a].(count := s.heap[a].count - 1)];
    case _ =>
  }

  lemma StartsNoCopying(s: State, step: Step)
    requires Enabled(s, step) && !step.GetLayout?
    ensures var s' := Apply(s, step);
            forall k :: k in s'.ops && s'.ops[k].Copying? ==> k in s.ops && s'.ops[k] == s.ops[k]
  {
  }

  lemma LayoutsKept(s: State, step: Step)
    requires LayoutsExact(s) && Enabled(s, step)
    ensures LayoutsExact(Apply(s, step))
  {
    if step.GetLayout? {
      GetLayoutLayouts(s, step.k, step.fn, step.freshThunk);
    } else if step.CopyNew? {
      CopyNewLayouts(s, step.k, step.a);
    } else {
      AddsNothing(s, step);
      StartsNoCopying(s, step);
      LayoutsSame(s, Apply(s, step));
    }
  }

  lemma StepKeeps(s: State, step: Step)
    requires Inv(s) && Enabled(s, step)
    ensures Inv(Apply(s, step))
  {
    BlocksKept(s, step);
    LayoutsKept(s, step);
  }

  // ---------- What holds in every reachable state ----------

  ghost predicate Reachable(s: State) {
    exists steps :: Run(INITIAL, steps) == Some(s)
  }

  lemma {:induction false} RunKeeps(s: State, steps: seq<Step>)
    requires Inv(s) && Run(s, steps).Some?
    ensures Inv(Run(s, steps).value)
    decreases |steps|
  {
    if steps != [] {
      StepKeeps(s, steps[0]);
      RunKeeps(Apply(s, steps[0]), steps[1..]);
    }
  }

  lemma ReachableInv(s: State)
    requires Reachable(s)
    ensures Inv(s)
  {
    var steps :| Run(INITIAL, steps) == Some(s);
    assert forall a :: Holders(INITIAL.ops, a) == {};
    RunKeeps(INITIAL, steps);
  }

  /** In every reachable state the function map's domain is exactly the blocks that are live, stored and
      not yet deleted, and each maps to the function it was created with, although addresses are
      reused. */
  lemma FunctionMapExact(s: State)
    requires Reachable(s)
    ensures forall a :: a in s.functions <==>
              && a in s.heap
              && forall k :: k in s.ops ==> !((s.ops[k].Storing? || s.ops[k].Freeing?) && s.ops[k].at == a)
    ensures forall a :: a in s.functions ==> s.functions[a] == s.heap[a].fn
    ensures forall k :: k in s.ops && s.ops[k].Freeing? ==> s.ops[k].at in s.heap && s.ops[k].at !in s.functions
  {
    ReachableInv(s);
    forall a ensures a in Pending(s.ops) <==>
      exists k :: k in s.ops && (s.ops[k].Storing? || s.ops[k].Freeing?) && s.ops[k].at == a
    {
    }
    forall k | k in s.ops && s.ops[k].Freeing? ensures s.ops[k].at in s.heap && s.ops[k].at !in s.functions {
      assert OpOk(s, s.ops[k]);
      PendingHas(s, k);
    }
  }

  /** What C reaches by entering block `a` through a thunk: the thunk's Go type, and the function its
      body finds for the block it was entered with. */
  function ThunkTarget(s: State, thunk: nat, a: Address): (Option<TypeTag>, Option<Fn>) {
    (if thunk in s.thunks then Some(s.thunks[thunk]) else None, Lookup(s, a))
  }

  /** A client holds the block, or an InvokeBlock in flight does. */
  ghost predicate IsHeld(s: State, a: Address) {
    a in s.refs || exists k :: k in s.ops && Holding(s.ops[k], a) && !s.ops[k].Storing?
  }

  /** One thunk serves each function type, and yet entering any held block through its thunk reaches the
      block's own function, at its own type, as a direct Invoke does, even if only an InvokeBlock in
      flight keeps the block alive. */
  lemma SharedThunkDispatch(s: State, a: Address)
    requires Reachable(s) && IsHeld(s, a)
    ensures a in s.heap
    ensures ThunkTarget(s, s.heap[a].layout.thunk, a) == (Some(s.heap[a].fn.ty), Some(s.heap[a].fn))
    ensures Lookup(s, a) == Some(s.heap[a].fn)
    ensures forall b :: b in s.heap ==>
              (s.heap[b].layout == s.heap[a].layout <==> s.heap[b].fn.ty == s.heap[a].fn.ty)
  {
    ReachableInv(s);
    if a !in s.refs {
      var k :| k in s.ops && Holding(s.ops[k], a) && !s.ops[k].Storing?;
      assert OpOk(s, s.ops[k]);
    }
    HeldIsFound(s, a);
  }

  /** Every reference is accounted for: a block's count is what clients hold plus one for each NewBlock
      or InvokeBlock in flight on it, whichever way those end; at count zero it is being destroyed. */
  lemma ReferencesConserved(s: State, a: Address)
    requires Reachable(s) && a in s.heap
    ensures s.heap[a].count == s.refs[a] + |Holders(s.ops, a)|
    ensures Holders(s.ops, a) == {} ==> s.heap[a].count == s.refs[a]
  {
    ReachableInv(s);
  }

  /** InvokeBlock by itself leaves blocks, counts and functions as it found them, whether it gets as far
      as calling the function or not. */
  lemma InvokeBlockNeutral(s: State, k: OpId, a: Address, loads: bool)
    requires Enabled(s, InvokeStart(k, a)) && s.heap[a].count > 0
    ensures Run(s, if loads then [InvokeStart(k, a), InvokeLoad(k), InvokeExit(k)]
                   else [InvokeStart(k, a), InvokeExit(k)]) == Some(s)
  {
    var s1 := Apply(s, InvokeStart(k, a));
    if loads {
      var s2 := Apply(s1, InvokeLoad(k));
      ExitRestores(s, s2, k, a);
      assert [InvokeStart(k, a), InvokeLoad(k), InvokeExit(k)][1..] == [InvokeLoad(k), InvokeExit(k)];
      assert [InvokeLoad(k), InvokeExit(k)][1..] == [InvokeExit(k)];
      assert Run(s1, [InvokeLoad(k), InvokeExit(k)]) == Run(s2, [InvokeExit(k)]);
    } else {
      ExitRestores(s, s1, k, a);
      assert [InvokeStart(k, a), InvokeExit(k)][1..] == [InvokeExit(k)];
    }
  }

  lemma ExitRestores(s: State, before: State, k: OpId, a: Address)
    requires a in s.heap && s.heap[a].count > 0 && k !in s.ops && k in before.ops
    requires before == s.(heap := Retain(s.heap, a), ops := s.ops[k := before.ops[k]])
    requires before.ops[k] == Invoking(a) || (before.ops[k].Calling? && before.ops[k].at == a)
    ensures Run(before, [InvokeExit(k)]) == Some(s)
  {
    var after := Apply(before, InvokeExit(k));
    assert after.heap == s.heap && after.ops == s.ops;
    assert [InvokeExit(k)][1..] == [] && Run(after, []) == Some(after);
  }
}
