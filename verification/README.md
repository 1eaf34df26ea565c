# A verified model of pureffi

pureffi turns a Go function type into a C call. This project models the marshalling logic and the
protocols around each call, and proves what they promise: for every signature, every argument list, every
type graph and every interleaving.

* **Two paths, one call.** `FastTable` models the code generator: the wrappers it writes, the dispatch table
  that instantiates them and the interleaved-float table, as data with a meaning. `Classifier` is the loop
  that picks a wrapper. `ReflectCall` is registration and the closure over a pooled context, and `CallMeaning`
  says what the two come to. `FastCall` runs an installed wrapper and the two cursors of `fastCallIF`.
  `Refinement` proves that both paths hand the engine the same interface and the same bytes and give the same
  result, except exactly when the engine reports an error or a C bool is neither 0 nor 1. `SpillLayout` proves
  that an installed wrapper has the registered type's slots. `Callbacks` proves that calling-convention markers
  never reach C.
* **Type translation.** `Descriptors` translates Go types to C descriptors and characterises the types whose
  memory layout survives. `Encoding` prints Objective-C encodings over cyclic type graphs; `Decoding` reads
  them back, and `Ambiguity` says which of them are shared.
* **Concurrency.** `ThreadErrors` (thread-local errno and dlerror under goroutine migration),
  `PoolIsolation` (pooled contexts re-entered through callbacks) and `BlockLifetime` (Objective-C blocks,
  reference counts, dispose and address reuse) are step machines over any number of goroutines; their
  theorems hold in every state a run can reach. `ErrorCalls`, `BlockCache` and `Syscalls` are the methods
  themselves. Those of `ErrorCalls` and `BlockCache` perform the machines' steps, and in `ErrorCalls` other
  goroutines and the scheduler act between any two statements. In the pools of `FastCall`, `ReflectCall` and
  `Syscalls` other calls take, overwrite and return contexts between any two statements.

The call engine (goffi) is a record of unknown functions: which interfaces it can prepare, what a call of a
C function stores in the result and in errno given the interface and the bytes behind each slot, and the
address of a callback. Nothing else is assumed of it, except where `Honest` says that a call stores as many
result bytes as its interface declares. Words are 64 bits, little-endian. By-value containment of Go types
is a finite tree, because Go rejects anything else; a pointer names its element type in a universe, so type
graphs may be cyclic. Go's own layout rule is that of the gc compiler: a non-empty struct that ends in a
zero-size field is padded by one byte.

Where a promise is false of the code, the exact condition is proved, with inputs on which it fails. Layout
preservation fails for three shapes (`Descriptors.LayoutPreservedIff`, `LayoutLost`). The two call paths differ
on two events (`Refinement.SameResultIff`, `PathsCanDiffer`). A marker is erased unless a second one follows it
(`Callbacks.MarkerErasure`, `SecondMarkerReachesC`). encodeType runs for ever on a type that reaches a chain of
pointers alone before an error (`Encoding.TypeStopsIff`, `PurePointerCycleDiverges`). Encodings are shared by
types that flatten to the same tokens, which takes a word, bare or of a pointer, directly before something a
pointer could point to (`Ambiguity.SharedEncodingIff`, `SignatureAmbiguousIff`, `BareUintptrIsAmbiguous`).

## Model

| member | source | states |
|---|---|---|
| FastTable.WrapperNamesDistinct | genfastfunc.go:179-188 | no two generated wrappers have the same name, so the generated file declares each once |
| FastTable.EmitWrapper | genfastfunc.go:190-229 | the wrapper for n words and a float width takes a1..an then f1, stores a(i) in ints[i-1], moves the float to floats[0] and keeps every argument alive past the call |
| FastTable.EmitWrappers | genfastfunc.go:162-177 | exactly fastInts0..15, fastInts0..14F32 and fastInts0..14F64 are written, each in both result shapes, none twice |
| FastTable.EmitDispatch | genfastfunc.go:231-275 | the switch has a case exactly for the generated wrappers at every mask up to six words and at mask 0 beyond, with a pointer type argument exactly where the mask has a bit |
| FastTable.EmitInterleavedFloat32x1 | genfastfunc.go:314-347 | the interleaved table has exactly the spots 2 to 15 arguments, float not last; words are numbered in order around the float |
| FastTable.Generate | genfastfunc.go:34-49 | the generated file has all wrappers, the full dispatch switch and the full interleaved table |
| FastTable.RegisterFastFunc | zz_fast_func.go:2329-5325 | installs a wrapper exactly when the key is in the table, and it is the wrapper of that count, width and result shape at the mask's type arguments |
| FastTable.RegisterInterleaved | zz_fast_func.go:5326-9291 | installs a wrapper exactly for 2 to 15 arguments with the float not last, and otherwise silently none |
| Classifier.MaskRoundTrip | genfastfunc.go:383-386 | decoding the mask the classifier accumulates gives back which integer arguments are pointers |
| Classifier.TypeArgumentsRoundTrip | genfastfunc.go:254-262 | every mask below 2^n is recovered from the type arguments decoded from it |
| Classifier.ClassifyArguments | genfastfunc.go:358-396 | the loop accepts exactly lists of word-size and float kinds; its counters, mask and trailing flag are the counts, mask and order of the list, and floatPos is the first float |
| Classifier.TryRegisterFastPath | zz_fast_func.go:9292-9374 | returns true exactly on the closed form of accepted signatures, exactly then a wrapper has been installed, and it fits the signature slot for slot |
| Classifier.WordsAccepted | genfastfunc.go:349-432 | without floats a signature is accepted exactly with at most 15 arguments, all of word kinds, at most 6 of them if one is a pointer, and a fast result |
| Classifier.OneFloatAccepted | genfastfunc.go:413-432 | with one float exactly if the others are words, pointers occur only before a trailing float behind at most 6 words, and a float that is not last is a float32 |
| Refinement.FastResultIff | genfastfunc.go:401-412 | a fast result is exactly one of at most eight bytes that is returned in an integer register and is no function: never a float |
| SpillLayout.WrapperMatchesSignature | genfastfunc.go:149-160 | an installed wrapper has the registered type's width, alignment, float class and pointerness at every parameter, and its offset in every spill slot |
| SpillLayout.WrapperExistsIff | genfastfunc.go:376-395 | among lists of scalars exactly those of fast kinds have a wrapper parameter list that agrees with them slot for slot |
| SpillLayout.NarrowArgumentsOverrunIff | genfastfunc.go:366-376 | for every list of words and narrower scalars: widened to words, the last argument would be spilled wholly behind the caller's area exactly if two narrow arguments stand side by side |
| FastCall.FastCallContext.Fill | zz_fast_func.go:42-57 | on a context in any state the words are copied in and the cursors place one pointer per argument in declared order, whatever the float's place, within the 15, 8 and 23 slots |
| FastCall.FastPool.FastCallIF | zz_fast_func.go:40-62 | with other calls taking, overwriting and returning pooled contexts between any two statements and after Put, the word returned is the one this call stored, or 0 if it failed |
| FastCall.FastCallContext.CallFunction | zz_fast_func.go:57-58 | the engine reads each argument's low bytes through args[..n] and stores into ret only |
| FastCall.FastPool.RunWrapper | zz_fast_func.go:94-104 | a wrapper body fills ints and floats from its named parameters and returns what the call leaves in ret |
| FastCall.SlotHoldsArgument | zz_fast_func.go:45-55 | the slot the cursors choose for argument p is in range and holds argument p |
| FastCall.CellMatches | purego.go:290-298 | wrapper, word arrays and cursors put behind each slot exactly the bytes packArg makes |
| Refinement.SameCall | purego.go:154-163 | for every accepted signature and argument list the fast path hands the engine the reflect path's interface and cells |
| Refinement.SameResultIff | purego.go:324-338 | with the caller reading the register of its own result type, the results agree, whatever the float register holds, exactly if the engine reports no error and a C bool is 0 or 1 |
| Refinement.CallInstalled | zz_fast_func.go:880-891 | a whole call through an installed wrapper gives the reflect path's result under exactly that condition |
| Refinement.RegisterAndCall | purego.go:39-271 | registering and calling by whichever path was chosen gives the reflect path's result and error value except only there, and restores the goroutine's lock count |
| ReflectCall.RegisterFunc | purego.go:39-128 | registration panics exactly on the stated errors; the fast path is taken exactly for non-variadic, error-free, eligible signatures |
| ReflectCall.SlowCallContext.Push | purego.go:156-162 | one argument's cell and kept value go to the next slots; a panic, also from running out of slots, changes nothing that is held |
| ReflectCall.SlowCallContext.PackFixed | purego.go:154-163 | the loop packs all non-marker fixed arguments in order, or panics exactly if one cannot be packed or they exceed 32 |
| ReflectCall.SlowCallContext.PackTail | purego.go:165-186 | the variadic values follow in order with one descriptor each; a nil value, an unsupported kind or too many values panic |
| ReflectCall.SlowCallContext.Pack | purego.go:153-222 | either packing panics, or the slots hold the cells of this call's values and everything packArg returned to keep for them |
| ReflectCall.SlowCallContext.CallEngine | purego.go:232-238 | the call is possible only while everything packArg returned for this call's values is in keepAlive; it reads exactly this call's cells |
| ReflectCall.EveryCellIsBacked | purego.go:273-322 | packArg returns something to keep for every value, so in every call each cell C reads is backed by the kept value of the same position: the cell itself, the argument, or the copy of a string |
| ReflectCall.SlowCallContext.ClearKeepAlive | purego.go:135-142 | the deferred loop leaves all 32 keepAlive slots nil |
| ReflectCall.SlowPool.Call | purego.go:130-269 | one closure call gives the result and errno of its own arguments whatever other goroutines do meanwhile with the pool and with their threads; the context goes back last and clean, and the goroutine is locked as before, also on panic |
| ReflectCall.DescriptorsMatchCells | purego.go:188-208 | descriptors, values and cells have equal length; at every position the descriptor has the class (signed, unsigned, float, pointer, struct), alignment and size of the value and its cell, and a scalar those of its own C kind; the fixed descriptors lead unchanged, and the fixed count of a C-variadic interface is the number of non-marker fixed parameters |
| Marshal.PackedArrives | purego.go:273-322 | behind the pointer packArg makes C finds the value: numbers and addresses as words, a bool as 0 or 1, a NUL-terminated string whose text is the Go string's up to its own first NUL, uncopied if it ends in one, a function's callback address, an array by address, a struct as it is |
| CallMeaning.CFindsArguments | purego.go:153-186 | the same at every position of every call |
| CallMeaning.RegistrationPanicsIff | purego.go:52-66 | a function type is rejected exactly for more than two results, a second one that is no error, or a parameter or result that is or holds a type C cannot be given |
| CallMeaning.PlanMeaning | purego.go:67-128 | what registration fixes: the parameters behind a marker, whether there is an error value, the calling convention, and the descriptors of parameters and result |
| CallMeaning.VariadicMeaning | purego.go:82-102 | a call is C-variadic exactly for a Variadic marker, or without one for a target that is no objc_msgSend and, on darwin, has a known name; the fixed count is that of the non-marker fixed parameters |
| CallMeaning.PackingPanicsIff | purego.go:154-222 | packing panics exactly on a nil or unsupported value, on more than 32 values, and where the interface a variadic call asks for is refused |
| CallMeaning.CallMeans | purego.go:232-269 | a call panics exactly if packing does or the engine fails; else a null string is "", a null function nil, other addresses, bools, slices and memory reach the caller as C stored them, and the error value is errno exactly if there is one and C left it other than 0 |
| Callbacks.MarkerErasure | purego.go:72-80 | a marked signature is never eligible for the fast path and has a registration plan exactly when the unmarked one does; C sees the same descriptors and cells in every call if and only if no second marker follows the first |
| Callbacks.SecondMarkerReachesC | purego.go:104-107 | func(CDecl, Variadic, int) passes C an empty struct that func(Variadic, int) does not |
| Callbacks.NewCallbackType | purego.go:444-465 | the callback type C sees is the Go type without its marker: its other parameters in order and its results |
| Callbacks.EnterCallback | purego.go:468-473 | a marked callback receives a zero marker and then the caller's arguments in order |
| Callbacks.CallbackRoundTrip | purego.go:444-465 | for all kinds, the interface of a call under a callback's own type is the one its C type asks for, and C's cells read back as the caller's arguments exactly if the engine restores each of them |
| Callbacks.ReadBytesRestores | purego.go:284-298 | reading little-endian words and memory images restores every number, bool, address and struct |
| Callbacks.CallbackTable.BindAndCall | purego.go:438-476 | binding the address NewCallback gave out and calling it reaches that Go function, with a zero marker if its type has one and behind it the caller's arguments in order exactly if the engine restores each of them |
| Descriptors.LayoutPreservedIff | purego.go:375-423 | at every nested descriptor class and kind are the Go type's, and size, alignment and member offsets recomputed from kinds and members by the C rule are Go's, if and only if the type avoids three shapes |
| Descriptors.KindsThroughout | purego.go:368-397 | in every type, whatever its layout, each scalar is described by the C kind of its own class and of the size C gives that kind |
| Descriptors.LayoutLost | purego.go:399-419 | each of the three shapes loses its layout: concrete Go and C sizes and alignments |
| Descriptors.MembersLayout | purego.go:410-419 | C and Go running offsets agree over a struct's members |
| Descriptors.ArrayLayout | purego.go:399-409 | C lays out repeated members at the offsets of a Go array's elements |
| Descriptors.LeadingMarkerShiftsNothing | purego.go:416-418 | a leading zero-size field changes no size, alignment, offset or other member |
| Descriptors.HostLayoutShiftsNothing | sym_unix.go:15-21 | a leading structs.HostLayout shifts nothing and does not change whether layout is preserved |
| Encoding.EncodeFunc | objc/objc_runtime_darwin.go:455-489 | the method encoding is result, "@" and all parameters but the first; more than one result, fewer than two parameters or an unsupported type is an error |
| Encoding.EncodeBlock | objc/objc_block_darwin.go:78-109 | the block signature is the same text with a NUL, and panics unless the first parameter is a Block and all types encode |
| Encoding.FuelSuffices | objc/objc_runtime_darwin.go:383-452 | on cyclic type graphs encodeType stops wherever Stops holds, with the recursion's result |
| Encoding.TypeStopsIff | objc/objc_runtime_darwin.go:383-452 | on every type encodeType stops if and only if each pointer it reaches leads out of the pointers; fields after one without an encoding are not reached |
| Encoding.FuncStopsIff | objc/objc_runtime_darwin.go:455-489 | encodeFunc stops on exactly the signatures whose result and then parameters do so in order, up to the first error |
| Encoding.BlockStopsIff | objc/objc_block_darwin.go:78-109 | the same for the block signature |
| Encoding.PurePointerCycleDiverges | objc/objc_runtime_darwin.go:424-426 | a pointer type whose element is itself is never encoded |
| Encoding.FieldOrderMatters | objc/objc_runtime_darwin.go:432-439 | a struct with an endless field is endless, unless a field before it has no encoding |
| Decoding.EncodePrintsShape | objc/objc_runtime_darwin.go:384-452 | encodeType prints the shape of every type in the domain |
| Decoding.ParseShow | objc/objc_runtime_darwin.go:360-381 | a type's encoding can be read off the front of any text, so encodings are prefix-free |
| Decoding.SignatureDecodes | objc/objc_runtime_darwin.go:455-489 | one parser recovers result, parameter count and every type from any signature without a bare uintptr and with clean struct names |
| Decoding.SameEncodingIff | objc/objc_block_darwin.go:78-109 | two signatures without a bare uintptr have the same encoding exactly if they differ only in what the encoding collapses |
| Ambiguity.SharedEncodingIff | objc/objc_runtime_darwin.go:418-426 | any two signatures, bare uintptrs or not, have the same encoding exactly if result, receiver and parameters flatten to the same tokens, a pointer to anything but a struct being a word and then its pointee |
| Ambiguity.AmbiguousIff | objc/objc_runtime_darwin.go:418-426 | a list of shapes shares its text with another exactly if a word, bare or of a pointer, comes directly before something other than a struct held by value |
| Ambiguity.TypesAmbiguousIff | objc/objc_runtime_darwin.go:418-426 | under the same condition, and only then, a list of Go types has the encoding of Go types of other shapes |
| Ambiguity.SignatureAmbiguousIff | objc/objc_runtime_darwin.go:455-489 | a signature has the encoding of a Go function type of another shape exactly if its parameters or its result's fields can be reread, or its result ends in an object, or its result is words only and its first parameter after the receiver an object |
| Ambiguity.BareUintptrIsAmbiguous | objc/objc_runtime_darwin.go:418-419 | in every parameter list a uintptr followed by any type but a struct prints as a pointer to that type |
| ThreadErrors.GuardedCallsReportTheirOwn | purego.go:144-152 | in every reachable state a guarded call entered C with its variable clear on its own thread and reports what that thread's variable held when C returned, never written by another goroutine |
| ThreadErrors.ThreadIsOwn | purego.go:144-147 | while a guarded call is in progress its goroutine cannot be moved and nobody else is on its thread |
| ThreadErrors.UnlockedCallMisreports | dlfcn_linux.go:49-52 | the same protocol without the lock has a run in which a call reports another goroutine's errno |
| ThreadErrors.LocksRestored | purego.go:144-147 | lock counts nest with the calls in progress and return to the user's own, however calls end |
| ThreadErrors.UnlockAlwaysPossible | dlfcn_linux.go:50-52 | a deferred unlock always has a lock to undo |
| ErrorCalls.ForeignStep | purego.go:144-147 | no step of another goroutine or of the scheduler moves a locked goroutine or touches its thread's variables |
| ErrorCalls.Process.CallWatched | purego.go:232-243 | with any steps of others between its statements, an error-returning call enters C locked and with errno clear, and gives an error exactly if errno on its own thread is other than 0 when C returns, and then that number |
| ErrorCalls.Process.Read | syscall_unix.go:55-63 | the variable read through the pointer is the one of the goroutine's own thread as C left it |
| ErrorCalls.Process.OpenLocked | dlfcn_linux.go:50-61 | whatever others do meanwhile, an open gives its handle or fails with its own text, never one pending from before, or with one naming the file; the goroutine ends as it was and nothing is pending |
| ErrorCalls.Loader.Dlopen | dlfcn_linux.go:43-62 | a failed initialisation is reported on every call, otherwise the file is opened on the locked thread |
| PoolIsolation.OneOwner | zz_fast_func.go:40-62 | in every reachable state a context belongs to one call in flight or to the pool |
| PoolIsolation.CallsSeeTheirOwn | purego.go:214-266 | C is given the call's own arguments and the call reads the result its own C call stored, under any interleaving and re-entry |
| PoolIsolation.KeepAliveDiscipline | purego.go:130-163 | a slow call inside C holds all its arguments, and a pooled context holds nothing, also after a panic part-way through packing |
| PoolIsolation.GivesUp | purego.go:135-142 | a finished call and a panicking slow call put their context back with nothing kept; a panic through the fast path or SyscallN loses it |
| PoolIsolation.CanGiveUp | purego.go:135-142 | a call can be panicked out of at any point before it has read its result, and from then on finished |
| PoolIsolation.CallCompletes | zz_fast_func.go:40-62 | from every reachable state a call of up to 32 values on any pooled or new context can be carried through to reading C's own answer |
| Syscalls.InterfaceCache.Init | syscall_unix.go:96-110 | after the once-only initialisation entry n is the interface of n pointer arguments, for n from 0 to 32 |
| Syscalls.InterfaceMeaning | syscall_unix.go:96-110 | that interface is n pointers and a struct of two words at offsets 0 and 8 |
| Syscalls.SyscallMeaning | syscall_unix.go:118-165 | a nil function, more than 32 arguments and a refused interface panic; otherwise r1 and r2 are the two words C stored, or 0 if the call failed, and err is the captured errno exactly if the low four bytes of the first are all ones |
| Syscalls.SyscallContext.constructor | syscall_unix.go:84-94 | pointer i of a new context points at slot i |
| Syscalls.SyscallPool.Perform | syscall_unix.go:136-155 | on the context taken C sees exactly this call's words, none left from a longer earlier call, and the result read is the one stored for it |
| Syscalls.SyscallPool.SyscallN | syscall_unix.go:118-165 | the interface used is the one prepared on demand, the result is this call's own while other calls use and overwrite pooled contexts, and errno is reported exactly for a 32-bit -1 |
| Syscalls.SyscallPool.SyscallSequence | syscall_unix.go:126-157 | over any sequence of calls on contexts reused in any order each call gives what it would give alone |
| BlockLifetime.FunctionMapExact | objc/objc_block_darwin.go:47-64 | in every reachable state the function map holds exactly the live blocks stored and not yet deleted, each with the function it was created with, although addresses are reused |
| BlockLifetime.SharedThunkDispatch | objc/objc_block_darwin.go:111-140 | one thunk serves each function type, and entering any block through it that a client or an InvokeBlock in flight holds reaches the block's own function, as a direct Invoke does |
| BlockLifetime.ReferencesConserved | objc/objc_block_darwin.go:160-186 | a block's count is what clients hold plus one for each operation in flight on it |
| BlockLifetime.InvokeBlockNeutral | objc/objc_block_darwin.go:188-190 | InvokeBlock alone leaves blocks, counts and functions as it found them |
| BlockCache.Blocks.GetLayout | objc/objc_block_darwin.go:111-140 | a known type gives its cached layout, a new one a new thunk, and a type without encoding panics and changes nothing |
| BlockCache.Blocks.NewBlock | objc/objc_block_darwin.go:182-186 | NewBlock performs the steps layout, copy and store for its own function; a function is stored only under an address that is on the heap |
| BlockCache.Blocks.CopyBlock | objc/objc_block_darwin.go:162-164 | a copy adds one reference and changes nothing else |
| BlockCache.Blocks.ReleaseBlock | objc/objc_block_darwin.go:178-180 | the last release performs the steps release, delete and free; memory is freed only when no function is left under its address |
| BlockCache.Blocks.InvokeBlock | objc/objc_block_darwin.go:188-212 | gives the arity error exactly if the function does not take the block and the arguments; else calls the block's own function while it is retained beyond its clients' references, and gives its first result, the type error exactly if that is of another type, or panics on a panic or no result; every count is as it was on all four |

## Left out

- goffi itself, assembly trampolines and C register classification: unknown functions here, see above.
- FastCall.FastPool.RunWrapper: KeepAlive statements are part of a wrapper's description (`FastTable.EmitWrapper`) and have no effect when it is run.
- ReflectCall.SlowPool.Call: a panic that passes through C counts as a failed call; the deferred functions run as they do for an engine error.
- Refinement.RegisterAndCall: what a call without an error value leaves in its thread's errno is not followed there; in `ThreadErrors` it is a plain call that may write errno.
- PoolIsolation.CallsSeeTheirOwn: gives every context 32 slots; the smaller arrays of a fast context are bounded in `FastCall`.
- Refinement.SameCall: memory behind pointer arguments is not modelled; both paths pass the same addresses.
- Descriptors.LayoutPreservedIff: a string or slice as an argument of its own is a pointer to C and not a matter of layout; only inside aggregates is it one of the three shapes.
- Callbacks.CallbackTable.BindAndCall: how the engine reads a callback's strings, slices, arrays and functions is not known; it is a parameter.
- ErrorCalls.Process.CallWatched: the conversion of a number to a syscall.Errno value is the identity here.
- ErrorCalls.Process.OpenLocked: the two registered C functions are called directly; that their own calls go through the reflect path is not followed.
- Storing more bytes than a small struct result has: the closure copies only the result's size out of a larger buffer; here a call stores exactly the declared size.
- Raw pointer writes of `forceFuncPtr`, the garbage collector and stack growth: only the slot shape and the installed wrapper they depend on.
- The symbol-name lookup that tells Objective-C dispatchers from C-variadic functions: the name is a parameter of registration.
- Reading C strings and binding returned C functions: a result is the address, and what is done with it is not followed further.
- Library loading, symbol lookup and the Windows, BSD, Darwin and arm loader files: thin wrappers over foreign calls.
- Objective-C classes, protocols, instance variables, messages, and `cstrings`: direct calls into the Objective-C runtime.
- Template and gofmt plumbing of the generator: generated code is modelled as the statements it consists of.
