/** The error-returning call and Dlopen as one goroutine executes them, while the scheduler and all other
    goroutines do what they like between any two of its statements: their methods perform the steps of
    ThreadErrors. */
module ErrorCalls {
  import opened Words
  import opened ThreadErrors

  lemma PushedCall(gr: Goroutine, c: Call, c': Call)
    ensures Calling(Push(gr, c)) && Top(Push(gr, c)) == c
    ensures SetTop(Push(gr, c), c') == Push(gr, c')
    ensures Pop(Push(gr, c)) == gr
  {
    assert (gr.calls + [c])[|gr.calls| := c'] == gr.calls + [c'];
    assert (gr.calls + [c])[..|gr.calls|] == gr.calls;
  }

  /** The goroutine inside a guarded call `c`: locked once more than before, otherwise as it was. */
  function InCall(before: Goroutine, c: Call): Goroutine {
    Push(before.(locks := before.locks + 1), c)
  }

  /** A step of another goroutine or of the scheduler. */
  predicate IsForeign(step: Step, g: Gid) {
    step.g != g || step.Schedule? || step.Park?
  }

  /** Such a step can neither move a goroutine that is locked to its thread nor touch the variables
      there. */
  lemma ForeignStep(s: State, step: Step, g: Gid)
    requires Inv(s) && Enabled(s, step) && IsForeign(step, g)
    requires g in s.gs && s.gs[g].on.Some? && !Movable(s.gs[g])
    ensures g in Apply(s, step).gs && Apply(s, step).gs[g] == s.gs[g]
    ensures forall v :: Get(Apply(s, step).locals, s.gs[g].on.value, v) == Get(s.locals, s.gs[g].on.value, v)
  {
    var t := s.gs[g].on.value;
    if step.g != g {
      assert step.g in s.gs ==> s.gs[step.g].on != Some(t);
      if step.Report? {
        ReportsOwnThread(s, step.g);
      }
      forall v ensures Get(Apply(s, step).locals, t, v) == Get(s.locals, t, v) {
      }
    }
  }

  /** All goroutines and threads of the program. */
  class Process {
    var s: State

    constructor ()
      ensures s == INITIAL && Reachable(s)
    {
      s := INITIAL;
      new;
      assert Run(INITIAL, []) == Some(INITIAL);
    }

    method Do(step: Step)
      requires Reachable(s) && Enabled(s, step)
      modifies this
      ensures s == Apply(old(s), step) && Reachable(s)
    {
      Then(INITIAL, s, step, Apply(s, step));
      s := Apply(s, step);
    }

    /** What happens between two statements of goroutine `g`: those of `steps` that are possible and are
        not its own. A goroutine that is not locked may find itself on another thread, or on none. */
    method Others(g: Gid, steps: seq<Step>)
      requires Reachable(s) && g in s.gs
      modifies this
      ensures Reachable(s) && g in s.gs
      ensures old(s.gs[g].on.Some? && !Movable(s.gs[g])) ==>
                && s.gs[g] == old(s.gs[g])
                && forall v :: Get(s.locals, s.gs[g].on.value, v) == old(Get(s.locals, s.gs[g].on.value, v))
    {
      for i := 0 to |steps|
        invariant Reachable(s) && g in s.gs
        invariant old(s.gs[g].on.Some? && !Movable(s.gs[g])) ==>
                    && s.gs[g] == old(s.gs[g])
                    && forall v :: Get(s.locals, s.gs[g].on.value, v) == old(Get(s.locals, s.gs[g].on.value, v))
      {
        var step := steps[i];
        if Enabled(s, step) && IsForeign(step, g) {
          ReachableInv(s);
          if s.gs[g].on.Some? && !Movable(s.gs[g]) {
            ForeignStep(s, step, g);
          }
          Do(step);
        }
      }
    }

    /** Goroutine `g`, which was `before`, is in the guarded call `c`. */
    ghost predicate Window(g: Gid, before: Goroutine, c: Call)
      reads this
    {
      Reachable(s) && g in s.gs && before.on.Some? && c.Guarded? && s.gs[g] == InCall(before, c)
    }

    /** The variable on the thread of `before`. */
    ghost function Held(before: Goroutine, v: Var): Local
      requires before.on.Some?
      reads this
    {
      Get(s.locals, before.on.value, v)
    }

    /** LockOSThread. */
    method LockOSThread(g: Gid, v: Var, others: seq<Step>) returns (ghost c: Call)
      requires Reachable(s) && g in s.gs && RunsGo(s.gs[g])
      modifies this
      ensures Window(g, old(s.gs[g]), c) && c.v == v && c.stage == Locked
    {
      c := Guarded(v, Locked, 0, CLEAR, CLEAR, Nothing);
      Do(Begin(g, v));
      Others(g, others);
    }

    /** Clears the thread's variable: clrAndGetErrno where errno's address was found, and the first
        dlerror() of Dlopen. The goroutine must be locked, or the thread cleared need not be the one C
        will run on. */
    method Clear(g: Gid, ghost before: Goroutine, ghost c: Call, others: seq<Step>) returns (ghost c': Call)
      requires Window(g, before, c) && c.stage == Locked && s.gs[g].locks > 0
      modifies this
      ensures Window(g, before, c') && c'.v == c.v && c'.stage == Cleared
      ensures Held(before, c.v) == CLEAR
    {
      PushedCall(before.(locks := before.locks + 1), c, c);
      c' := c.(stage := Cleared, ptr := before.on.value);
      PushedCall(before.(locks := before.locks + 1), c, c');
      Do(Step.Clear(g));
      Others(g, others);
    }

    /** The C function runs on the locked thread and leaves `written` in the variable, if it writes it. */
    method RunC(g: Gid, ghost before: Goroutine, ghost c: Call, written: Option<Content>, others: seq<Step>)
      returns (ghost c': Call)
      requires Window(g, before, c) && c.stage == Cleared && Held(before, c.v) == CLEAR && s.gs[g].locks > 0
      modifies this
      ensures Window(g, before, c') && c'.v == c.v && c'.stage == InC
      ensures Held(before, c.v).value == if written.Some? then written.value else Nothing
      ensures written.None? ==> Held(before, c.v) == CLEAR
    {
      PushedCall(before.(locks := before.locks + 1), c, c);
      c' := c.(stage := InC, started := CLEAR);
      PushedCall(before.(locks := before.locks + 1), c, c');
      CallStaysHere(g, before, c);
      var v := s.gs[g].calls[|s.gs[g].calls| - 1].v;
      Do(Enter(g));
      if written.Some? {
        Do(CWrite(g, v, written.value));
      }
      Others(g, others);
    }

    /** The pointer that was cleared is still that of the goroutine's own thread. */
    lemma CallStaysHere(g: Gid, before: Goroutine, c: Call)
      requires Window(g, before, c)
      ensures c.stage != Locked && c.stage != Blind ==> c.ptr == before.on.value
    {
      ReachableInv(s);
      assert GoroutineOk(g, s.gs[g], s.locals);
      PushedCall(before.(locks := before.locks + 1), c, c);
      assert CallOk(g, before.on.value, s.gs[g].calls[|before.calls|], s.locals);
    }

    method LeaveC(g: Gid, ghost before: Goroutine, ghost c: Call, others: seq<Step>) returns (ghost c': Call)
      requires Window(g, before, c) && c.stage == InC && s.gs[g].locks > 0
      modifies this
      ensures Window(g, before, c') && c'.v == c.v && c'.stage == Returned
      ensures Held(before, c.v) == old(Held(before, c.v))
    {
      c' := c.(stage := Returned, left := Held(before, c.v));
      PushedCall(before.(locks := before.locks + 1), c, c');
      Do(Return(g));
      Others(g, others);
    }

    /** Reads the variable through the pointer that was cleared. */
    method Read(g: Gid, ghost before: Goroutine, ghost c: Call, others: seq<Step>) returns (content: Content, ghost c': Call)
      requires Window(g, before, c) && c.stage == Returned && s.gs[g].locks > 0
      modifies this
      ensures Window(g, before, c') && c'.v == c.v && c'.stage == Reported
      ensures content == old(Held(before, c.v).value)
      ensures Held(before, c.v) == if c.v == Dlerror then CLEAR else old(Held(before, c.v))
    {
      CallStaysHere(g, before, c);
      PushedCall(before.(locks := before.locks + 1), c, c);
      c' := c.(stage := Reported, reported := Held(before, c.v).value);
      PushedCall(before.(locks := before.locks + 1), c, c');
      Do(Report(g));
      content := Top(s.gs[g]).reported;
      Others(g, others);
    }

    /** The C function runs where errno's address was not found. */
    method RunBlind(g: Gid, ghost before: Goroutine, ghost c: Call, written: Option<Content>, others: seq<Step>)
      returns (ghost c': Call)
      requires Window(g, before, c) && c.stage == Locked && c.v == Errno && s.gs[g].locks > 0
      modifies this
      ensures Window(g, before, c') && c'.v == c.v && c'.stage == Blind
    {
      c' := c.(stage := Blind);
      PushedCall(before.(locks := before.locks + 1), c, c');
      Do(EnterBlind(g));
      PushedCall(before.(locks := before.locks + 1), c', c');
      if written.Some? {
        Do(CWrite(g, Errno, written.value));
      }
      Others(g, others);
    }

    method LeaveBlind(g: Gid, ghost before: Goroutine, ghost c: Call, others: seq<Step>) returns (ghost c': Call)
      requires Window(g, before, c) && c.stage == Blind && s.gs[g].locks > 0
      modifies this
      ensures Window(g, before, c') && c'.v == c.v && c'.stage == Locked
    {
      c' := c.(stage := Locked);
      PushedCall(before.(locks := before.locks + 1), c, c');
      Do(ReturnBlind(g));
      Others(g, others);
    }

    /** The deferred UnlockOSThread, on return or on panic: the goroutine is as it was before. */
    method UnlockOSThread(g: Gid, ghost before: Goroutine, ghost c: Call, panicking: bool)
      requires Window(g, before, c) && s.gs[g].locks > 0
      requires !panicking ==> c.stage == Locked || c.stage == Returned || c.stage == Reported
      modifies this
      ensures Reachable(s) && g in s.gs && s.gs[g] == before && s.locals == old(s.locals)
    {
      PushedCall(before.(locks := before.locks + 1), c, c);
      PushedCall(before, c, c);
      assert InCall(before, c).(locks := before.locks) == Push(before, c);
      if panicking {
        Do(Panic(g));
      } else {
        Do(Exit(g));
      }
    }

    /** An error-returning call may enter C: locked, and errno clear if it was found. */
    ghost predicate Opened(g: Gid, found: bool, before: Goroutine, c: Call)
      reads this
    {
      && Window(g, before, c) && c.v == Errno && s.gs[g].locks > 0
      && if found then c.stage == Cleared && Held(before, Errno) == CLEAR else c.stage == Locked
    }

    /** What an error-returning call does first. */
    method OpenWindow(g: Gid, found: bool, world: nat -> seq<Step>) returns (ghost c: Call)
      requires Reachable(s) && g in s.gs && RunsGo(s.gs[g])
      modifies this
      ensures Opened(g, found, old(s.gs[g]), c)
    {
      ghost var before := s.gs[g];
      c := LockOSThread(g, Errno, world(0));
      if found {
        c := Clear(g, before, c, world(1));
      }
    }

    /** The window around the C call of an error-returning signature: C runs, and getErr reads what it
        left on this goroutine's own thread: an error exactly if that is not 0, and then that number.
        `written` is the last errno C stores, if it stores any; `failed` says that the engine reported an
        error or a panic passed through C. */
    method CallWatched(g: Gid, found: bool, written: Option<int>, failed: bool, ghost before: Goroutine, ghost c: Call,
                       world: nat -> seq<Step>)
      returns (e: Option<int>, ghost c': Call)
      requires Opened(g, found, before, c)
      modifies this
      ensures Window(g, before, c')
      ensures !failed ==> (c'.stage == Locked || c'.stage == Reported) && e == ReportedErrno(found, written)
      ensures !failed && found ==>
                && Held(before, Errno).value == (if written.Some? then Number(written.value) else Nothing)
                && (e.Some? <==> Held(before, Errno).value.Number? && Held(before, Errno).value.n != 0)
                && (e.Some? ==> Held(before, Errno).value == Number(e.value))
      ensures !failed && !found ==> e.None?
    {
      e := None;
      var content := if written.Some? then Some(Number(written.value)) else None;
      if found {
        c' := RunC(g, before, c, content, world(2));
        if !failed {
          c' := LeaveC(g, before, c', world(3));
          var read;
          read, c' := Read(g, before, c', world(4));
          if read.Number? && read.n != 0 {
            e := Some(read.n);
          }
        }
      } else {
        c' := RunBlind(g, before, c, content, world(2));
        if !failed {
          c' := LeaveBlind(g, before, c', world(3));
        }
      }
    }

    /** Dlopen once its functions are bound. A text pending from before never shows; a failure without
        a text of its own gets a fixed one; after it nothing is pending. */
    method OpenLocked(g: Gid, dlopen: string -> Opened, path: string, world: nat -> seq<Step>) returns (r: OpenResult)
      requires Reachable(s) && g in s.gs && RunsGo(s.gs[g])
      modifies this
      ensures Reachable(s) && g in s.gs && s.gs[g] == old(s.gs[g])
      ensures var o := dlopen(path);
              && (o.handle != 0 ==> r == Handle(o.handle))
              && (o.handle == 0 && o.text != "" ==> r == Failed(o.text))
              && (o.handle == 0 && o.text == "" ==> r == Failed("dlopen failed: " + path))
      ensures Held(s.gs[g], Dlerror) == CLEAR
    {
      ghost var before := s.gs[g];
      ghost var c := LockOSThread(g, Dlerror, world(0));
      c := Clear(g, before, c, world(1));
      var answer := dlopen(path);
      var handle := answer.handle;
      c := RunC(g, before, c, if handle == 0 && answer.text != "" then Some(Text(answer.text)) else None, world(2));
      c := LeaveC(g, before, c, world(3));
      if handle == 0 {
        var message;
        message, c := Read(g, before, c, world(4));
        if message.Text? && message.text != "" {
          r := Failed(message.text);
        } else {
          r := Failed("dlopen failed: " + path);
        }
      } else {
        r := Handle(handle);
      }
      UnlockOSThread(g, before, c, false);
    }
  }

  /** What an error-returning call reports: errno as C left it, if it is not 0. */
  function ReportedErrno(found: bool, written: Option<int>): Option<int> {
    if found && written.Some? && written.value != 0 then written else None
  }

  /** dlopen: the handle, and the text it leaves pending when it fails. */
  datatype Opened = Opened(handle: word, text: string)

  datatype OpenResult = Handle(h: word) | Failed(message: string)

  /** What Dlsym finds for "dlopen" and "dlerror"; a string is its error. */
  datatype Symbol = Found | Missing(error: string)

  function InitFailure(dlopenSym: Symbol, dlerrorSym: Symbol): Option<string> {
    if dlopenSym.Missing? then Some(dlopenSym.error)
    else if dlerrorSym.Missing? then Some(dlerrorSym.error)
    else None
  }

  class Loader {
    var done: bool
    var failure: Option<string>

    /** The once-only initialisation has run and its verdict stands. */
    ghost predicate Valid(dlopenSym: Symbol, dlerrorSym: Symbol)
      reads this
    {
      done ==> failure == InitFailure(dlopenSym, dlerrorSym)
    }

    constructor (ghost dlopenSym: Symbol, ghost dlerrorSym: Symbol)
      ensures Valid(dlopenSym, dlerrorSym) && !done
    {
      done, failure := false, None;
    }

    /** initDlopen. */
    method Init(dlopenSym: Symbol, dlerrorSym: Symbol)
      modifies this
      ensures done && failure == InitFailure(dlopenSym, dlerrorSym)
    {
      done, failure := true, None;
      if dlopenSym.Missing? {
        failure := Some(dlopenSym.error);
      } else if dlerrorSym.Missing? {
        failure := Some(dlerrorSym.error);
      }
    }

    /** Dlopen: initialises once, reports a failed initialisation on every call, and otherwise opens on
        the locked thread. */
    method Dlopen(p: Process, g: Gid, dlopenSym: Symbol, dlerrorSym: Symbol, dlopen: string -> Opened, path: string,
                  world: nat -> seq<Step>)
      returns (r: OpenResult)
      requires Valid(dlopenSym, dlerrorSym) && Reachable(p.s) && g in p.s.gs && RunsGo(p.s.gs[g])
      modifies this, p
      ensures Valid(dlopenSym, dlerrorSym) && done
      ensures Reachable(p.s) && g in p.s.gs && p.s.gs[g] == old(p.s.gs[g])
      ensures dlopenSym.Missing? ==> r == Failed(dlopenSym.error)
      ensures dlopenSym.Found? && dlerrorSym.Missing? ==> r == Failed(dlerrorSym.error)
      ensures dlopenSym.Found? && dlerrorSym.Found? ==>
                var o := dlopen(path);
                && (o.handle != 0 ==> r == Handle(o.handle))
                && (o.handle == 0 && o.text != "" ==> r == Failed(o.text))
                && (o.handle == 0 && o.text == "" ==> r == Failed("dlopen failed: " + path))
    {
      if !done {
        Init(dlopenSym, dlerrorSym);
      }
      if failure.Some? {
        return Failed(failure.value);
      }
      r := p.OpenLocked(g, dlopen, path, world);
    }
  }
}
