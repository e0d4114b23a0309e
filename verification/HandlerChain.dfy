/**
What the handlers around a method do with parameters, results and exceptions, in
the machine of Cancellation.
*/
module HandlerChain {
  import opened Base
  import opened Cancellation
  import TryFinally

  // ----- Where params and results are accessed -----------------------------------------------

  /**
  The step reads a parameter or writes a result: a field on the way in, a field or the return value on the
  way out of a call that returned, the handler that catches an exception, and the context in the first sync().
  */
  predicate Accesses(r: Request, s: State, step: Step)
    requires Enabled(r, s, step)
  {
    match step
    case Enter(_) => s.w.i < |r.chain| && r.chain[s.w.i].Field?
    case Leave(_) =>
      s.w.i > 0 &&
      (match s.w.outcome
       case None => r.chain[s.w.i - 1].Field? || r.chain[s.w.i - 1].Ret?
       case Some(Interrupt) => r.chain[s.w.i - 1].Except? && r.chain[s.w.i - 1].interrupt
       case Some(Other(id)) => r.chain[s.w.i - 1].Except? && r.chain[s.w.i - 1].kind == id)
    case RunSync1 => !s.link.canceled
    case _ => false
  }

  lemma TouchesEntering(r: Request, s: State, step: Step)
    requires Enabled(r, s, step) && step.Enter?
    ensures Apply(r, s, step).touchedFreed <==> s.touchedFreed || (Accesses(r, s, step) && s.freed)
  {
  }

  lemma TouchesLeaving(r: Request, s: State, step: Step)
    requires Enabled(r, s, step) && step.Leave?
    ensures Apply(r, s, step).touchedFreed <==> s.touchedFreed || (Accesses(r, s, step) && s.freed)
  {
  }

  /** Exactly these steps count as touching what may be freed. */
  lemma TouchesExactly(r: Request, s: State, step: Step)
    requires Enabled(r, s, step)
    ensures Apply(r, s, step).touchedFreed <==> s.touchedFreed || (Accesses(r, s, step) && s.freed)
  {
    if step.Enter? {
      TouchesEntering(r, s, step);
    } else if step.Leave? {
      TouchesLeaving(r, s, step);
    }
  }

  /**
  And of the handlers exactly these can throw, with the exception going out of the handler. (Where the leaf
  destroys the server object, that can throw as well.)
  */
  lemma EnteringThrows(r: Request, s: State, k: nat)
    requires s.w.Down? && s.w.i <= |r.chain|
    ensures var w := Apply(r, s, Enter(Some(k))).w;
            if Accesses(r, s, Enter(None)) || (s.w.i == |r.chain| && r.leaf.Destroy?)
            then w == Up(s.w.i, Some(Other(k)))
            else w == Apply(r, s, Enter(None)).w
    ensures Apply(r, s, Enter(None)).w ==
            if s.w.i < |r.chain| then Down(s.w.i + 1) else if r.leaf.Call? then InMethod else Up(s.w.i, None)
  {
  }

  lemma LeavingThrows(r: Request, s: State, k: nat)
    requires s.w.Up? && 0 < s.w.i <= |r.chain|
    ensures Apply(r, s, Leave(Some(k))).w ==
            if Accesses(r, s, Leave(None)) then Up(s.w.i - 1, Some(Other(k))) else Apply(r, s, Leave(None)).w
  {
  }

  /** Accesses find params and results there, for exactly the requests that do not catch the interrupt. */
  lemma AccessesAreSafe(r: Request)
    ensures (forall s, step :: Reachable(r, s) && Enabled(r, s, step) && Accesses(r, s, step) ==> !s.freed)
            <==> !CatchesInterrupt(r)
  {
    if CatchesInterrupt(r) {
      var s, step := FirstTouch(r);
    } else {
      forall s, step | Reachable(r, s) && Enabled(r, s, step) && Accesses(r, s, step) ensures !s.freed {
        ReachableStep(r, s, step);
        ReachableInv(r, Apply(r, s, step));
        TouchesExactly(r, s, step);
      }
    }
  }

  lemma FirstTouch(r: Request) returns (s: State, step: Step)
    requires CatchesInterrupt(r)
    ensures Reachable(r, s) && Enabled(r, s, step) && Accesses(r, s, step) && s.freed
  {
    var t := TouchAfterFree(r);
    var steps :| Run(r, INITIAL, steps, t);
    assert Run(r, INITIAL, [], INITIAL);
    s, step := TouchInRun(r, INITIAL, steps, t);
  }

  lemma {:induction false} TouchInRun(r: Request, s0: State, steps: seq<Step>, t: State) returns (s: State, step: Step)
    requires Reachable(r, s0) && Run(r, s0, steps, t) && !s0.touchedFreed && t.touchedFreed
    ensures Reachable(r, s) && Enabled(r, s, step) && Accesses(r, s, step) && s.freed
    decreases |steps|
  {
    var s1 := Apply(r, s0, steps[0]);
    TouchesExactly(r, s0, steps[0]);
    ReachableStep(r, s0, steps[0]);
    if s1.touchedFreed {
      s, step := s0, steps[0];
    } else {
      s, step := TouchInRun(r, s1, steps[1..], t);
    }
  }

  /** In particular parameters are there whenever a handler is entered, whatever is declared. */
  lemma ParamsThereOnTheWayIn(r: Request, s: State)
    requires Reachable(r, s) && s.w.Down?
    ensures !s.freed && !s.requestCanceled && s.calls == 0
  {
    ReachableInv(r, s);
  }

  // ----- A parameter that cannot be read -----------------------------------------------------------

  predicate PastTheCall(w: WorkerPc) {
    w.Up? || w.Deferred? || w.Sync2? || w.BeforeSync3? || w.Sync3? || w.Finished?
  }

  lemma NotCalledLeaving(r: Request, s: State, fails: Option<nat>)
    requires Enabled(r, s, Leave(fails))
    ensures Apply(r, s, Leave(fails)).calls == s.calls && PastTheCall(Apply(r, s, Leave(fails)).w)
  {
  }

  lemma NotCalledLater(r: Request, s: State, step: Step)
    requires Enabled(r, s, step) && PastTheCall(s.w)
    ensures Apply(r, s, step).calls == s.calls && PastTheCall(Apply(r, s, step).w)
  {
    match step
    case Leave(fails) => NotCalledLeaving(r, s, fails);
    case Release =>
    case RunSync2 =>
    case EnterSync3 =>
    case RunSync3 =>
    case Cancel =>
    case CallbackLocks =>
    case FreeStructs =>
    case _ =>
  }

  lemma {:induction false} NeverCalled(r: Request, s0: State, steps: seq<Step>, s: State)
    requires Run(r, s0, steps, s) && PastTheCall(s0.w)
    ensures s.calls == s0.calls && PastTheCall(s.w)
    decreases |steps|
  {
    if steps != [] {
      NotCalledLater(r, s0, steps[0]);
      NeverCalled(r, Apply(r, s0, steps[0]), steps[1..], s);
    }
  }

  /** Then the method is never called, however the run goes on. */
  lemma BadParameterNeverCalls(r: Request, s: State, k: nat, steps: seq<Step>, t: State)
    requires Reachable(r, s) && s.w.Down? && s.w.i < |r.chain| && r.chain[s.w.i].Field?
    requires Run(r, Apply(r, s, Enter(Some(k))), steps, t)
    ensures t.calls == 0
  {
    ParamsThereOnTheWayIn(r, s);
    EnteringThrows(r, s, k);
    NeverCalled(r, Apply(r, s, Enter(Some(k))), steps, t);
  }

  // ----- What comes out of the chain -----------------------------------------------------------------

  /** Nobody cancels, and every parameter and result is read and written. */
  predicate Smooth(step: Step) {
    !step.Cancel? && (step.Enter? || step.Leave? ==> step.fails.None?)
  }

  /** One of the handlers from `i` on declares what the method threw. */
  ghost predicate Swallowed(r: Request, thrown: Exc, i: nat) {
    exists j :: i <= j < |r.chain| && Declares(r.chain[j], thrown)
  }

  predicate Declares(h: Handler, e: Exc) {
    h.Except? && match e case Interrupt => h.interrupt case Other(id) => h.kind == id
  }

  /** On the way out there is nothing in flight, or what the method threw, which no handler so far declares. */
  ghost predicate ComesOut(r: Request, s: State) {
    s.w.Up? ==>
      && s.calls == 1
      && (s.w.outcome.None? <==> s.thrown.None? || Swallowed(r, s.thrown.value, s.w.i))
      && (s.w.outcome.Some? ==> s.w.outcome == s.thrown)
  }

  ghost predicate SmoothInv(r: Request, s: State) {
    && Inv(r, s) && ComesOut(r, s)
    && s.link.probeAlive && s.loop.Free? && !s.requestCanceled && !s.link.canceled
    && (s.w.Down? ==> s.calls == 0)
    && (s.calls == 0 ==> s.thrown.None?)
  }

  lemma LeavesOne(r: Request, s: State)
    requires SmoothInv(r, s) && s.w.Up? && s.w.i > 0
    ensures ComesOut(r, Apply(r, s, Leave(None)))
  {
    var i, s' := s.w.i, Apply(r, s, Leave(None));
    if s.thrown.Some? {
      assert Swallowed(r, s.thrown.value, i - 1) <==>
             Declares(r.chain[i - 1], s.thrown.value) || Swallowed(r, s.thrown.value, i) by {
        if Declares(r.chain[i - 1], s.thrown.value) {
          assert Swallowed(r, s.thrown.value, i - 1);
        }
      }
    }
  }

  lemma SmoothStep(r: Request, s: State, step: Step)
    requires r.leaf.Call? && SmoothInv(r, s) && Enabled(r, s, step) && Smooth(step)
    ensures SmoothInv(r, Apply(r, s, step))
  {
    if OnLoop(step) {
      InvLoopStep(r, s, step);
    } else {
      InvWorkerStep(r, s, step);
    }
    if step.Leave? && s.w.i > 0 {
      LeavesOne(r, s);
    }
  }

  lemma {:induction false} SmoothRun(r: Request, s0: State, steps: seq<Step>, s: State)
    requires r.leaf.Call? && SmoothInv(r, s0) && Run(r, s0, steps, s)
    requires forall i :: 0 <= i < |steps| ==> Smooth(steps[i])
    ensures SmoothInv(r, s)
    decreases |steps|
  {
    if steps != [] {
      SmoothStep(r, s0, steps[0]);
      SmoothRun(r, Apply(r, s0, steps[0]), steps[1..], s);
    }
  }

  /**
  In a call that is not canceled and whose parameters and results can be read and written, the method is
  called, and what it throws leaves the handlers exactly if none of them declares it.
  */
  lemma DeclaredExceptionsStay(r: Request, steps: seq<Step>, s: State)
    requires r.leaf.Call? && Run(r, INITIAL, steps, s) && s.w.Up?
    requires forall i :: 0 <= i < |steps| ==> Smooth(steps[i])
    ensures s.calls == 1
    ensures s.w.outcome.None? <==> s.thrown.None? || Swallowed(r, s.thrown.value, s.w.i)
    ensures s.w.outcome.Some? ==> s.w.outcome == s.thrown
  {
    SmoothRun(r, INITIAL, steps, s);
  }
}
