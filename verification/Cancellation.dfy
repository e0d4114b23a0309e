/**
One request executed by a worker thread while the event loop may cancel it at
any point: the `PassField` override for `Context`, the chain of server handlers
it invokes, `ServerCall`'s unlock and relock, and `CancelMonitor`. A step is one
action of the worker or of the event loop thread.
*/
module Cancellation {
  import opened Base
  import opened CancelMonitor
  import TryFinally

  datatype Exc = Interrupt | Other(id: nat)

  /** The handlers around the leaf, outermost first. */
  datatype Handler =
    | Field                                         // reads a parameter going in, writes a result coming out
    | Ret                                           // writes the return value coming out
    | Except(interrupt: bool, kind: nat)            // catches its kind and writes it as a result; interrupt
                                                    // says whether InterruptException is of that kind too
  {
    predicate Catches(e: Exc) {
      Except? && match e case Interrupt => interrupt case Other(id) => id == kind
    }
  }

  datatype Leaf = Call | Destroy      // ServerCall, ServerDestroy

  datatype Request = Request(chain: seq<Handler>, leaf: Leaf)

  datatype WorkerPc =
    | NotStarted
    | BeforeSync1                              // cancel_lock taken, frame alive
    | Sync1                                    // waits for the loop to run the first sync()
    | AfterSync1                               // tests request_canceled
    | Down(i: nat)                             // about to enter handler i; i == |chain| is the leaf
    | InMethod                                 // the user's method, cancel_lock released
    // TryFinally: the follow-up, waiting for cancel_lock, inside the try if nothing was thrown before,
    // else inside the catch; and the catch (...) entered.
    | Relock(thrown: Option<Exc>)
    | Catching(e: Exc)
    | Up(i: nat, outcome: Option<Exc>)         // leaving handler i - 1 with a result or an exception
    | Deferred                                 // KJ_DEFER: about to release cancel_lock
    | Sync2                                    // waits for the loop to run the second sync()
    | BeforeSync3                              // the frame of `invoke` is gone
    | Sync3                                    // waits for the loop to destroy the monitor and fulfil the promise
    | Finished

  datatype LoopPc =
    | Free                                     // runs events and sync() functions
    | OnCancel                                 // inside m_on_cancel, waits for cancel_mutex
    | AfterCancel                              // promiseDestroyed returned, params and results not freed yet

  datatype State = State(
    w: WorkerPc,
    loop: LoopPc,
    locked: bool,              // the worker holds cancel_mutex
    link: Link,                // CancelMonitor, and the CancelProbe of the promise
    requestCanceled: bool,     // server_context.request_canceled
    freed: bool,               // params and results are gone
    calls: nat,                // times the method was called
    success: bool,             // local variable of TryFinally
    followUps: nat,            // runs of the TryFinally follow-up
    thrown: Option<Exc>,       // what the method threw
    // What must never happen.
    touchedFreed: bool,        // params or results touched after they were freed
    callbackOutlived: bool,    // m_on_cancel ran after the frame it captures was gone
    unlockedUnheld: bool)      // cancel_lock released while not held
  {
    /** The frame of `invoke`, which m_on_cancel captures, exists. */
    predicate FrameAlive() {
      !w.NotStarted? && !w.BeforeSync3? && !w.Sync3? && !w.Finished?
    }

    function Unlock(): State {
      this.(locked := false, unlockedUnheld := unlockedUnheld || !locked)
    }

    /** The worker waits for the event loop thread. */
    predicate WaitsForLoop() {
      w.Sync1? || w.Sync2? || w.Sync3?
    }
  }

  const INITIAL := State(NotStarted, Free, false, LINKED, false, false, 0, false, 0, None, false, false, false)

  datatype Step =
    | Begin                                    // worker starts executing the posted function
    | EnterSync1 | RunSync1 | Check
    | Enter(fails: Option<nat>)                // enter the next handler or the leaf; reading may throw
    | MethodEnds(outcome: Option<nat>)         // the method returns, or throws
    | Catch | TakeLock
    | Leave(fails: Option<nat>)                // leave one handler; writing may throw
    | Release | RunSync2 | EnterSync3 | RunSync3
    | Cancel                                   // the loop destroys the promise of the request
    | CallbackLocks                            // m_on_cancel gets cancel_mutex
    | FreeStructs                              // the loop frees params and results

  function Throwing(fails: Option<nat>): Option<Exc> {
    if fails.Some? then Some(Other(fails.value)) else None
  }

  predicate Enabled(r: Request, s: State, step: Step) {
    match step
    case Begin => s.w.NotStarted?
    case EnterSync1 => s.w.BeforeSync1?
    case RunSync1 => s.w.Sync1? && s.loop.Free?
    case Check => s.w.AfterSync1?
    case Enter(_) => s.w.Down? && s.w.i <= |r.chain|
    case MethodEnds(_) => s.w.InMethod?
    case Catch => s.w.Catching?
    case TakeLock => s.w.Relock? && !s.locked
    case Leave(_) => s.w.Up? && s.w.i <= |r.chain|
    case Release => s.w.Deferred?
    case RunSync2 => s.w.Sync2? && s.loop.Free?
    case EnterSync3 => s.w.BeforeSync3?
    case RunSync3 => s.w.Sync3? && s.loop.Free?
    case Cancel => s.loop.Free? && s.link.probeAlive
    case CallbackLocks => s.loop.OnCancel? && !s.locked
    case FreeStructs => s.loop.AfterCancel? || (s.loop.Free? && s.w.Finished? && !s.freed)
  }

  function Apply(r: Request, s: State, step: Step): State
    requires Enabled(r, s, step)
  {
    match step
    case Begin => s.(w := BeforeSync1, locked := true)
    case EnterSync1 => s.(w := Sync1)
    case RunSync1 =>
      // Unless canceled, installs m_on_cancel and reads Context.callbackThread from the params.
      s.(w := AfterSync1,
         requestCanceled := s.requestCanceled || s.link.canceled,
         link := if s.link.canceled then s.link else s.link.SetCallback(true),
         touchedFreed := s.touchedFreed || (!s.link.canceled && s.freed))
    case Check => s.(w := if s.requestCanceled then Deferred else Down(0))
    case Enter(fails) => EnterNext(r, s, fails)
    case MethodEnds(outcome) =>
      s.(w := if outcome.None? then Relock(None) else Catching(Other(outcome.value)),
         success := outcome.None?,
         thrown := Throwing(outcome))
    case Catch =>
      // The follow-up, unless it is what threw; then the exception goes on.
      s.(w := if s.success then Up(|r.chain|, Some(s.w.e)) else Relock(Some(s.w.e)))
    case TakeLock =>
      // The follow-up throws if the request was canceled: inside the try, that is caught.
      s.(w := if s.requestCanceled && s.success then Catching(Interrupt)
              else Up(|r.chain|, if s.requestCanceled then Some(Interrupt) else s.w.thrown),
         locked := true, followUps := s.followUps + 1)
    case Leave(fails) => LeaveNext(r, s, fails)
    case Release => s.Unlock().(w := Sync2)
    case RunSync2 => s.(w := BeforeSync3, link := s.link.SetCallback(false))
    case EnterSync3 => s.(w := Sync3)
    case RunSync3 => s.(w := Finished, link := s.link.DestroyMonitor())
    case Cancel => s.(link := s.link.DestroyProbe(), loop := if s.link.Calls() then OnCancel else AfterCancel)
    case CallbackLocks =>
      s.(requestCanceled := true, loop := AfterCancel, callbackOutlived := s.callbackOutlived || !s.FrameAlive())
    case FreeStructs => s.(freed := true, loop := Free)
  }

  /** Down the chain: fields read their parameter, the leaf releases the lock for the method. */
  function EnterNext(r: Request, s: State, fails: Option<nat>): State
    requires s.w.Down? && s.w.i <= |r.chain|
  {
    var i := s.w.i;
    var readsParam := i < |r.chain| && r.chain[i].Field?;
    var calls := i == |r.chain| && r.leaf.Call?;
    s.(w := if calls then InMethod
            else if i == |r.chain| || (readsParam && fails.Some?) then Up(i, Throwing(fails))
            else Down(i + 1),
       locked := s.locked && !calls,
       calls := s.calls + B2N(calls),
       touchedFreed := s.touchedFreed || (readsParam && s.freed),
       unlockedUnheld := s.unlockedUnheld || (calls && !s.locked))
  }

  /** Up the chain: results are written on a normal way out, or by the handler that catches. */
  function LeaveNext(r: Request, s: State, fails: Option<nat>): State
    requires s.w.Up? && s.w.i <= |r.chain|
  {
    var i, out := s.w.i, s.w.outcome;
    var writesResult := i > 0 && if out.None? then !r.chain[i - 1].Except? else r.chain[i - 1].Catches(out.value);
    s.(w := if i == 0 then Deferred else Up(i - 1, if writesResult then Throwing(fails) else out),
       touchedFreed := s.touchedFreed || (writesResult && s.freed))
  }

  // ----- Runs --------------------------------------------------------------------

  ghost predicate Run(r: Request, s0: State, steps: seq<Step>, s: State)
    decreases |steps|
  {
    if steps == [] then s == s0
    else Enabled(r, s0, steps[0]) && Run(r, Apply(r, s0, steps[0]), steps[1..], s)
  }

  ghost predicate Reachable(r: Request, s: State) {
    exists steps :: Run(r, INITIAL, steps, s)
  }

  lemma {:induction false} RunAppend(r: Request, s0: State, steps: seq<Step>, s: State, step: Step)
    requires Run(r, s0, steps, s) && Enabled(r, s, step)
    ensures Run(r, s0, steps + [step], Apply(r, s, step))
    decreases |steps|
  {
    if steps == [] {
      assert steps + [step] == [step];
      assert [step][1..] == [];
    } else {
      assert (steps + [step])[1..] == steps[1..] + [step];
      RunAppend(r, Apply(r, s0, steps[0]), steps[1..], s, step);
    }
  }

  lemma ReachableStep(r: Request, s: State, step: Step)
    requires Reachable(r, s) && Enabled(r, s, step)
    ensures Reachable(r, Apply(r, s, step))
  {
    var steps :| Run(r, INITIAL, steps, s);
    RunAppend(r, INITIAL, steps, s, step);
  }

  // ----- The invariant -------------------------------------------------------------

  /** A declared exception type of the method is a base of InterruptException. */
  predicate CatchesInterrupt(r: Request) {
    r.leaf.Call? && exists i :: 0 <= i < |r.chain| && r.chain[i].Catches(Interrupt)
  }

  /** Inside the handler chain with cancel_lock held. */
  predicate HoldsLock(s: State) {
    || s.w.BeforeSync1? || s.w.Sync1? || s.w.AfterSync1? || s.w.Down? || s.w.Up? || s.w.Deferred?
    || (s.w.Catching? && s.success)
  }

  /** The method or its follow-up is still to end. */
  predicate InTryFinally(s: State) {
    s.w.InMethod? || s.w.Relock? || s.w.Catching?
  }

  /** The local variables of TryFinally. */
  ghost predicate TryFinallyOk(s: State) {
    && (s.w.Relock? ==> s.w.thrown == s.thrown && s.success == s.thrown.None?)
    && (s.w.Catching? ==>
          if s.success then s.w.e == Interrupt && s.requestCanceled && s.thrown.None?
          else s.thrown == Some(s.w.e))
  }

  /** The follow-up has not begun. */
  predicate FollowUpDue(s: State) {
    s.w.InMethod? || s.w.Relock? || (s.w.Catching? && !s.success)
  }

  /** What the follow-up throws. */
  function FollowUpThrows(s: State): Option<Exc> {
    if s.requestCanceled then Some(Interrupt) else None
  }

  ghost predicate Inv(r: Request, s: State) {
    && s.locked == HoldsLock(s)
    && (s.w.Down? || s.w.Up? ==> s.w.i <= |r.chain|)
    && (InTryFinally(s) ==> r.leaf.Call?)
    && TryFinallyOk(s)
    // m_on_cancel is installed by the first sync() and removed by the second.
    && (s.link.onCancel ==>
          s.w.AfterSync1? || s.w.Down? || InTryFinally(s) || s.w.Up? || s.w.Deferred? || s.w.Sync2?)
    && (s.w.Down? || InTryFinally(s) || s.w.Up? ==> s.link.onCancel)
    && (s.w.AfterSync1? ==> s.link.onCancel != s.requestCanceled)
    && (s.w.NotStarted? || s.w.BeforeSync1? || s.w.Sync1? ==> !s.requestCanceled)
    && s.link.monitorAlive == !s.w.Finished?
    && (s.link.monitorAlive ==> s.link.canceled != s.link.probeAlive)
    // Where a cancellation has got to.
    && (s.loop.OnCancel? ==> s.link.onCancel && !s.link.probeAlive && !s.freed && !s.requestCanceled)
    && (s.loop.AfterCancel? ==> !s.link.probeAlive)
    && (s.freed && s.link.monitorAlive ==> !s.link.probeAlive)
    && (s.link.onCancel && (s.freed || s.loop.AfterCancel?) ==> s.requestCanceled)
    // A canceled request never reads parameters, and only unwinds.
    && (s.requestCanceled ==> !s.link.probeAlive && !s.w.Down?)
    && (s.w.Up? && s.w.outcome == Some(Interrupt) ==> r.leaf.Call?)
    // The follow-up of TryFinally runs once for each call of the method.
    && s.calls == s.followUps + B2N(FollowUpDue(s))
    && (s.w.Up? && s.w.i == |r.chain| && s.calls == 1 ==>
          s.w.outcome == TryFinally.Leaves(s.thrown, FollowUpThrows(s)))
    && s.calls <= 1 && (s.calls > 0 ==> r.leaf.Call?)
    && (s.calls > 0 ==> !s.w.NotStarted? && !s.w.BeforeSync1? && !s.w.Sync1? && !s.w.AfterSync1? && !s.w.Down?)
    && !s.callbackOutlived && !s.unlockedUnheld
  }

  /** While a canceled request unwinds, nothing but InterruptException is in flight. */
  predicate Unwinding(s: State) {
    s.requestCanceled && s.w.Up? ==> s.w.outcome == Some(Interrupt)
  }

  predicate OnLoop(step: Step) {
    step.RunSync1? || step.RunSync2? || step.RunSync3? || step.Cancel? || step.CallbackLocks? || step.FreeStructs?
  }

  lemma InvLoopStep(r: Request, s: State, step: Step)
    requires Inv(r, s) && Enabled(r, s, step) && OnLoop(step)
    ensures Inv(r, Apply(r, s, step))
  {
  }

  lemma InvChainStep(r: Request, s: State, step: Step)
    requires Inv(r, s) && Enabled(r, s, step) && (step.Enter? || step.Leave?)
    ensures Inv(r, Apply(r, s, step))
  {
  }

  lemma InvWorkerStep(r: Request, s: State, step: Step)
    requires Inv(r, s) && Enabled(r, s, step) && !OnLoop(step)
    ensures Inv(r, Apply(r, s, step))
  {
    if step.Enter? || step.Leave? {
      InvChainStep(r, s, step);
    }
  }

  lemma SafeStep(r: Request, s: State, step: Step)
    requires !CatchesInterrupt(r)
    requires Inv(r, s) && Unwinding(s) && !s.touchedFreed && Enabled(r, s, step)
    ensures Unwinding(Apply(r, s, step)) && !Apply(r, s, step).touchedFreed
  {
  }

  lemma {:induction false} RunInv(r: Request, s0: State, steps: seq<Step>, s: State)
    requires Inv(r, s0) && Run(r, s0, steps, s)
    ensures Inv(r, s)
    ensures !CatchesInterrupt(r) && Unwinding(s0) && !s0.touchedFreed ==> Unwinding(s) && !s.touchedFreed
    decreases |steps|
  {
    if steps != [] {
      if OnLoop(steps[0]) {
        InvLoopStep(r, s0, steps[0]);
      } else {
        InvWorkerStep(r, s0, steps[0]);
      }
      if !CatchesInterrupt(r) && Unwinding(s0) && !s0.touchedFreed {
        SafeStep(r, s0, steps[0]);
      }
      RunInv(r, Apply(r, s0, steps[0]), steps[1..], s);
    }
  }

  lemma ReachableInv(r: Request, s: State)
    requires Reachable(r, s)
    ensures Inv(r, s)
    ensures !CatchesInterrupt(r) ==> Unwinding(s) && !s.touchedFreed
  {
    var steps :| Run(r, INITIAL, steps, s);
    RunInv(r, INITIAL, steps, s);
  }

  // ----- All runs ----------------------------------------------------------------------

  /** The worker never touches params or results after the event loop has freed them. */
  ghost predicate NeverTouchesFreed(r: Request) {
    forall s :: Reachable(r, s) ==> !s.touchedFreed
  }

  /**
  The guarantee holds for exactly those methods that declare no exception type
  InterruptException derives from. (It derives from std::exception, which is a
  type a schema may declare.)
  */
  lemma CancellationSafety(r: Request)
    ensures NeverTouchesFreed(r) <==> !CatchesInterrupt(r)
  {
    if CatchesInterrupt(r) {
      var s := TouchAfterFree(r);
    } else {
      forall s | Reachable(r, s) ensures !s.touchedFreed {
        ReachableInv(r, s);
      }
    }
  }

  /** Cancel during the method, let the structs go, and let a handler catch the interrupt. */
  lemma TouchAfterFree(r: Request) returns (s: State)
    requires CatchesInterrupt(r)
    ensures Reachable(r, s) && s.touchedFreed
  {
    s := INITIAL;
    assert Run(r, INITIAL, [], s);
    s := Go(r, s, Begin);
    s := Go(r, s, EnterSync1);
    s := Go(r, s, RunSync1);
    s := Go(r, s, Check);
    s := GoDown(r, s);
    s := Go(r, s, Enter(None));
    s := Go(r, s, Cancel);
    s := Go(r, s, CallbackLocks);
    s := Go(r, s, FreeStructs);
    s := Go(r, s, MethodEnds(None));
    s := Go(r, s, TakeLock);
    s := Go(r, s, Catch);
    s := GoUp(r, s);
  }

  lemma Go(r: Request, s: State, step: Step) returns (s': State)
    requires Reachable(r, s) && Enabled(r, s, step)
    ensures Reachable(r, s') && s' == Apply(r, s, step)
  {
    s' := Apply(r, s, step);
    ReachableStep(r, s, step);
  }

  lemma {:induction false} GoDown(r: Request, s: State) returns (s': State)
    requires Reachable(r, s) && s.w.Down? && s.w.i <= |r.chain| && !s.freed
    ensures Reachable(r, s') && s'.w == Down(|r.chain|) && !s'.freed
    ensures s'.loop == s.loop && s'.link == s.link
    decreases |r.chain| - s.w.i
  {
    if s.w.i == |r.chain| {
      s' := s;
    } else {
      s' := Go(r, s, Enter(None));
      s' := GoDown(r, s');
    }
  }

  lemma {:induction false} GoUp(r: Request, s: State) returns (s': State)
    requires Reachable(r, s) && s.w.Up? && s.w.i <= |r.chain| && s.freed && s.w.outcome == Some(Interrupt)
    requires exists i :: 0 <= i < s.w.i && r.chain[i].Catches(Interrupt)
    ensures Reachable(r, s') && s'.touchedFreed
    decreases s.w.i
  {
    s' := Go(r, s, Leave(None));
    if !r.chain[s.w.i - 1].Catches(Interrupt) {
      s' := GoUp(r, s');
    }
  }

  /**
  For every request: m_on_cancel never runs without the frame it captures,
  cancel_lock is held whenever it is released, and the follow-up of TryFinally
  runs exactly once for the one call of the method, whichever of the two throws;
  what leaves is the interrupt if the request was canceled, else what the method
  threw.
  */
  lemma FrameAndLockDiscipline(r: Request, s: State)
    requires Reachable(r, s)
    ensures !s.callbackOutlived && !s.unlockedUnheld
    ensures s.link.onCancel ==> s.FrameAlive()
    ensures s.w.Deferred? ==> s.locked
    ensures s.w.Sync1? ==> !s.link.onCancel      // assert(!cancel_monitor.m_on_cancel)
    ensures s.calls <= 1 && s.calls == s.followUps + B2N(FollowUpDue(s))
    ensures s.w.Up? && s.w.i == |r.chain| && s.calls == 1 ==>
              s.w.outcome == TryFinally.Leaves(s.thrown, FollowUpThrows(s))
  {
    ReachableInv(r, s);
  }

  /** The loop never waits for a lock whose holder waits for the loop. */
  lemma NoCircularWait(r: Request, s: State)
    requires Reachable(r, s)
    ensures !(s.loop.OnCancel? && s.locked && s.WaitsForLoop())
    ensures s.WaitsForLoop() && s.locked ==> !s.link.onCancel
  {
    ReachableInv(r, s);
  }

  // ----- Every request finishes ---------------------------------------------------------

  /** Until the worker has finished and the loop is free, somebody can go on. */
  lemma NeverStuck(r: Request, s: State) returns (step: Step)
    requires Reachable(r, s) && !(s.w.Finished? && s.loop.Free?)
    ensures Enabled(r, s, step) && step != Cancel
  {
    ReachableInv(r, s);
    step := match s.w
      case NotStarted => Begin
      case BeforeSync1 => EnterSync1
      case Sync1 => RunSync1
      case AfterSync1 => Check
      case Down(_) => Enter(None)
      case InMethod => MethodEnds(None)
      case Relock(_) => TakeLock
      case Catching(_) => Catch
      case Up(_, _) => Leave(None)
      case Deferred => Release
      case Sync2 => RunSync2
      case BeforeSync3 => EnterSync3
      case Sync3 => RunSync3
      case Finished => FreeStructs;
    if s.WaitsForLoop() && !s.loop.Free? {
      step := if s.loop.OnCancel? then CallbackLocks else FreeStructs;
    }
  }

  function WorkerRank(n: nat, w: WorkerPc, success: bool): nat {
    match w
    case NotStarted => 2 * n + 14
    case BeforeSync1 => 2 * n + 13
    case Sync1 => 2 * n + 12
    case AfterSync1 => 2 * n + 11
    case Down(i) => if i <= 2 * n then 2 * n + 10 - i else 10
    case InMethod => n + 9
    case Catching(_) => if success then n + 6 else n + 8
    case Relock(_) => n + 7
    case Up(i, _) => i + 5
    case Deferred => 4
    case Sync2 => 3
    case BeforeSync3 => 2
    case Sync3 => 1
    case Finished => 0
  }

  function Rank(r: Request, s: State): nat {
    WorkerRank(|r.chain|, s.w, s.success) + 3 * B2N(s.link.probeAlive) + B2N(!s.freed)
    + (if s.loop.OnCancel? then 2 else B2N(s.loop.AfterCancel?))
  }

  lemma ChainStepsUseUpRank(r: Request, s: State, step: Step)
    requires Enabled(r, s, step) && (step.Enter? || step.Leave?)
    ensures Rank(r, Apply(r, s, step)) < Rank(r, s)
  {
  }

  lemma EveryStepUsesUpRank(r: Request, s: State, step: Step)
    requires Enabled(r, s, step)
    ensures Rank(r, Apply(r, s, step)) < Rank(r, s)
  {
    if step.Enter? || step.Leave? {
      ChainStepsUseUpRank(r, s, step);
    }
  }

  /** No run is longer than a bound known from the method, so with NeverStuck every request finishes. */
  lemma {:induction false} RunsAreBounded(r: Request, s0: State, steps: seq<Step>, s: State)
    requires Inv(r, s0) && Run(r, s0, steps, s)
    ensures |steps| + Rank(r, s) <= Rank(r, s0)
    ensures s0 == INITIAL ==> |steps| <= 2 * |r.chain| + 18
    decreases |steps|
  {
    if steps != [] {
      var s1 := Apply(r, s0, steps[0]);
      RunInv(r, s0, [steps[0]], s1) by {
        assert [steps[0]][1..] == [];
      }
      EveryStepUsesUpRank(r, s0, steps[0]);
      RunsAreBounded(r, s1, steps[1..], s);
    }
  }
}
