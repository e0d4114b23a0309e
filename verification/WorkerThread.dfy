/**
A server thread made by `ProxyServer<ThreadMap>::makeThread`: its `Waiter`, the
`ProxyServer<Thread>` object that posts to it, and its end. The worker's stack
holds the nested `Waiter::wait` calls and the functions running inside them; a
step is one critical section of `Waiter::m_mutex`, or one action of the event
loop thread.
*/
module WorkerThread {
  import opened Base

  datatype Pred = Shutdown | CallDone(id: nat)     // !g_thread_context.waiter, or the `done` of a client call

  datatype TaskPc =
    | BeforeReady      // taken from the slot, "ready" not signalled yet
    | Body             // inside fn(); may make client calls and so wait again
    | Returning        // last sync() done: its reference to the server object is given away

  datatype Frame = Wait(pred: Pred, asleep: bool) | Task(k: nat, pc: TaskPc)

  datatype WorkerPc =
    | Unborn           // std::thread constructed, nothing executed
    | Created          // waiter made, its mutex locked, thread_context promise set
    | Running          // inside waiter->wait(); see the stack
    | Leaving          // wait() returned, mutex not released yet
    | Gone

  datatype Waiter = NotMade | InContext | InDestructor | Freed     // who owns the Waiter object

  datatype Destructor = NotCalled | Joining | Complete             // ~ProxyServer<Thread>

  datatype State = State(
    worker: WorkerPc,
    stack: seq<Frame>,          // bottom first
    waiter: Waiter,
    slot: Option<nat>,          // Waiter::m_fn
    posted: nat,                // calls of ProxyServer<Thread>::post
    dropped: set<nat>,          // posts canceled before their continuation ran
    continued: nat,             // continuations run, in order
    ready: nat,                 // "ready" promises fulfilled
    started: seq<nat>,          // functions taken from the slot, in order
    calls: nat, done: set<nat>, // client calls made by the worker, and those completed
    server: bool,               // ProxyServer<Thread> exists or existed
    refs: nat,                  // its reference count
    clients: nat, later: nat,   // references of clients, and of evalLater tasks
    destructor: Destructor,
    // What must never happen.
    postFailed: bool,           // assert(posted) failed
    busyDestroyed: bool,        // assert(!waiter->m_fn) failed
    badPointer: bool)           // a null context pointer or a freed Waiter was used
  {
    predicate Top() { |stack| > 0 }

    function TopFrame(): Frame
      requires Top()
    {
      stack[|stack| - 1]
    }

    function SetTop(f: Frame): seq<Frame>
      requires Top()
    {
      stack[..|stack| - 1] + [f]
    }

    predicate TopIsTask(pc: TaskPc) { Top() && TopFrame().Task? && TopFrame().pc == pc }

    predicate TopWaits() { Top() && TopFrame().Wait? }

    /** m_cv.notify_all() */
    function Notified(): seq<Frame> {
      if TopWaits() then SetTop(TopFrame().(asleep := false)) else stack
    }

    predicate Holds(p: Pred) {
      match p
      case Shutdown => !waiter.InContext?
      case CallDone(id) => id in done
    }

    /** The event loop thread is not blocked in the destructor's join(). */
    predicate LoopFree() { !destructor.Joining? }
  }

  predicate Init(s: State) {
    && s.worker.Unborn? && s.stack == [] && s.waiter.NotMade? && s.slot.None?
    && s.posted == 0 && s.dropped == {} && s.continued == 0 && s.ready == 0 && s.started == []
    && s.calls == 0 && s.done == {} && !s.server && s.refs == 0 && s.clients == 0 && s.later == 0
    && s.destructor.NotCalled? && !s.postFailed && !s.busyDestroyed && !s.badPointer
  }

  datatype Step =
    // worker
    | Create | EnterWait | Check | Ready | CallOut | Finish | Return | Exit | SpuriousWake
    // event loop thread
    | MakeServer | Post | CancelPost(k: nat) | Continue | CompleteCall(id: nat)
    | EvalLater | CloneRef | DropRef | Destroy | Join

  predicate Enabled(s: State, step: Step) {
    match step
    case Create => s.worker.Unborn?
    case EnterWait => s.worker.Created?
    case Check => s.TopWaits() && !s.TopFrame().asleep
    case Ready => s.TopIsTask(BeforeReady) && s.LoopFree()
    case CallOut => s.TopIsTask(Body) && s.LoopFree()
    case Finish => s.TopIsTask(Body) && s.LoopFree()
    case Return => s.TopIsTask(Returning)
    case Exit => s.worker.Leaving?
    case SpuriousWake => s.TopWaits() && s.TopFrame().asleep
    case MakeServer => !s.worker.Unborn? && !s.server
    case Post => s.refs > 0 && s.LoopFree()
    case CancelPost(k) => s.continued <= k < s.posted && k !in s.dropped && s.refs > 0 && s.LoopFree()
    // The worker holds the mutex between Create and its first wait.
    case Continue =>
      && s.continued < s.posted && s.continued !in s.dropped && s.continued <= s.ready
      && !s.worker.Created? && s.LoopFree()
    case CompleteCall(id) => id < s.calls && id !in s.done && s.LoopFree()
    case EvalLater => s.later > 0 && s.refs > 0 && s.LoopFree()
    case CloneRef => s.refs > 0 && s.LoopFree()
    case DropRef => s.clients > 0 && s.refs > 0 && s.LoopFree()
    case Destroy => s.server && s.refs == 0 && s.destructor.NotCalled? && !s.worker.Created?
    case Join => s.destructor.Joining? && s.worker.Gone?
  }

  function Apply(s: State, step: Step): State
    requires Enabled(s, step)
  {
    match step
    case Create => s.(worker := Created, waiter := InContext)
    case EnterWait =>
      s.(worker := Running, stack := [Wait(Shutdown, false)], badPointer := s.badPointer || !s.waiter.InContext?)
    case Check => DoCheck(s)
    case Ready => s.(ready := s.ready + 1, stack := s.SetTop(Task(s.TopFrame().k, Body)))
    case CallOut => s.(calls := s.calls + 1, stack := s.stack + [Wait(CallDone(s.calls), false)])
    case Finish => s.(later := s.later + 1, stack := s.SetTop(Task(s.TopFrame().k, Returning)))
    case Return => s.(stack := s.stack[..|s.stack| - 1])
    case Exit => s.(worker := Gone, badPointer := s.badPointer || s.waiter.Freed?)
    case SpuriousWake => s.(stack := s.SetTop(s.TopFrame().(asleep := false)))
    case MakeServer => s.(server := true, refs := 1, clients := 1)
    case Post => s.(posted := s.posted + 1, refs := s.refs + 1)
    case CancelPost(k) => s.(dropped := s.dropped + {k}, refs := s.refs - 1)
    case Continue =>
      s.(continued := s.continued + 1,
         slot := if s.slot.None? then Some(s.continued) else s.slot,
         stack := s.Notified(),
         postFailed := s.postFailed || s.slot.Some?,
         badPointer := s.badPointer || !s.waiter.InContext?)
    case CompleteCall(id) =>
      s.(done := s.done + {id}, stack := s.Notified(), badPointer := s.badPointer || !s.waiter.InContext?)
    case EvalLater => s.(later := s.later - 1, refs := s.refs - 1)
    case CloneRef => s.(clients := s.clients + 1, refs := s.refs + 1)
    case DropRef => s.(clients := s.clients - 1, refs := s.refs - 1)
    case Destroy =>
      s.(destructor := Joining, waiter := InDestructor, stack := s.Notified(),
         busyDestroyed := s.busyDestroyed || s.slot.Some?, badPointer := s.badPointer || !s.waiter.InContext?)
    case Join => s.(destructor := Complete, waiter := Freed)
  }

  /** One evaluation of the wait predicate: a function in the slot first, then the caller's test. */
  function DoCheck(s: State): State
    requires s.TopWaits()
  {
    var take := s.slot.Some?;
    var leave := !take && s.Holds(s.TopFrame().pred);
    s.(slot := None,
       started := if take then s.started + [s.slot.value] else s.started,
       stack := if take then s.stack + [Task(s.slot.value, BeforeReady)]
                else if leave then s.stack[..|s.stack| - 1]
                else s.SetTop(Wait(s.TopFrame().pred, true)),
       worker := if leave && |s.stack| == 1 then Leaving else s.worker,
       badPointer := s.badPointer || s.waiter.Freed? || s.waiter.NotMade?)
  }

  // ----- Runs --------------------------------------------------------------------------

  ghost predicate Run(s0: State, steps: seq<Step>, s: State)
    decreases |steps|
  {
    if steps == [] then s == s0
    else Enabled(s0, steps[0]) && Run(Apply(s0, steps[0]), steps[1..], s)
  }

  ghost predicate Reachable(s: State) {
    exists s0, steps :: Init(s0) && Run(s0, steps, s)
  }

  // ----- The invariant -------------------------------------------------------------------

  /** Waits and functions alternate from the wait for shutdown up; only the top frame may sleep or end. */
  ghost predicate StackShape(s: State) {
    && (s.stack != [] <==> s.worker.Running?)
    && (forall i | 0 <= i < |s.stack| ::
          if i % 2 == 0 then s.stack[i].Wait? && (s.stack[i].pred.Shutdown? <==> i == 0)
          else s.stack[i].Task?)
    && (forall i | 0 <= i < |s.stack| - 1 ::
          if i % 2 == 0 then !s.stack[i].asleep else s.stack[i].pc == Body)
  }

  /** A thread asleep has an empty slot and a false predicate. */
  ghost predicate NoLostWakeUp(s: State) {
    s.TopWaits() && s.TopFrame().asleep ==> s.slot.None? && !s.Holds(s.TopFrame().pred)
  }

  ghost predicate ReadyChain(s: State) {
    && |s.started| == s.ready + B2N(s.TopIsTask(BeforeReady))
    && s.continued == |s.started| + B2N(s.slot.Some?)
    && s.continued <= s.posted
    && (s.slot.Some? ==> s.slot.value == |s.started|)
    && (forall i | 0 <= i < |s.started| :: s.started[i] == i)
    && (s.TopIsTask(BeforeReady) ==> s.TopFrame().k == s.ready)
    && (forall k | k in s.dropped :: s.continued <= k < s.posted)
  }

  ghost predicate Lifetime(s: State) {
    && (s.waiter.NotMade? <==> s.worker.Unborn?)
    && (s.destructor.NotCalled? <==> s.waiter.NotMade? || s.waiter.InContext?)
    && (s.destructor.Joining? <==> s.waiter.InDestructor?)
    && (s.destructor.Complete? ==> s.worker.Gone?)
    && (s.worker.Leaving? || s.worker.Gone? ==> !s.destructor.NotCalled?)
    && (s.worker.Created? ==> s.destructor.NotCalled?)
    && (!s.destructor.NotCalled? ==> s.server && s.refs == 0)
    && (s.worker.Unborn? ==> !s.server)
    && (!s.server ==> s.refs == 0 && s.posted == 0)
    && (forall id | id in s.done :: id < s.calls)
  }

  /** Every client call that has not completed is waited for by a frame above some function. */
  ghost predicate OpenCalls(s: State) {
    forall id {:trigger id in s.done} | 0 <= id < s.calls && id !in s.done :: Awaited(s.stack, id)
  }

  ghost predicate Awaited(stack: seq<Frame>, id: nat) {
    exists i :: 2 <= i < |stack| && stack[i].Wait? && stack[i].pred == CallDone(id)
  }

  /** Posts from `lo` to `hi` whose continuation may still run. */
  function Pending(lo: nat, hi: nat, dropped: set<nat>): nat {
    if hi <= lo then 0 else Pending(lo, hi - 1, dropped) + B2N(hi - 1 !in dropped)
  }

  /** Functions on the stack that still hold their reference. */
  function LiveTasks(stack: seq<Frame>): nat {
    if stack == [] then 0
    else LiveTasks(stack[..|stack| - 1]) + B2N(stack[|stack| - 1].Task? && stack[|stack| - 1].pc != Returning)
  }

  ghost predicate RefCount(s: State) {
    s.refs == s.clients + s.later + Pending(s.continued, s.posted, s.dropped) + B2N(s.slot.Some?) + LiveTasks(s.stack)
  }

  ghost predicate NothingBad(s: State) {
    !s.postFailed && !s.busyDestroyed && !s.badPointer
  }

  ghost predicate Inv(s: State) {
    StackShape(s) && NoLostWakeUp(s) && ReadyChain(s) && Lifetime(s) && OpenCalls(s) && RefCount(s) && NothingBad(s)
  }

  // ----- Counting references ----------------------------------------------------------------

  lemma {:induction false} PendingFirst(lo: nat, hi: nat, dropped: set<nat>)
    requires lo < hi
    ensures Pending(lo, hi, dropped) == Pending(lo + 1, hi, dropped) + B2N(lo !in dropped)
    decreases hi
  {
    if lo + 1 < hi {
      PendingFirst(lo, hi - 1, dropped);
    }
  }

  lemma {:induction false} PendingDrop(lo: nat, hi: nat, dropped: set<nat>, k: nat)
    requires k !in dropped
    ensures Pending(lo, hi, dropped + {k}) == Pending(lo, hi, dropped) - B2N(lo <= k < hi)
    decreases hi
  {
    if lo < hi {
      PendingDrop(lo, hi - 1, dropped, k);
    }
  }

  lemma PushFrame(stack: seq<Frame>, f: Frame)
    ensures LiveTasks(stack + [f]) == LiveTasks(stack) + B2N(f.Task? && f.pc != Returning)
  {
    assert (stack + [f])[..|stack|] == stack;
  }

  lemma SetTopLive(s: State, f: Frame)
    requires s.Top()
    ensures LiveTasks(s.SetTop(f)) == LiveTasks(s.stack[..|s.stack| - 1]) + B2N(f.Task? && f.pc != Returning)
  {
    PushFrame(s.stack[..|s.stack| - 1], f);
  }

  /** A function below the top of the stack holds a reference. */
  lemma {:induction false} BodyIsLive(stack: seq<Frame>, i: nat)
    requires i < |stack| && stack[i].Task? && stack[i].pc != Returning
    ensures LiveTasks(stack) > 0
    decreases |stack|
  {
    if i < |stack| - 1 {
      BodyIsLive(stack[..|stack| - 1], i);
    }
  }

  /** Without references there is at most one function on the stack, on its way out. */
  lemma Idle(s: State)
    requires StackShape(s) && RefCount(s) && s.refs == 0
    ensures s.slot.None? && |s.stack| <= 2 && (|s.stack| == 2 ==> s.stack[1].pc == Returning)
  {
    if |s.stack| >= 2 && s.stack[1].pc != Returning {
      BodyIsLive(s.stack, 1);
    }
  }

  // ----- Every step keeps the invariant -------------------------------------------------------

  predicate PushesOrPops(step: Step) {
    step.Check? || step.CallOut? || step.Return? || step.EnterWait?
  }

  lemma StackShapePush(s: State, step: Step)
    requires StackShape(s) && Enabled(s, step) && PushesOrPops(step)
    requires step.EnterWait? || s.worker.Running?
    ensures StackShape(Apply(s, step))
  {
    var t := Apply(s, step);
    assert forall i | 0 <= i < |s.stack| && i < |t.stack| - 1 :: t.stack[i] == s.stack[i];
  }

  lemma StackShapeTop(s: State, step: Step)
    requires StackShape(s) && Lifetime(s) && Enabled(s, step) && !PushesOrPops(step)
    ensures StackShape(Apply(s, step))
  {
  }

  predicate OfWorker(step: Step) {
    PushesOrPops(step) || step.Ready? || step.Finish? || step.SpuriousWake? || step.Create? || step.Exit?
  }

  lemma WakeUpWorker(s: State, step: Step)
    requires StackShape(s) && NoLostWakeUp(s) && Enabled(s, step) && OfWorker(step)
    ensures NoLostWakeUp(Apply(s, step))
  {
  }

  lemma WakeUpLoop(s: State, step: Step)
    requires NoLostWakeUp(s) && Lifetime(s) && Enabled(s, step) && !OfWorker(step)
    ensures NoLostWakeUp(Apply(s, step))
  {
  }

  lemma ReadyChainWorker(s: State, step: Step)
    requires StackShape(s) && ReadyChain(s) && Enabled(s, step) && OfWorker(step)
    ensures ReadyChain(Apply(s, step))
  {
  }

  lemma ReadyChainContinue(s: State)
    requires ReadyChain(s) && Enabled(s, Continue)
    ensures ReadyChain(Apply(s, Continue))
  {
  }

  lemma ReadyChainPost(s: State, step: Step)
    requires ReadyChain(s) && Enabled(s, step) && (step.Post? || step.CancelPost?)
    ensures ReadyChain(Apply(s, step))
  {
  }

  /** The other steps of the event loop do not concern the chain. */
  lemma ReadyChainLoop(s: State, step: Step)
    requires ReadyChain(s) && Enabled(s, step) && !OfWorker(step)
    ensures ReadyChain(Apply(s, step))
  {
    if step.Continue? {
      ReadyChainContinue(s);
    } else if step.Post? || step.CancelPost? {
      ReadyChainPost(s, step);
    } else {
      var t := Apply(s, step);
      assert t.started == s.started && t.slot == s.slot && t.TopIsTask(BeforeReady) == s.TopIsTask(BeforeReady);
    }
  }

  lemma LifetimeStep(s: State, step: Step)
    requires Inv(s) && Enabled(s, step)
    ensures Lifetime(Apply(s, step))
  {
    if s.refs == 0 {
      Idle(s);
    }
  }

  lemma AwaitedKept(stack: seq<Frame>, stack': seq<Frame>, id: nat)
    requires Awaited(stack, id)
    requires forall i | 0 <= i < |stack| && stack[i].Wait? && stack[i].pred == CallDone(id) ::
               i < |stack'| && stack'[i].Wait? && stack'[i].pred == CallDone(id)
    ensures Awaited(stack', id)
  {
    var i :| 2 <= i < |stack| && stack[i].Wait? && stack[i].pred == CallDone(id);
    assert stack'[i].Wait?;
  }

  lemma OpenCallsStep(s: State, step: Step)
    requires Inv(s) && Enabled(s, step)
    ensures OpenCalls(Apply(s, step))
  {
    var s' := Apply(s, step);
    forall id | 0 <= id < s'.calls && id !in s'.done
      ensures Awaited(s'.stack, id)
    {
      if id == s.calls {
        assert s'.stack[|s.stack|].pred == CallDone(id);
      } else {
        AwaitedKept(s.stack, s'.stack, id);
      }
    }
  }

  lemma RefCountStack(s: State, step: Step)
    requires Inv(s) && Enabled(s, step)
    ensures LiveTasks(Apply(s, step).stack) ==
            LiveTasks(s.stack) + B2N(step.Check? && s.slot.Some?) - B2N(step.Finish?)
  {
    if s.TopWaits() {
      SetTopLive(s, s.TopFrame().(asleep := false));
    }
    match step
    case EnterWait => PushFrame([], Wait(Shutdown, false));
    case Check =>
      if s.slot.Some? {
        PushFrame(s.stack, Task(s.slot.value, BeforeReady));
      } else {
        SetTopLive(s, Wait(s.TopFrame().pred, true));
      }
    case CallOut => PushFrame(s.stack, Wait(CallDone(s.calls), false));
    case Ready => SetTopLive(s, Task(s.TopFrame().k, Body));
    case Finish => SetTopLive(s, Task(s.TopFrame().k, Returning));
    case _ =>
  }

  lemma RefCountStep(s: State, step: Step)
    requires Inv(s) && Enabled(s, step)
    ensures RefCount(Apply(s, step))
  {
    RefCountStack(s, step);
    match step
    case CancelPost(k) => PendingDrop(s.continued, s.posted, s.dropped, k);
    case Continue => PendingFirst(s.continued, s.posted, s.dropped);
    case _ =>
  }

  lemma NothingBadStep(s: State, step: Step)
    requires Inv(s) && Enabled(s, step)
    ensures NothingBad(Apply(s, step))
  {
    match step
    case Continue => PendingFirst(s.continued, s.posted, s.dropped);
    case CompleteCall(id) =>
      assert Awaited(s.stack, id);
      BodyIsLive(s.stack, 1);
    case Destroy => Idle(s);
    case _ =>
  }

  lemma InvStep(s: State, step: Step)
    requires Inv(s) && Enabled(s, step)
    ensures Inv(Apply(s, step))
  {
    if PushesOrPops(step) {
      StackShapePush(s, step);
    } else {
      StackShapeTop(s, step);
    }
    if OfWorker(step) {
      WakeUpWorker(s, step);
      ReadyChainWorker(s, step);
    } else {
      WakeUpLoop(s, step);
      ReadyChainLoop(s, step);
    }
    LifetimeStep(s, step);
    OpenCallsStep(s, step);
    RefCountStep(s, step);
    NothingBadStep(s, step);
  }

  // ----- All runs --------------------------------------------------------------------------------

  lemma {:induction false} RunInv(s0: State, steps: seq<Step>, s: State)
    requires Inv(s0) && Run(s0, steps, s)
    ensures Inv(s)
    decreases |steps|
  {
    if steps != [] {
      InvStep(s0, steps[0]);
      RunInv(Apply(s0, steps[0]), steps[1..], s);
    }
  }

  lemma InitInv(s: State)
    requires Init(s)
    ensures Inv(s)
  {
  }

  lemma ReachableInv(s: State)
    requires Reachable(s)
    ensures Inv(s)
  {
    var s0, steps :| Init(s0) && Run(s0, steps, s);
    InitInv(s0);
    RunInv(s0, steps, s);
  }

  /** assert(posted) never fails, and functions start in the order they were posted, nested or not. */
  lemma PostsNeverCollide(s: State)
    requires Reachable(s)
    ensures !s.postFailed
    ensures forall i | 0 <= i < |s.started| :: s.started[i] == i
    ensures Enabled(s, Continue) ==> s.slot.None?
  {
    ReachableInv(s);
  }

  /**
  For any nesting of waits, a sleeping worker has nothing to do; and the wait an
  inner frame returns to, however deep, has not gone to sleep in the meantime.
  */
  lemma NestedWaitsLoseNoWakeUp(s: State)
    requires Reachable(s)
    ensures NoLostWakeUp(s)
    ensures forall i | 0 <= i < |s.stack| && s.stack[i].Wait? && s.stack[i].asleep :: i == |s.stack| - 1
    ensures s.TopWaits() && (s.slot.Some? || s.Holds(s.TopFrame().pred)) ==> Enabled(s, Check)
  {
    ReachableInv(s);
  }

  /**
  A wait for a client call returns when it is looked at after the call has completed, with nothing to execute
  first, and does not before; and a thread asleep in it has a call that has not completed.
  */
  lemma ClientCallReturns(s: State, id: nat)
    requires Reachable(s) && s.TopWaits() && s.TopFrame().pred == CallDone(id)
    ensures s.TopFrame().asleep ==> id !in s.done && s.slot.None?
    ensures !s.TopFrame().asleep && s.slot.None? ==>
              Enabled(s, Check) &&
              Apply(s, Check).stack ==
              if id in s.done then s.stack[..|s.stack| - 1] else s.stack[..|s.stack| - 1] + [Wait(CallDone(id), true)]
    ensures !s.TopFrame().asleep && s.slot.Some? ==>
              Enabled(s, Check) && Apply(s, Check).stack == s.stack + [Task(s.slot.value, BeforeReady)]
  {
    ReachableInv(s);
  }

  /** The completion of a call wakes the wait for it. */
  lemma CompletionWakes(s: State, id: nat)
    requires Reachable(s) && Enabled(s, CompleteCall(id)) && s.TopWaits()
    ensures var t := Apply(s, CompleteCall(id));
            id in t.done && t.TopWaits() && !t.TopFrame().asleep && t.TopFrame().pred == s.TopFrame().pred
  {
  }

  /** The wait at the bottom ends exactly when the waiter pointer has been taken away. */
  lemma ShutdownEndsTheThread(s: State)
    requires Reachable(s) && |s.stack| == 1 && s.TopWaits() && !s.TopFrame().asleep && s.slot.None?
    ensures Enabled(s, Check)
    ensures Apply(s, Check).worker.Leaving? <==> !s.waiter.InContext?
    ensures Apply(s, Check).stack == if s.waiter.InContext? then [Wait(Shutdown, true)] else []
  {
    ReachableInv(s);
  }

  /**
  Calls are properly nested: no step but the return of the top function, or the end of the top wait, takes a
  frame off the stack, and none touches a frame below the top.
  */
  lemma NestedFramesKept(s: State, step: Step)
    requires Reachable(s) && Enabled(s, step)
    ensures var t := Apply(s, step);
            && |s.stack| - 1 <= |t.stack| <= |s.stack| + 1
            && (forall i | 0 <= i < |s.stack| - 1 :: t.stack[i] == s.stack[i])
            && (|t.stack| > |s.stack| && s.stack != [] ==> t.stack[|s.stack| - 1] == s.stack[|s.stack| - 1])
            && (|t.stack| < |s.stack| ==> step.Return? || (step.Check? && s.TopWaits()))
  {
    ReachableInv(s);
  }

  /** A function on the stack keeps its number, and gives its signal, its body and its return in this order. */
  lemma FunctionsGoOn(s: State, step: Step)
    requires Reachable(s) && Enabled(s, step) && s.Top() && s.TopFrame().Task?
    ensures var f, t := s.TopFrame(), Apply(s, step);
            |t.stack| >= |s.stack| ==>
              var g := t.stack[|s.stack| - 1];
              && g.Task? && g.k == f.k
              && (g.pc == f.pc || (step.Ready? && f.pc == BeforeReady && g.pc == Body)
                  || (step.Finish? && f.pc == Body && g.pc == Returning))
  {
    ReachableInv(s);
  }

  lemma InvOutlived(s: State)
    requires Inv(s)
    ensures Enabled(s, Destroy) ==> s.slot.None? && s.waiter.InContext?
    ensures s.waiter.Freed? ==> s.worker.Gone?
  {
    if Enabled(s, Destroy) {
      Idle(s);
    }
  }

  /** The destructor finds the worker idle; the Waiter outlives the worker's last use of it. */
  lemma WorkerOutlived(s: State)
    requires Reachable(s)
    ensures !s.busyDestroyed && !s.badPointer
    ensures Enabled(s, Destroy) ==> s.slot.None? && s.waiter.InContext?
    ensures s.waiter.Freed? ==> s.worker.Gone?
    ensures s.slot.Some? || LiveTasks(s.stack) > 0 ==> s.refs > 0
  {
    ReachableInv(s);
    InvOutlived(s);
  }

  // ----- The join comes to an end ------------------------------------------------------------------

  function JoinRank(s: State): nat {
    if s.destructor.Complete? then 0
    else if s.worker.Gone? then 1
    else if s.worker.Leaving? then 2
    else |s.stack| + 2
  }

  /**
  While the event loop thread is in m_thread.join() some step is possible, and
  every possible step brings the worker closer to its end, at most four away.
  */
  lemma JoinAdvances(s: State)
    requires Reachable(s) && s.destructor.Joining?
    ensures exists step :: Enabled(s, step)
    ensures forall step :: Enabled(s, step) ==>
              JoinRank(Apply(s, step)) < JoinRank(s) <= 4 && !Apply(s, step).destructor.NotCalled?
  {
    ReachableInv(s);
    Idle(s);
    if s.worker.Gone? {
      assert Enabled(s, Join);
    } else if s.worker.Leaving? {
      assert Enabled(s, Exit);
    } else {
      assert Enabled(s, if |s.stack| == 2 then Return else Check);
    }
  }
}
