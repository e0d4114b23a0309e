/**
Every interleaving of posting threads, reference holders, the loop thread and
the asynchronous cleanup thread. A step is one critical section of `m_mutex`,
one socket read or write made outside it, or one wake-up. Posted and cleanup
functions may do anything their thread may do, at any time while they run.
*/
module EventLoopProtocol {
  import opened Base
  import opened EventLoopObject
  import opened LoopSpec

  datatype Pc =
    | Idle
    | SlotWait(call: CallId, asleep: bool)   // post: waits for m_post_fn == nullptr
    | PostWrite(call: CallId)                // post: slot filled, byte not written yet
    | DoneWait(call: CallId, asleep: bool)   // post: waits for m_post_fn != &fn
    | Announce                               // reset: dropped the last reference, byte not written yet
  {
    predicate InPost() { SlotWait? || PostWrite? || DoneWait? }
    predicate Writing() { PostWrite? || Announce? }
    predicate Asleep() { (SlotWait? || DoneWait?) && asleep }
    function Woken(): Pc { if Asleep() then this.(asleep := false) else this }
  }

  datatype LoopPc =
    | Reading                                // for(;;): blocked on, or about to start, the read
    | HasByte                                // read one byte, not holding the mutex yet
    | Running(owner: Tid, call: CallId)      // executing *m_post_fn without the mutex
    | Stopping                               // left the for(;;)
    | Closed                                 // closed both ends of the socket pair
    | Finished                               // last section done
  {
    predicate Left() { Stopping? || Closed? || Finished? }
  }

  datatype AsyncPc = NotStarted | Ready | Sleeping | Cleaning(fn: CleanupId) | AsyncAnnounce | Exited

  datatype State = State(
    g: Guarded,
    bytes: nat,              // bytes in the socket
    pcs: map<Tid, Pc>,       // threads other than the loop and the asynchronous thread
    loop: LoopPc,
    loopAnnounce: bool,      // the loop thread dropped the last reference, byte not written yet
    async: AsyncPc,
    ext: nat,                // EventLoopRef objects outside post() and the asynchronous thread
    announced: nat,          // times done() became true in reset
    owners: seq<Tid>,        // the thread that made each call
    nextFn: CleanupId,
    log: seq<Event>,         // what an observer has seen
    spec: Option<Spec>)      // the state of the specification after it
  {
    predicate FdOpen() { !loop.Closed? && !loop.Finished? }

    function Emit(e: Event): State {
      this.(log := log + [e], spec := if spec.None? then None else Next(spec.value, e))
    }

    /** m_cv.notify_all() */
    function Notify(): State {
      this.(pcs := map t | t in pcs :: pcs[t].Woken(), async := if async.Sleeping? then Ready else async)
    }

    /** EventLoopRef::reset up to the unlock; Announces() says whether the caller writes a byte. */
    function Release(): State {
      var s := this.(g := g.DropRef());
      if s.g.IsDone() then s.Notify().(announced := announced + 1) else s
    }

    predicate Announces() { g.DropRef().IsDone() }

    function At(t: Tid, pc: Pc): State { this.(pcs := pcs[t := pc]) }

    function FillOrSleep(t: Tid, c: CallId): State {
      if g.postFn.None? then this.(g := g.TryFill(t)).At(t, PostWrite(c)) else At(t, SlotWait(c, true))
    }

    function CallOf(t: Tid): CallId {
      if t in pcs && pcs[t].InPost() then pcs[t].call else 0
    }
  }

  ghost predicate Init(s: State) {
    // loop() has run its first section and somebody holds a reference.
    && s.ext > 0
    && s.g == Guarded(None, None, s.ext, s.g.waitFd, s.g.postFd).Begin()
    && s.g.waitFd >= 0 && s.g.postFd >= 0
    && s.bytes == 0
    && (forall t | t in s.pcs :: s.pcs[t] == Idle)
    && s.loop == Reading && !s.loopAnnounce && s.async == NotStarted
    && s.announced == 0 && s.owners == [] && s.nextFn == 0
    && s.log == [] && s.spec == Some(INITIAL)
  }

  // What any holder of a reference may do.
  datatype RefAct =
    | NewRef                  // any thread copies a reference
    | Drop(t: Tid)            // EventLoopRef::reset on thread t
    | LoopDrop                // EventLoopRef::reset on the loop thread
    | AsyncDrop               // EventLoopRef::reset inside a cleanup function

  // What a thread does inside post() and at the end of reset().
  datatype PostAct = BeginPost | RetrySlot | WritePost | CheckDone | WriteAnnounce | SpuriousWake

  datatype LoopAct =
    | LoopRead | LoopWake | LoopEndPost | LoopWriteAnnounce | LoopAddCleanup | LoopClose | LoopFinish

  datatype AsyncAct = AsyncTurn | AsyncEnd | AsyncWriteAnnounce | AsyncSpuriousWake

  datatype Step = Ref(ref: RefAct) | Thread(t: Tid, act: PostAct) | Loop(loop: LoopAct) | Async(async: AsyncAct)

  predicate LoopThreadActive(s: State) {
    (s.loop.Reading? || s.loop.HasByte? || s.loop.Running?) && !s.loopAnnounce
  }

  predicate CanRef(s: State, a: RefAct) {
    match a
    case NewRef => s.g.numClients > 0
    case Drop(t) => t in s.pcs && s.pcs[t].Idle? && s.ext > 0
    case LoopDrop => LoopThreadActive(s) && s.ext > 0
    case AsyncDrop => s.async.Cleaning? && s.ext > 0
  }

  function DoRef(s: State, a: RefAct): State
    requires CanRef(s, a)
  {
    match a
    case NewRef => s.(g := s.g.AddRef(), ext := s.ext + 1)
    case Drop(t) =>
      var r := s.Release().(ext := s.ext - 1);
      if s.Announces() then r.At(t, Announce) else r
    case LoopDrop => s.Release().(ext := s.ext - 1, loopAnnounce := s.Announces())
    case AsyncDrop => s.Release().(ext := s.ext - 1)
  }

  predicate CanPost(s: State, t: Tid, a: PostAct) {
    && t in s.pcs
    && match a
       case BeginPost => s.pcs[t].Idle? && s.g.numClients > 0
       case RetrySlot => s.pcs[t].SlotWait? && !s.pcs[t].asleep
       case WritePost => s.pcs[t].PostWrite?
       case CheckDone => s.pcs[t].DoneWait? && !s.pcs[t].asleep
       case WriteAnnounce => s.pcs[t].Announce?
       case SpuriousWake => s.pcs[t].Asleep()
  }

  function DoPost(s: State, t: Tid, a: PostAct): State
    requires CanPost(s, t, a)
  {
    match a
    case BeginPost =>
      s.(g := s.g.AddRef(), owners := s.owners + [t]).Emit(Called(|s.owners|)).FillOrSleep(t, |s.owners|)
    case RetrySlot => s.FillOrSleep(t, s.pcs[t].call)
    case WritePost => s.(bytes := s.bytes + 1).At(t, DoneWait(s.pcs[t].call, false))
    case CheckDone =>
      if s.g.postFn == Some(t) then s.At(t, DoneWait(s.pcs[t].call, true)) else Return(s, t)
    case WriteAnnounce => s.(bytes := s.bytes + 1).At(t, Idle)
    case SpuriousWake => s.At(t, s.pcs[t].Woken())
  }

  /** The end of post(): the reference it took is dropped. */
  function Return(s: State, t: Tid): State
    requires t in s.pcs && s.pcs[t].DoneWait?
  {
    s.Release().Emit(Returned(s.pcs[t].call)).At(t, if s.Announces() then Announce else Idle)
  }

  predicate CanLoop(s: State, a: LoopAct) {
    match a
    case LoopRead => s.loop.Reading? && !s.loopAnnounce && s.bytes > 0
    case LoopWake => s.loop.HasByte? && !s.loopAnnounce
    case LoopEndPost => s.loop.Running? && !s.loopAnnounce
    case LoopWriteAnnounce => s.loopAnnounce
    case LoopAddCleanup => LoopThreadActive(s) && s.g.numClients > 0 && s.g.asyncFns.Some?
    case LoopClose => s.loop.Stopping?
    case LoopFinish => s.loop.Closed?
  }

  function DoLoop(s: State, a: LoopAct): State
    requires CanLoop(s, a)
  {
    match a
    case LoopRead => s.(bytes := s.bytes - 1, loop := HasByte)
    case LoopWake =>
      (match s.g.WakeUp()
       case Execute(t) => s.Emit(Started(s.CallOf(t))).(loop := Running(t, s.CallOf(t)))
       case Leave => s.(loop := Stopping)
       case ReadAgain => s.(loop := Reading))
    case LoopEndPost =>
      s.Notify().Emit(Ended(s.loop.call)).(g := s.g.FinishPost(), loop := Reading)
    case LoopWriteAnnounce => s.(bytes := s.bytes + 1, loopAnnounce := false)
    case LoopAddCleanup =>
      (if s.async.NotStarted? then s.(async := Ready) else s.Notify())
        .Emit(CleanupAdded(s.nextFn))
        .(g := s.g.AddAsync(s.nextFn), nextFn := s.nextFn + 1)
    case LoopClose => s.(loop := Closed)
    case LoopFinish =>
      s.Notify().Emit(LoopReturned).(g := s.g.End(), loop := Finished)
  }

  predicate CanAsync(s: State, a: AsyncAct) {
    match a
    case AsyncTurn => s.async.Ready?
    case AsyncEnd => s.async.Cleaning?
    case AsyncWriteAnnounce => s.async.AsyncAnnounce?
    case AsyncSpuriousWake => s.async.Sleeping?
  }

  function DoAsync(s: State, a: AsyncAct): State
    requires CanAsync(s, a)
  {
    match a
    case AsyncTurn =>
      if s.g.asyncFns.None? then s.(async := Exited)
      else if s.g.HasAsync() then
        var f := s.g.asyncFns.value[0];
        s.Emit(CleanupStarted(f)).(g := s.g.TakeAsync(), async := Cleaning(f))
      else s.(async := Sleeping)
    case AsyncEnd =>
      s.Release().Emit(CleanupEnded(s.async.fn)).(async := if s.Announces() then AsyncAnnounce else Ready)
    case AsyncWriteAnnounce => s.(bytes := s.bytes + 1, async := Ready)
    case AsyncSpuriousWake => s.(async := Ready)
  }

  predicate Enabled(s: State, step: Step) {
    match step
    case Ref(a) => CanRef(s, a)
    case Thread(t, a) => CanPost(s, t, a)
    case Loop(a) => CanLoop(s, a)
    case Async(a) => CanAsync(s, a)
  }

  function Apply(s: State, step: Step): State
    requires Enabled(s, step)
  {
    match step
    case Ref(a) => DoRef(s, a)
    case Thread(t, a) => DoPost(s, t, a)
    case Loop(a) => DoLoop(s, a)
    case Async(a) => DoAsync(s, a)
  }

  // ----- Runs --------------------------------------------------------------------

  ghost predicate Run(s0: State, steps: seq<Step>, s: State)
    decreases |steps|
  {
    if steps == [] then s == s0
    else Enabled(s0, steps[0]) && Run(Apply(s0, steps[0]), steps[1..], s)
  }

  ghost predicate Reachable(s: State) {
    exists s0, steps :: Init(s0) && Run(s0, steps, s)
  }

  // ----- Counting threads ----------------------------------------------------------

  function InPost(pcs: map<Tid, Pc>): set<Tid> {
    set t | t in pcs && pcs[t].InPost()
  }

  function Writers(pcs: map<Tid, Pc>): set<Tid> {
    set t | t in pcs && pcs[t].Writing()
  }

  lemma CountOne(a: set<Tid>, b: set<Tid>, t: Tid)
    requires a - {t} == b - {t}
    ensures |b| == |a| - B2N(t in a) + B2N(t in b)
  {
    assert a == if t in a then (a - {t}) + {t} else a - {t};
    assert b == if t in b then (b - {t}) + {t} else b - {t};
  }

  lemma CountMove(pcs: map<Tid, Pc>, t: Tid, pc: Pc)
    requires t in pcs
    ensures |InPost(pcs[t := pc])| == |InPost(pcs)| - B2N(pcs[t].InPost()) + B2N(pc.InPost())
    ensures |Writers(pcs[t := pc])| == |Writers(pcs)| - B2N(pcs[t].Writing()) + B2N(pc.Writing())
  {
    CountOne(InPost(pcs), InPost(pcs[t := pc]), t);
    CountOne(Writers(pcs), Writers(pcs[t := pc]), t);
  }

  lemma CountNotify(s: State)
    ensures InPost(s.Notify().pcs) == InPost(s.pcs)
    ensures Writers(s.Notify().pcs) == Writers(s.pcs)
    ensures InPost(s.Release().pcs) == InPost(s.pcs)
    ensures Writers(s.Release().pcs) == Writers(s.pcs)
  {
  }

  // ----- The invariant ----------------------------------------------------------------

  /** Bytes on their way to the loop: in the socket, in its hand, or about to be written. */
  function WakeUpsUnderWay(s: State): nat {
    s.bytes + B2N(s.loop.HasByte?) + |Writers(s.pcs)| + B2N(s.loopAnnounce) + B2N(s.async.AsyncAnnounce?)
  }

  /** Reasons the loop has to wake up: a posted function not started, the end not noticed. */
  function WakeUpsOwed(s: State): nat {
    B2N(s.g.postFn.Some? && !s.loop.Running?) + B2N(s.announced > 0 && !s.loop.Left())
  }

  ghost predicate Counts(s: State) {
    && s.g.numClients == s.ext + |InPost(s.pcs)| + B2N(s.async.Cleaning?)
    && s.announced == B2N(s.g.numClients == 0 && (s.g.asyncFns.Some? ==> s.g.asyncFns.value == []))
    && WakeUpsUnderWay(s) == WakeUpsOwed(s)
    && (s.g.asyncFns.None? <==> s.loop.Finished?)
    && (s.g.waitFd == -1 <==> s.loop.Finished?) && (s.g.postFd == -1 <==> s.loop.Finished?)
    && (s.loop.Left() ==> s.announced > 0)
  }

  ghost predicate Slot(s: State) {
    && (s.g.postFn.Some? ==>
          s.g.postFn.value in s.pcs && (s.pcs[s.g.postFn.value].PostWrite? || s.pcs[s.g.postFn.value].DoneWait?))
    && (forall t | t in s.pcs && s.pcs[t].PostWrite? :: s.g.postFn == Some(t))
    && (s.loop.Running? ==>
          var t := s.loop.owner;
          s.g.postFn == Some(t) && s.pcs[t].DoneWait? && s.pcs[t].call == s.loop.call)
  }

  /** No thread sleeps on m_cv while the predicate it waits for holds. */
  ghost predicate NoLostWakeUp(s: State) {
    && (forall t | t in s.pcs && s.pcs[t].SlotWait? && s.pcs[t].asleep :: s.g.postFn.Some?)
    && (forall t | t in s.pcs && s.pcs[t].DoneWait? && s.pcs[t].asleep :: s.g.postFn == Some(t))
    && (s.async.Sleeping? ==> s.g.asyncFns == Some([]))
  }

  /** The phase the specification gives to the call thread `t` is inside of. */
  function PhaseOf(s: State, t: Tid): Phase
    requires t in s.pcs && s.pcs[t].InPost()
  {
    if s.pcs[t].SlotWait? then Pending
    else if s.g.postFn != Some(t) then Executed
    else if s.loop.Running? then Executing
    else Pending
  }

  ghost predicate Calls(s: State, sp: Spec) {
    && |sp.calls| == |s.owners|
    && (forall t | t in s.pcs && s.pcs[t].InPost() ::
          var c := s.pcs[t].call;
          c < |s.owners| && s.owners[c] == t && sp.calls[c] == PhaseOf(s, t))
    && (forall c: CallId :: c in sp.open <==> c < |sp.calls| && sp.calls[c] != Done)
    && |sp.open| == |InPost(s.pcs)|
    && sp.executing == (if s.loop.Running? then Some(s.loop.call) else None)
  }

  ghost predicate Cleanups(s: State, sp: Spec) {
    && sp.added == s.nextFn && sp.started <= sp.added
    && sp.returned == s.loop.Finished?
    && (s.g.asyncFns.Some? ==>
          && |s.g.asyncFns.value| == sp.added - sp.started
          && forall i | 0 <= i < |s.g.asyncFns.value| :: s.g.asyncFns.value[i] == sp.started + i)
    && (s.g.asyncFns.None? ==> sp.started == sp.added)
    && sp.cleaning == s.async.Cleaning?
    && (s.async.Cleaning? ==> sp.started == s.async.fn + 1)
    && (s.async.NotStarted? ==> sp.added == 0)
    && (s.async.Exited? ==> s.loop.Finished?)
  }

  /** The log is a behaviour of the specification, in the state the threads are in. */
  ghost predicate Refines(s: State) {
    s.spec.Some? && Calls(s, s.spec.value) && Cleanups(s, s.spec.value)
  }

  ghost predicate Safe(s: State) {
    Counts(s) && Slot(s) && NoLostWakeUp(s)
  }

  ghost predicate Inv(s: State) {
    Safe(s) && Refines(s)
  }

  // ----- What the counts say in one state -----------------------------------------------

  lemma MemberCounts(s: State, t: Tid)
    requires t in s.pcs
    ensures s.pcs[t].InPost() ==> |InPost(s.pcs)| >= 1
    ensures s.pcs[t].Writing() ==> |Writers(s.pcs)| >= 1
  {
    if s.pcs[t].InPost() {
      assert {t} <= InPost(s.pcs);
      assert |{t}| <= |InPost(s.pcs)| by { Subset({t}, InPost(s.pcs)); }
    }
    if s.pcs[t].Writing() {
      Subset({t}, Writers(s.pcs));
    }
  }

  lemma Subset(a: set<Tid>, b: set<Tid>)
    requires a <= b
    ensures |a| <= |b|
  {
    assert b == a + (b - a);
  }

  /** While a function is posted nothing can be done, so at most one wake-up is owed. */
  lemma PostedMeansNotDone(s: State)
    requires Counts(s) && Slot(s)
    ensures s.g.postFn.Some? ==> s.g.numClients > 0 && s.announced == 0 && !s.loop.Left()
    ensures WakeUpsOwed(s) <= 1
    ensures s.loop.Left() ==> WakeUpsUnderWay(s) == 0
    ensures s.async.Cleaning? ==> s.announced == 0
  {
    if s.g.postFn.Some? {
      MemberCounts(s, s.g.postFn.value);
    }
  }

  lemma InitInv(s: State)
    requires Init(s)
    ensures Inv(s)
  {
    assert InPost(s.pcs) == {} && Writers(s.pcs) == {};
  }

  // ----- Every step keeps the counts, the slot discipline and every wake-up ------------------

  lemma CountsRef(s: State, a: RefAct)
    requires Safe(s) && CanRef(s, a)
    ensures Counts(DoRef(s, a))
  {
    PostedMeansNotDone(s);
    CountNotify(s);
    if a.Drop? {
      CountMove(s.Release().pcs, a.t, Announce);
    }
  }

  lemma SlotRef(s: State, a: RefAct)
    requires Safe(s) && CanRef(s, a)
    ensures Slot(DoRef(s, a)) && NoLostWakeUp(DoRef(s, a))
  {
  }

  lemma CountsPost(s: State, t: Tid, a: PostAct)
    requires Safe(s) && CanPost(s, t, a) && (a == CheckDone ==> s.g.postFn == Some(t))
    ensures Counts(DoPost(s, t, a))
  {
    PostedMeansNotDone(s);
    MemberCounts(s, t);
    CountMove(s.pcs, t, DoPost(s, t, a).pcs[t]);
  }

  lemma SlotPost(s: State, t: Tid, a: PostAct)
    requires Safe(s) && CanPost(s, t, a) && (a == CheckDone ==> s.g.postFn == Some(t))
    ensures Slot(DoPost(s, t, a)) && NoLostWakeUp(DoPost(s, t, a))
  {
  }

  lemma CountsReturn(s: State, t: Tid)
    requires Safe(s) && CanPost(s, t, CheckDone) && s.g.postFn != Some(t)
    ensures Counts(Return(s, t))
  {
    PostedMeansNotDone(s);
    MemberCounts(s, t);
    CountNotify(s);
    CountMove(s.Release().pcs, t, if s.Announces() then Announce else Idle);
  }

  lemma SlotReturn(s: State, t: Tid)
    requires Safe(s) && CanPost(s, t, CheckDone) && s.g.postFn != Some(t)
    ensures Slot(Return(s, t)) && NoLostWakeUp(Return(s, t))
  {
  }

  lemma CountsLoop(s: State, a: LoopAct)
    requires Safe(s) && CanLoop(s, a)
    ensures Counts(DoLoop(s, a))
  {
    PostedMeansNotDone(s);
    CountNotify(s);
  }

  lemma SlotLoop(s: State, a: LoopAct)
    requires Safe(s) && CanLoop(s, a)
    ensures Slot(DoLoop(s, a))
  {
    PostedMeansNotDone(s);
    if a.LoopWake? && s.g.postFn.Some? {
      MemberCounts(s, s.g.postFn.value);
    }
  }

  lemma WakeUpLoop(s: State, a: LoopAct)
    requires Safe(s) && CanLoop(s, a)
    ensures NoLostWakeUp(DoLoop(s, a))
  {
    PostedMeansNotDone(s);
  }

  lemma CountsAsync(s: State, a: AsyncAct)
    requires Safe(s) && CanAsync(s, a)
    ensures Counts(DoAsync(s, a))
  {
    PostedMeansNotDone(s);
    CountNotify(s);
  }

  lemma SlotAsync(s: State, a: AsyncAct)
    requires Safe(s) && CanAsync(s, a)
    ensures Slot(DoAsync(s, a))
  {
  }

  lemma WakeUpAsync(s: State, a: AsyncAct)
    requires Safe(s) && CanAsync(s, a)
    ensures NoLostWakeUp(DoAsync(s, a))
  {
  }

  lemma SafeStep(s: State, step: Step)
    requires Safe(s) && Enabled(s, step)
    ensures Safe(Apply(s, step))
  {
    match step
    case Ref(a) => CountsRef(s, a); SlotRef(s, a);
    case Thread(t, a) =>
      if a == CheckDone && s.g.postFn != Some(t) {
        CountsReturn(s, t); SlotReturn(s, t);
      } else {
        CountsPost(s, t, a); SlotPost(s, t, a);
      }
    case Loop(a) => CountsLoop(s, a); SlotLoop(s, a); WakeUpLoop(s, a);
    case Async(a) => CountsAsync(s, a); SlotAsync(s, a); WakeUpAsync(s, a);
  }

  // ----- Every step is a step, or no step, of the specification --------------------------------

  /** Both states give every thread the same call in the same phase. */
  ghost predicate SameCalls(s: State, s': State) {
    && s'.owners == s.owners && s'.pcs.Keys == s.pcs.Keys
    && (forall t | t in s.pcs ::
          && s'.pcs[t].InPost() == s.pcs[t].InPost()
          && (s.pcs[t].InPost() ==> s'.pcs[t].call == s.pcs[t].call && PhaseOf(s', t) == PhaseOf(s, t)))
    && s'.loop.Running? == s.loop.Running?
    && (s.loop.Running? ==> s'.loop == s.loop)
  }

  lemma SameCallsKeepCalls(s: State, s': State, sp: Spec, sp': Spec)
    requires Calls(s, sp) && SameCalls(s, s')
    requires sp'.calls == sp.calls && sp'.executing == sp.executing && sp'.open == sp.open
    ensures Calls(s', sp')
  {
    assert InPost(s'.pcs) == InPost(s.pcs);
  }

  lemma SameRef(s: State, a: RefAct)
    requires CanRef(s, a)
    ensures SameCalls(s, DoRef(s, a))
  {
  }

  lemma RefinesRef(s: State, a: RefAct)
    requires Refines(s) && CanRef(s, a)
    ensures Refines(DoRef(s, a))
  {
    SameRef(s, a);
    SameCallsKeepCalls(s, DoRef(s, a), s.spec.value, s.spec.value);
  }

  /** Everybody but `t` is inside the same call, in the same phase. */
  ghost predicate OthersSame(s: State, s': State, t: Tid) {
    && t in s.pcs && s'.pcs.Keys == s.pcs.Keys
    && (forall u | u in s.pcs && u != t ::
          && s'.pcs[u].InPost() == s.pcs[u].InPost()
          && (s.pcs[u].InPost() ==> s'.pcs[u].call == s.pcs[u].call && PhaseOf(s', u) == PhaseOf(s, u)))
    && s'.loop == s.loop
    && |InPost(s'.pcs)| == |InPost(s.pcs)| - B2N(s.pcs[t].InPost()) + B2N(s'.pcs[t].InPost())
  }

  lemma EnterCall(s: State, s': State, t: Tid, sp: Spec, sp': Spec)
    requires Calls(s, sp) && OthersSame(s, s', t) && Next(sp, Called(|s.owners|)) == Some(sp')
    requires s'.owners == s.owners + [t] && s'.pcs[t].InPost() && s'.pcs[t].call == |s.owners|
    requires !s.pcs[t].InPost() && PhaseOf(s', t) == Pending
    ensures Calls(s', sp')
  {
    assert |sp'.open| == |sp.open| + 1;
  }

  lemma LeaveCall(s: State, s': State, t: Tid, sp: Spec, sp': Spec)
    requires Calls(s, sp) && OthersSame(s, s', t)
    requires s'.owners == s.owners && s.pcs[t].InPost() && !s'.pcs[t].InPost()
    requires Next(sp, Returned(s.pcs[t].call)) == Some(sp')
    ensures Calls(s', sp')
  {
    assert |sp'.open| == |sp.open| - 1;
  }

  lemma OthersSameBeginPost(s: State, t: Tid)
    requires Slot(s) && CanPost(s, t, BeginPost)
    ensures OthersSame(s, DoPost(s, t, BeginPost), t)
  {
    CountMove(s.pcs, t, DoPost(s, t, BeginPost).pcs[t]);
  }

  lemma OthersSameReturn(s: State, t: Tid)
    requires Slot(s) && CanPost(s, t, CheckDone) && s.g.postFn != Some(t)
    ensures OthersSame(s, Return(s, t), t)
  {
    CountNotify(s);
    CountMove(s.Release().pcs, t, if s.Announces() then Announce else Idle);
  }

  lemma CallsBeginPost(s: State, t: Tid)
    requires Slot(s) && Refines(s) && CanPost(s, t, BeginPost) && !s.loop.Finished?
    ensures Refines(DoPost(s, t, BeginPost))
  {
    var s' := DoPost(s, t, BeginPost);
    OthersSameBeginPost(s, t);
    EnterCall(s, s', t, s.spec.value, s'.spec.value);
  }

  lemma CallsReturn(s: State, t: Tid)
    requires Slot(s) && Refines(s) && CanPost(s, t, CheckDone) && s.g.postFn != Some(t) && !s.loop.Finished?
    ensures Refines(Return(s, t))
  {
    var s' := Return(s, t);
    assert PhaseOf(s, t) == Executed;
    OthersSameReturn(s, t);
    LeaveCall(s, s', t, s.spec.value, s'.spec.value);
    SameCleanups(s, s', s.spec.value, s'.spec.value);
  }

  /** Nothing that concerns cleanup functions has changed, except that the asynchronous thread may wake up. */
  lemma SameCleanups(s: State, s': State, sp: Spec, sp': Spec)
    requires Cleanups(s, sp)
    requires s'.g.asyncFns == s.g.asyncFns && s'.nextFn == s.nextFn && s'.loop == s.loop
    requires s'.async == s.async || (s.async.Sleeping? && s'.async.Ready?)
    requires sp' == sp.(calls := sp'.calls, open := sp'.open, executing := sp'.executing)
    ensures Cleanups(s', sp')
  {
  }

  lemma SamePost(s: State, t: Tid, a: PostAct)
    requires Slot(s) && CanPost(s, t, a) && a != BeginPost && (a == CheckDone ==> s.g.postFn == Some(t))
    ensures SameCalls(s, DoPost(s, t, a))
  {
  }

  lemma RefinesPost(s: State, t: Tid, a: PostAct)
    requires Inv(s) && CanPost(s, t, a)
    ensures Refines(DoPost(s, t, a))
  {
    PostedMeansNotDone(s);
    MemberCounts(s, t);
    if a == BeginPost {
      CallsBeginPost(s, t);
    } else if a == CheckDone && s.g.postFn != Some(t) {
      CallsReturn(s, t);
    } else {
      SamePost(s, t, a);
      SameCallsKeepCalls(s, DoPost(s, t, a), s.spec.value, s.spec.value);
    }
  }

  /** Only the call of thread `t` changes its phase, and nobody enters or leaves post(). */
  lemma MoveCall(s: State, s': State, t: Tid, phase: Phase, sp: Spec, sp': Spec)
    requires Calls(s, sp) && phase != Done
    requires t in s.pcs && s.pcs[t].InPost() && sp.calls[s.pcs[t].call] != Done
    requires s'.owners == s.owners && s'.pcs.Keys == s.pcs.Keys
    requires forall u | u in s.pcs ::
               && s'.pcs[u].InPost() == s.pcs[u].InPost()
               && (s.pcs[u].InPost() ==> s'.pcs[u].call == s.pcs[u].call)
               && (s.pcs[u].InPost() && u != t ==> PhaseOf(s', u) == PhaseOf(s, u))
    requires PhaseOf(s', t) == phase
    requires sp'.calls == sp.calls[s.pcs[t].call := phase] && sp'.open == sp.open
    requires sp'.executing == if s'.loop.Running? then Some(s'.loop.call) else None
    ensures Calls(s', sp')
  {
    assert InPost(s'.pcs) == InPost(s.pcs);
  }

  lemma RefinesStart(s: State)
    requires Inv(s) && CanLoop(s, LoopWake) && s.g.postFn.Some?
    ensures Refines(DoLoop(s, LoopWake))
  {
    var s' := DoLoop(s, LoopWake);
    var t := s.g.postFn.value;
    PostedMeansNotDone(s);
    assert PhaseOf(s, t) == Pending;
    MoveCall(s, s', t, Executing, s.spec.value, s'.spec.value);
  }

  lemma RefinesEndPost(s: State)
    requires Inv(s) && CanLoop(s, LoopEndPost)
    ensures Refines(DoLoop(s, LoopEndPost))
  {
    var s' := DoLoop(s, LoopEndPost);
    var t := s.loop.owner;
    PostedMeansNotDone(s);
    assert PhaseOf(s, t) == Executing;
    MoveCall(s, s', t, Executed, s.spec.value, s'.spec.value);
  }

  lemma SameLoop(s: State, a: LoopAct)
    requires Slot(s) && CanLoop(s, a) && a != LoopEndPost && (a == LoopWake ==> s.g.postFn.None?)
    ensures SameCalls(s, DoLoop(s, a))
  {
  }

  /** The specification follows a step that concerns at most cleanup functions and the return of the loop. */
  ghost predicate CleanupsFollow(s: State, s': State) {
    && s.spec.Some? && s'.spec.Some? && Cleanups(s', s'.spec.value)
    && s'.spec.value.calls == s.spec.value.calls && s'.spec.value.executing == s.spec.value.executing
    && s'.spec.value.open == s.spec.value.open
  }

  lemma CleanupsAdd(s: State)
    requires Safe(s) && Refines(s) && CanLoop(s, LoopAddCleanup)
    ensures CleanupsFollow(s, DoLoop(s, LoopAddCleanup))
  {
    PostedMeansNotDone(s);
  }

  lemma CleanupsFinish(s: State)
    requires Safe(s) && Refines(s) && CanLoop(s, LoopFinish)
    ensures CleanupsFollow(s, DoLoop(s, LoopFinish))
  {
    PostedMeansNotDone(s);
  }

  lemma CleanupsLoop(s: State, a: LoopAct)
    requires Safe(s) && Refines(s) && CanLoop(s, a) && a != LoopEndPost && (a == LoopWake ==> s.g.postFn.None?)
    ensures CleanupsFollow(s, DoLoop(s, a))
  {
    if a == LoopAddCleanup {
      CleanupsAdd(s);
    } else if a == LoopFinish {
      CleanupsFinish(s);
    }
  }

  lemma RefinesLoop(s: State, a: LoopAct)
    requires Inv(s) && CanLoop(s, a)
    ensures Refines(DoLoop(s, a))
  {
    if a == LoopWake && s.g.postFn.Some? {
      RefinesStart(s);
    } else if a == LoopEndPost {
      RefinesEndPost(s);
    } else {
      SameLoop(s, a);
      CleanupsLoop(s, a);
      SameCallsKeepCalls(s, DoLoop(s, a), s.spec.value, DoLoop(s, a).spec.value);
    }
  }

  lemma SameAsync(s: State, a: AsyncAct)
    requires Slot(s) && CanAsync(s, a)
    ensures SameCalls(s, DoAsync(s, a))
  {
  }

  /** What is needed to follow the asynchronous thread. */
  ghost predicate AsyncFollowed(s: State) {
    s.spec.Some? && Cleanups(s, s.spec.value) && (s.g.asyncFns.None? <==> s.loop.Finished?)
  }

  lemma CleanupsTake(s: State)
    requires AsyncFollowed(s) && CanAsync(s, AsyncTurn) && s.g.HasAsync()
    ensures CleanupsFollow(s, DoAsync(s, AsyncTurn))
  {
    var rest := s.g.asyncFns.value[1..];
    assert forall i | 0 <= i < |rest| :: rest[i] == s.g.asyncFns.value[i + 1];
  }

  lemma CleanupsRest(s: State)
    requires AsyncFollowed(s) && CanAsync(s, AsyncTurn) && !s.g.HasAsync()
    ensures CleanupsFollow(s, DoAsync(s, AsyncTurn))
  {
  }

  lemma CleanupsEnd(s: State)
    requires AsyncFollowed(s) && CanAsync(s, AsyncEnd) && !s.loop.Finished?
    ensures CleanupsFollow(s, DoAsync(s, AsyncEnd))
  {
  }

  lemma CleanupsAsync(s: State, a: AsyncAct)
    requires Safe(s) && Refines(s) && CanAsync(s, a)
    ensures CleanupsFollow(s, DoAsync(s, a))
  {
    PostedMeansNotDone(s);
    if a == AsyncTurn && s.g.HasAsync() {
      CleanupsTake(s);
    } else if a == AsyncTurn {
      CleanupsRest(s);
    } else if a == AsyncEnd {
      CleanupsEnd(s);
    }
  }

  lemma RefinesAsync(s: State, a: AsyncAct)
    requires Safe(s) && Refines(s) && CanAsync(s, a)
    ensures Refines(DoAsync(s, a))
  {
    var s' := DoAsync(s, a);
    SameAsync(s, a);
    CleanupsAsync(s, a);
    SameCallsKeepCalls(s, s', s.spec.value, s'.spec.value);
  }

  lemma InvStep(s: State, step: Step)
    requires Inv(s) && Enabled(s, step)
    ensures Inv(Apply(s, step))
  {
    SafeStep(s, step);
    match step
    case Ref(a) => RefinesRef(s, a);
    case Thread(t, a) => RefinesPost(s, t, a);
    case Loop(a) => RefinesLoop(s, a);
    case Async(a) => RefinesAsync(s, a);
  }

  // ----- All runs -----------------------------------------------------------------------------

  lemma {:induction false} RunInv(s0: State, steps: seq<Step>, s: State)
    requires Inv(s0) && After(s0.log) == s0.spec && Run(s0, steps, s)
    ensures Inv(s) && After(s.log) == s.spec
    decreases |steps|
  {
    if steps != [] {
      InvStep(s0, steps[0]);
      SpecFollowsLog(s0, steps[0]);
      RunInv(Apply(s0, steps[0]), steps[1..], s);
    }
  }

  /** A step adds at most one event to the log. */
  lemma EmitsAtMostOne(s: State, step: Step) returns (e: Option<Event>)
    requires Enabled(s, step)
    ensures e.None? ==> Apply(s, step).log == s.log && Apply(s, step).spec == s.spec
    ensures e.Some? ==> Apply(s, step).log == s.log + [e.value] && Apply(s, step).spec == s.Emit(e.value).spec
  {
    match step
    case Ref(a) => e := None;
    case Thread(t, a) =>
      e := if a == BeginPost then Some(Called(|s.owners|))
           else if a == CheckDone && s.g.postFn != Some(t) then Some(Returned(s.pcs[t].call)) else None;
    case Loop(a) =>
      e := if a == LoopWake && s.g.postFn.Some? then Some(Started(s.CallOf(s.g.postFn.value)))
           else if a == LoopEndPost then Some(Ended(s.loop.call))
           else if a == LoopAddCleanup then Some(CleanupAdded(s.nextFn))
           else if a == LoopFinish then Some(LoopReturned) else None;
    case Async(a) =>
      e := if a == AsyncTurn && s.g.asyncFns.Some? && s.g.asyncFns.value != []
           then Some(CleanupStarted(s.g.asyncFns.value[0]))
           else if a == AsyncEnd then Some(CleanupEnded(s.async.fn)) else None;
  }

  lemma SpecFollowsLog(s: State, step: Step)
    requires Enabled(s, step) && After(s.log) == s.spec
    ensures After(Apply(s, step).log) == Apply(s, step).spec
  {
    var e := EmitsAtMostOne(s, step);
    if e.Some? {
      AfterExtend(s.log, e.value);
    }
  }

  lemma ReachableInv(s: State)
    requires Reachable(s)
    ensures Inv(s) && After(s.log) == s.spec
  {
    var s0, steps :| Init(s0) && Run(s0, steps, s);
    InitInv(s0);
    RunInv(s0, steps, s);
  }

  /**
  post() and addAsyncCleanup() refine their atomic specification: whatever an
  observer sees of a run is a behaviour of LoopSpec.
  */
  lemma EveryRunIsAtomic(s: State)
    requires Reachable(s)
    ensures Allowed(s.log)
  {
    ReachableInv(s);
  }

  /** Wake-up bytes are conserved, so the loop never sleeps on work nor wakes for nothing. */
  lemma WakeUpsConserved(s: State)
    requires Reachable(s)
    ensures WakeUpsUnderWay(s) == WakeUpsOwed(s) <= 1
    ensures s.loop.HasByte? ==> s.g.postFn.Some? || s.g.IsDone()
    ensures s.loop.Reading? && s.bytes == 0 && Writers(s.pcs) == {} && !s.loopAnnounce && !s.async.AsyncAnnounce?
            ==> s.g.postFn.None? && !s.g.IsDone()
  {
    ReachableInv(s);
    PostedMeansNotDone(s);
  }

  predicate Writes(step: Step) {
    || (step.Thread? && (step.act.WritePost? || step.act.WriteAnnounce?))
    || step == Loop(LoopWriteAnnounce) || step == Async(AsyncWriteAnnounce)
  }

  /** Nobody writes to the socket once `loop()` has closed it. */
  lemma NoWriteAfterClose(s: State, step: Step)
    requires Reachable(s) && Enabled(s, step) && Writes(step)
    ensures s.FdOpen() && !s.loop.Left()
  {
    ReachableInv(s);
    PostedMeansNotDone(s);
    if step.Thread? {
      MemberCounts(s, step.t);
    }
  }

  /** What `~EventLoop` asserts, once `loop()` returned and the asynchronous thread was joined. */
  lemma DestructorAssertions(s: State)
    requires Reachable(s) && s.loop.Finished?
    ensures s.g == Guarded(None, None, 0, -1, -1) && s.bytes == 0 && s.ext == 0
    ensures forall t | t in s.pcs :: s.pcs[t].Idle?
    ensures s.async.NotStarted? || s.async.Ready? || s.async.Exited?
  {
    ReachableInv(s);
    PostedMeansNotDone(s);
    forall t | t in s.pcs ensures s.pcs[t].Idle? {
      MemberCounts(s, t);
    }
  }

  predicate IsReset(step: Step) {
    || (step.Ref? && (step.ref.Drop? || step.ref.LoopDrop?))
    || (step.Thread? && step.act.CheckDone?)
    || step == Async(AsyncEnd)
  }

  /** done(), also once `loop()` has given the queue up. */
  predicate NothingLeft(s: State) {
    s.g.numClients == 0 && (s.g.asyncFns.Some? ==> s.g.asyncFns.value == [])
  }

  /** Once nothing is left nothing comes back. */
  lemma StaysDone(s: State, step: Step)
    requires Safe(s) && Enabled(s, step) && Safe(Apply(s, step)) && NothingLeft(s)
    ensures NothingLeft(Apply(s, step)) && Apply(s, step).announced == s.announced == 1
  {
    PostedMeansNotDone(s);
    if step.Thread? {
      MemberCounts(s, step.t);
    }
  }

  lemma BecomesDone(s: State, step: Step)
    requires Safe(s) && Enabled(s, step) && Safe(Apply(s, step)) && !NothingLeft(s) && NothingLeft(Apply(s, step))
    ensures IsReset(step) && Apply(s, step).announced == s.announced + 1 && WakeUpsUnderWay(Apply(s, step)) == 1
  {
    PostedMeansNotDone(s);
    PostedMeansNotDone(Apply(s, step));
    if step.Thread? {
      MemberCounts(s, step.t);
    }
  }

  /** done() becomes true only inside reset, stays true, and is announced exactly then. */
  lemma DoneOnceAndForAll(s: State, step: Step)
    requires Reachable(s) && Enabled(s, step)
    ensures var s' := Apply(s, step);
            && (NothingLeft(s) ==> NothingLeft(s') && s'.announced == s.announced == 1)
            && (!NothingLeft(s) && NothingLeft(s') ==>
                  IsReset(step) && s'.announced == s.announced + 1 && WakeUpsUnderWay(s') == 1)
  {
    ReachableInv(s);
    InvStep(s, step);
    if NothingLeft(s) {
      StaysDone(s, step);
    } else if NothingLeft(Apply(s, step)) {
      BecomesDone(s, step);
    }
  }

  lemma NobodySleepsOnATruePredicate(s: State)
    requires Reachable(s)
    ensures NoLostWakeUp(s)
  {
    ReachableInv(s);
  }

  // ----- Single steps -----------------------------------------------------------------------

  /** Whoever drops the last reference wakes up everybody; nobody else does. */
  lemma LastReferenceNotifies(s: State)
    ensures var t := s.Release();
            && t.g.numClients == s.g.numClients - 1
            && (t.g.numClients == 0 && t.g.asyncFns == Some([]) ==>
                  !t.async.Sleeping? && forall u | u in t.pcs :: !t.pcs[u].Asleep())
            && (t.g.numClients != 0 || t.g.asyncFns != Some([]) ==> t == s.(g := t.g))
  {
  }

  /** What a thread inside post() does next, from the state it is in. */
  lemma PostGoesOn(s: State, t: Tid, a: PostAct)
    requires CanPost(s, t, a) && s.pcs[t].InPost() && a != SpuriousWake
    ensures var c, s' := s.pcs[t].call, DoPost(s, t, a);
            match a
            case BeginPost => false
            case RetrySlot =>
              if s.g.postFn == None then s'.pcs[t] == PostWrite(c) && s'.g.postFn == Some(t)
              else s'.pcs[t] == SlotWait(c, true) && s'.g == s.g
            case WritePost => s'.pcs[t] == DoneWait(c, false) && s'.bytes == s.bytes + 1
            case CheckDone =>
              if s.g.postFn == Some(t) then s'.pcs[t] == DoneWait(c, true) && s'.g == s.g
              else !s'.pcs[t].InPost() && s'.log == s.log + [Returned(c)]
            case WriteAnnounce => false
            case SpuriousWake => false
  {
  }

  // ----- Progress ---------------------------------------------------------------------------

  /** Steps the runtime takes by itself, without a user's decision and without spurious wake-ups. */
  predicate Internal(step: Step) {
    match step
    case Ref(_) => false
    case Thread(_, a) => a != BeginPost && a != SpuriousWake
    case Loop(a) => a != LoopAddCleanup
    case Async(a) => a != AsyncSpuriousWake
  }

  ghost predicate CanProgress(s: State) {
    exists step :: Internal(step) && Enabled(s, step)
  }

  lemma WakeUpProgress(s: State)
    requires Safe(s) && WakeUpsOwed(s) > 0
    ensures CanProgress(s)
  {
    if s.loopAnnounce {
      assert Enabled(s, Loop(LoopWriteAnnounce));
    } else if s.loop.HasByte? {
      assert Enabled(s, Loop(LoopWake));
    } else if s.async.AsyncAnnounce? {
      assert Enabled(s, Async(AsyncWriteAnnounce));
    } else if s.loop.Running? {
      assert Enabled(s, Loop(LoopEndPost));
    } else if s.bytes > 0 {
      PostedMeansNotDone(s);
      assert Enabled(s, Loop(LoopRead));
    } else {
      var t :| t in Writers(s.pcs);
      assert Enabled(s, Thread(t, if s.pcs[t].PostWrite? then WritePost else WriteAnnounce));
    }
  }

  /** No deadlock: a thread inside post() never waits for something that cannot happen. */
  lemma PostNeverStuck(s: State, t: Tid)
    requires Safe(s) && t in s.pcs && s.pcs[t].InPost()
    ensures CanProgress(s)
  {
    if s.pcs[t].PostWrite? {
      assert Enabled(s, Thread(t, WritePost));
    } else if !s.pcs[t].asleep {
      assert Enabled(s, Thread(t, if s.pcs[t].SlotWait? then RetrySlot else CheckDone));
    } else if s.loop.Running? {
      assert Enabled(s, if s.loopAnnounce then Loop(LoopWriteAnnounce) else Loop(LoopEndPost));
    } else {
      WakeUpProgress(s);
    }
  }

  /** Once nothing is left, the loop leaves and closes; nobody has to do anything else. */
  lemma ShutdownNeverStuck(s: State)
    requires Safe(s) && NothingLeft(s) && !s.loop.Finished?
    ensures CanProgress(s)
  {
    if s.loop.Stopping? {
      assert Enabled(s, Loop(LoopClose));
    } else if s.loop.Closed? {
      assert Enabled(s, Loop(LoopFinish));
    } else {
      WakeUpProgress(s);
    }
  }
}
