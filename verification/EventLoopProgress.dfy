/**
Every post() completes. However the threads are scheduled, the runtime's own
steps come to an end, and then no thread is left inside post(); if no reference
and no cleanup function is left either, `loop()` has returned.
*/
module EventLoopProgress {
  import opened Base
  import opened EventLoopObject
  import opened LoopSpec
  import opened EventLoopProtocol

  function SlotWaiters(pcs: map<Tid, Pc>): set<Tid> {
    set t | t in pcs && pcs[t].SlotWait?
  }

  function Awake(pcs: map<Tid, Pc>): set<Tid> {
    set t | t in pcs && (pcs[t].SlotWait? || pcs[t].DoneWait?) && !pcs[t].asleep
  }

  /** A measure of the work left, most significant part first. */
  datatype Rank = Rank(
    unexecuted: nat,
    inPost: nat,
    cleanups: nat,
    slotWaiters: nat,
    stage: nat,
    wakeUps: nat,
    awake: nat)
  {
    predicate Below(r: Rank) {
      || unexecuted < r.unexecuted
      || (unexecuted == r.unexecuted
          && (|| inPost < r.inPost
              || (inPost == r.inPost
                  && (|| cleanups < r.cleanups
                      || (cleanups == r.cleanups
                          && (|| slotWaiters < r.slotWaiters
                              || (slotWaiters == r.slotWaiters
                                  && (|| stage < r.stage
                                      || (stage == r.stage
                                          && (|| wakeUps < r.wakeUps
                                              || (wakeUps == r.wakeUps && awake < r.awake)))))))))))
    }
  }

  function Stage(l: LoopPc): nat {
    match l
    case Finished => 0
    case Closed => 1
    case Stopping => 2
    case _ => 3
  }

  function RankOf(s: State): Rank {
    Rank(
      |SlotWaiters(s.pcs)| + B2N(s.g.postFn.Some?),
      |InPost(s.pcs)|,
      2 * (if s.g.asyncFns.Some? then |s.g.asyncFns.value| else 0) + B2N(s.async.Cleaning?),
      |SlotWaiters(s.pcs)|,
      Stage(s.loop),
      3 * (|Writers(s.pcs)| + B2N(s.loopAnnounce) + B2N(s.async.AsyncAnnounce?)) + 2 * s.bytes + B2N(s.loop.HasByte?),
      |Awake(s.pcs)| + B2N(s.async.Ready?))
  }

  lemma WaitMove(pcs: map<Tid, Pc>, t: Tid, pc: Pc)
    requires t in pcs
    ensures |SlotWaiters(pcs[t := pc])| == |SlotWaiters(pcs)| - B2N(pcs[t].SlotWait?) + B2N(pc.SlotWait?)
    ensures |Awake(pcs[t := pc])| == |Awake(pcs)| - B2N(t in Awake(pcs)) + B2N(t in Awake(pcs[t := pc]))
  {
    CountOne(SlotWaiters(pcs), SlotWaiters(pcs[t := pc]), t);
    CountOne(Awake(pcs), Awake(pcs[t := pc]), t);
  }

  lemma WaitNotify(s: State)
    ensures SlotWaiters(s.Notify().pcs) == SlotWaiters(s.pcs)
    ensures SlotWaiters(s.Release().pcs) == SlotWaiters(s.pcs)
  {
  }

  lemma RankReturn(s: State, t: Tid)
    requires CanPost(s, t, CheckDone) && s.g.postFn != Some(t)
    ensures RankOf(Return(s, t)).Below(RankOf(s))
  {
    CountNotify(s);
    WaitNotify(s);
    CountMove(s.Release().pcs, t, Return(s, t).pcs[t]);
    WaitMove(s.Release().pcs, t, Return(s, t).pcs[t]);
  }

  lemma RankPost(s: State, t: Tid, a: PostAct)
    requires CanPost(s, t, a) && Internal(Thread(t, a))
    ensures RankOf(DoPost(s, t, a)).Below(RankOf(s))
  {
    if a == CheckDone && s.g.postFn != Some(t) {
      RankReturn(s, t);
    } else {
      CountMove(s.pcs, t, DoPost(s, t, a).pcs[t]);
      WaitMove(s.pcs, t, DoPost(s, t, a).pcs[t]);
    }
  }

  lemma RankLoop(s: State, a: LoopAct)
    requires Safe(s) && CanLoop(s, a) && Internal(Loop(a))
    ensures RankOf(DoLoop(s, a)).Below(RankOf(s))
  {
    PostedMeansNotDone(s);
    CountNotify(s);
    WaitNotify(s);
  }

  lemma RankTurn(s: State)
    requires Safe(s) && CanAsync(s, AsyncTurn)
    ensures RankOf(DoAsync(s, AsyncTurn)).Below(RankOf(s))
  {
  }

  lemma RankEnd(s: State)
    requires Safe(s) && CanAsync(s, AsyncEnd)
    ensures RankOf(DoAsync(s, AsyncEnd)).Below(RankOf(s))
  {
    CountNotify(s);
    WaitNotify(s);
  }

  lemma RankAsync(s: State, a: AsyncAct)
    requires Safe(s) && CanAsync(s, a) && Internal(Async(a))
    ensures RankOf(DoAsync(s, a)).Below(RankOf(s))
  {
    if a == AsyncTurn {
      RankTurn(s);
    } else if a == AsyncEnd {
      RankEnd(s);
    }
  }

  lemma InternalStepsUseUpWork(s: State, step: Step)
    requires Safe(s) && Internal(step) && Enabled(s, step)
    ensures RankOf(Apply(s, step)).Below(RankOf(s))
  {
    match step
    case Thread(t, a) => RankPost(s, t, a);
    case Loop(a) => RankLoop(s, a);
    case Async(a) => RankAsync(s, a);
  }

  /** A scheduler picks an internal step wherever there is one. */
  ghost predicate Schedules(sched: State -> Step) {
    forall s: State :: CanProgress(s) ==> Internal(sched(s)) && Enabled(s, sched(s))
  }

  ghost function Play(s: State, sched: State -> Step, n: nat): State
    requires Schedules(sched)
    decreases n
  {
    if n == 0 || !CanProgress(s) then s else Play(Apply(s, sched(s)), sched, n - 1)
  }

  /** The state the protocol comes to rest in: nobody is inside post(), and done means returned. */
  ghost predicate AtRest(s: State) {
    && !CanProgress(s)
    && InPost(s.pcs) == {}
    && s.g.postFn.None?
    && (NothingLeft(s) ==> s.loop.Finished? && (s.async.NotStarted? || s.async.Exited?))
  }

  lemma StuckMeansAtRest(s: State)
    requires Safe(s) && !CanProgress(s)
    ensures AtRest(s)
  {
    if t :| t in InPost(s.pcs) {
      PostNeverStuck(s, t);
    }
    if s.g.postFn.Some? {
      PostNeverStuck(s, s.g.postFn.value);
    }
    if NothingLeft(s) {
      if !s.loop.Finished? {
        ShutdownNeverStuck(s);
      }
      PostedMeansNotDone(s);
      if s.async.Ready? {
        assert Enabled(s, Async(AsyncTurn));
      }
    }
  }

  /** One step of the scheduler's. */
  lemma PlayStep(s: State, sched: State -> Step) returns (t: State)
    requires Inv(s) && Schedules(sched) && CanProgress(s)
    ensures Inv(t) && RankOf(t).Below(RankOf(s))
    ensures forall n: nat :: Play(s, sched, n + 1) == Play(t, sched, n)
  {
    var step := sched(s);
    InternalStepsUseUpWork(s, step);
    InvStep(s, step);
    t := Apply(s, step);
  }

  lemma {:induction false} PlayInv(s: State, sched: State -> Step, n: nat)
    requires Inv(s) && Schedules(sched)
    ensures Inv(Play(s, sched, n))
    decreases n
  {
    if n > 0 && CanProgress(s) {
      var t := PlayStep(s, sched);
      PlayInv(t, sched, n - 1);
      assert Play(s, sched, n) == Play(t, sched, n - 1);
    }
  }

  lemma {:induction false} RestFrom(s: State, sched: State -> Step, r: Rank) returns (n: nat)
    requires Inv(s) && Schedules(sched) && r == RankOf(s)
    ensures !CanProgress(Play(s, sched, n))
    decreases r.unexecuted, r.inPost, r.cleanups, r.slotWaiters, r.stage, r.wakeUps, r.awake
  {
    n := 0;
    if CanProgress(s) {
      var t := PlayStep(s, sched);
      var m := RestFrom(t, sched, RankOf(t));
      n := m + 1;
    }
  }

  /**
  Once users start nothing new the protocol comes to rest, whatever the
  scheduler: every post() in progress returns.
  */
  lemma EveryPostCompletes(s: State, sched: State -> Step) returns (n: nat)
    requires Inv(s) && Schedules(sched)
    ensures Inv(Play(s, sched, n)) && AtRest(Play(s, sched, n))
  {
    n := RestFrom(s, sched, RankOf(s));
    PlayInv(s, sched, n);
    StuckMeansAtRest(Play(s, sched, n));
  }
}
