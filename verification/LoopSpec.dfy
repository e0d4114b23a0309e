/**
What an observer of one event loop may see: calls of `EventLoop::post` made from
other threads, the functions given to `addAsyncCleanup`, and the return of
`loop()`. The automaton is the atomic reading of the documentation: a posted
function runs once, alone, between the call and the return of `post`; cleanup
functions run once, in the order they were added; `loop()` returns only when
nothing is left.
*/
module LoopSpec {
  import opened Base

  type CallId = nat
  type CleanupId = nat

  datatype Event =
    | Called(call: CallId)
    | Started(call: CallId)
    | Ended(call: CallId)
    | Returned(call: CallId)
    | CleanupAdded(fn: CleanupId)
    | CleanupStarted(fn: CleanupId)
    | CleanupEnded(fn: CleanupId)
    | LoopReturned

  datatype Phase = Pending | Executing | Executed | Done

  datatype Spec = Spec(
    calls: seq<Phase>,           // one phase per call, in the order of the calls
    open: set<CallId>,           // calls of post() that have not returned
    executing: Option<CallId>,   // the call whose function is on the loop thread
    added: nat, started: nat,    // cleanup functions added and started so far
    cleaning: bool,              // one of the started cleanup functions is still running
    returned: bool)

  const INITIAL := Spec([], {}, None, 0, 0, false, false)

  function Next(sp: Spec, e: Event): Option<Spec> {
    if sp.returned then None else
    match e
    case Called(c) =>
      if c == |sp.calls| then Some(sp.(calls := sp.calls + [Pending], open := sp.open + {c})) else None
    case Started(c) =>
      if c < |sp.calls| && sp.calls[c] == Pending && sp.executing.None?
      then Some(sp.(calls := sp.calls[c := Executing], executing := Some(c))) else None
    case Ended(c) =>
      if c < |sp.calls| && sp.calls[c] == Executing && sp.executing == Some(c)
      then Some(sp.(calls := sp.calls[c := Executed], executing := None)) else None
    case Returned(c) =>
      if c < |sp.calls| && sp.calls[c] == Executed
      then Some(sp.(calls := sp.calls[c := Done], open := sp.open - {c})) else None
    case CleanupAdded(f) =>
      if f == sp.added then Some(sp.(added := f + 1)) else None
    case CleanupStarted(f) =>
      if f == sp.started < sp.added && !sp.cleaning
      then Some(sp.(started := f + 1, cleaning := true)) else None
    case CleanupEnded(f) =>
      if sp.cleaning && f + 1 == sp.started then Some(sp.(cleaning := false)) else None
    case LoopReturned =>
      if sp.open == {} && sp.started == sp.added && !sp.cleaning
      then Some(sp.(returned := true)) else None
  }

  /** The state after a log, or None when the log is not a behaviour of the automaton. */
  function After(log: seq<Event>): Option<Spec> {
    if log == [] then Some(INITIAL) else
    var before := After(log[..|log| - 1]);
    if before.None? then None else Next(before.value, log[|log| - 1])
  }

  ghost predicate Allowed(log: seq<Event>) {
    After(log).Some?
  }

  lemma AfterExtend(log: seq<Event>, e: Event)
    ensures After(log + [e]) == if After(log).None? then None else Next(After(log).value, e)
  {
    assert (log + [e])[..|log|] == log;
  }

  lemma {:induction false} AllowedPrefix(log: seq<Event>, n: nat)
    requires Allowed(log) && n <= |log|
    ensures Allowed(log[..n])
  {
    if n == |log| {
      assert log[..n] == log;
    } else {
      AllowedPrefix(log[..|log| - 1], n);
      assert log[..|log| - 1][..n] == log[..n];
    }
  }

  // ----- What being allowed means for a log ------------------------------------

  /** How often each event of call `c` has happened is read off its phase. */
  lemma {:induction false} CallCounts(log: seq<Event>, c: CallId)
    requires Allowed(log)
    ensures var sp := After(log).value;
            && multiset(log)[Called(c)] == B2N(c < |sp.calls|)
            && multiset(log)[Started(c)] == B2N(c < |sp.calls| && sp.calls[c] != Pending)
            && multiset(log)[Ended(c)] == B2N(c < |sp.calls| && (sp.calls[c] == Executed || sp.calls[c] == Done))
            && multiset(log)[Returned(c)] == B2N(c < |sp.calls| && sp.calls[c] == Done)
  {
    if log != [] {
      var n := |log| - 1;
      CallCounts(log[..n], c);
      assert log == log[..n] + [log[n]];
    }
  }

  /** Cleanup functions: each is added, started and ended at most once, first in, first out. */
  lemma {:induction false} CleanupCounts(log: seq<Event>, f: CleanupId)
    requires Allowed(log)
    ensures var sp := After(log).value;
            && multiset(log)[CleanupAdded(f)] == B2N(f < sp.added)
            && multiset(log)[CleanupStarted(f)] == B2N(f < sp.started)
            && multiset(log)[CleanupEnded(f)] == B2N(f < sp.started && !(sp.cleaning && f + 1 == sp.started))
            && sp.started <= sp.added && (sp.cleaning ==> sp.started > 0)
            && (sp.returned ==> sp.started == sp.added && !sp.cleaning)
  {
    if log != [] {
      var n := |log| - 1;
      CleanupCounts(log[..n], f);
      assert log == log[..n] + [log[n]];
    }
  }

  /**
  A call that returned had its function run exactly once, after the call and
  before the return.
  */
  lemma ReturnedMeansRanOnce(log: seq<Event>, r: nat)
    requires Allowed(log) && r < |log| && log[r].Returned?
    ensures var c := log[r].call;
            && multiset(log)[Started(c)] == 1 && multiset(log)[Ended(c)] == 1 && multiset(log)[Returned(c)] == 1
            && exists i, j, k :: 0 <= i < j < k < r
                 && log[i] == Called(c) && log[j] == Started(c) && log[k] == Ended(c)
  {
    var c := log[r].call;
    var k := PrecededBy(log, r, Ended(c));
    var j := PrecededBy(log, k, Started(c));
    var i := PrecededBy(log, j, Called(c));
    CallCounts(log, c);
    assert Returned(c) in multiset(log) && Ended(c) in multiset(log) && Started(c) in multiset(log);
    assert log[i] == Called(c) && log[j] == Started(c) && log[k] == Ended(c);
  }

  /** The event that has to come before `log[n]` in the life of the same call. */
  lemma PrecededBy(log: seq<Event>, n: nat, e: Event) returns (m: nat)
    requires Allowed(log) && n < |log|
    requires (log[n].Returned? && e == Ended(log[n].call)) || (log[n].Ended? && e == Started(log[n].call))
          || (log[n].Started? && e == Called(log[n].call))
    ensures m < n && log[m] == e
  {
    AllowedPrefix(log, n + 1);
    var before := log[..n];
    assert log[..n + 1] == before + [log[n]];
    AfterExtend(before, log[n]);
    CallCounts(before, log[n].call);
    assert e in multiset(before);
    m :| 0 <= m < |before| && before[m] == e;
  }

  /** Two posted functions never overlap: the first has ended when the second starts. */
  lemma NoOverlap(log: seq<Event>, i: nat, j: nat)
    requires Allowed(log) && i < j < |log| && log[i].Started? && log[j].Started?
    ensures exists k :: i < k < j && log[k] == Ended(log[i].call)
  {
    AllowedPrefix(log, j + 1);
    AllowedPrefix(log, j);
    AllowedPrefix(log, i + 1);
    AllowedPrefix(log, i);
    assert log[..j + 1] == log[..j] + [log[j]];
    assert log[..i + 1] == log[..i] + [log[i]];
    AfterExtend(log[..j], log[j]);
    AfterExtend(log[..i], log[i]);
    StillExecuting(log, i, j);
  }

  lemma {:induction false} StillExecuting(log: seq<Event>, i: nat, j: nat)
    requires i < j <= |log| && Allowed(log[..i + 1]) && Allowed(log[..j])
    requires log[i].Started? && After(log[..i + 1]).value.executing == Some(log[i].call)
    ensures After(log[..j]).value.executing == Some(log[i].call)
         || exists k :: i < k < j && log[k] == Ended(log[i].call)
    decreases j
  {
    if j > i + 1 {
      assert log[..j][..j - 1] == log[..j - 1];
      AllowedPrefix(log[..j], j - 1);
      StillExecuting(log, i, j - 1);
      if After(log[..j - 1]).value.executing == Some(log[i].call) {
        assert log[..j] == log[..j - 1] + [log[j - 1]];
        AfterExtend(log[..j - 1], log[j - 1]);
        OnlyEndedEnds(After(log[..j - 1]).value, log[j - 1]);
      }
    }
  }

  lemma OnlyEndedEnds(sp: Spec, e: Event)
    requires sp.executing.Some? && Next(sp, e).Some?
    ensures Next(sp, e).value.executing == sp.executing || e == Ended(sp.executing.value)
  {
  }

  /** Cleanup functions start in the order they were added, each after its addition. */
  lemma CleanupFirstInFirstOut(log: seq<Event>, i: nat, j: nat)
    requires Allowed(log) && i < j < |log| && log[i].CleanupStarted? && log[j].CleanupStarted?
    ensures log[i].fn < log[j].fn
    ensures CleanupEnded(log[i].fn) in log[..j]
    ensures CleanupAdded(log[j].fn) in log[..j]
  {
    AllowedPrefix(log, j + 1);
    AllowedPrefix(log, j);
    assert log[..j + 1] == log[..j] + [log[j]];
    AfterExtend(log[..j], log[j]);
    CleanupCounts(log[..j], log[i].fn);
    CleanupCounts(log[..j], log[j].fn);
    assert log[..j][i] == log[i];
    assert log[i] in multiset(log[..j]);
    assert CleanupEnded(log[i].fn) in multiset(log[..j]) && CleanupAdded(log[j].fn) in multiset(log[..j]);
  }

  /** The open calls are those whose phase is not Done. */
  lemma {:induction false} OpenCalls(log: seq<Event>)
    requires Allowed(log)
    ensures var sp := After(log).value;
            forall c: CallId :: c in sp.open <==> c < |sp.calls| && sp.calls[c] != Done
  {
    if log != [] {
      OpenCalls(log[..|log| - 1]);
    }
  }

  /** When `loop()` has returned, every call and every cleanup function has completed, once. */
  lemma ReturnedMeansComplete(log: seq<Event>)
    requires Allowed(log) && LoopReturned in log
    ensures forall c :: Called(c) in log ==> multiset(log)[Started(c)] == 1 && multiset(log)[Returned(c)] == 1
    ensures forall f :: CleanupAdded(f) in log ==> multiset(log)[CleanupEnded(f)] == 1
  {
    ReturnedIsLast(log);
    OpenCalls(log);
    forall c | Called(c) in log
      ensures multiset(log)[Started(c)] == 1 && multiset(log)[Returned(c)] == 1
    {
      CallCounts(log, c);
      assert Called(c) in multiset(log);
    }
    forall f | CleanupAdded(f) in log
      ensures multiset(log)[CleanupEnded(f)] == 1
    {
      CleanupCounts(log, f);
      assert CleanupAdded(f) in multiset(log);
    }
  }

  lemma {:induction false} ReturnedIsLast(log: seq<Event>)
    requires Allowed(log) && LoopReturned in log
    ensures After(log).value.returned && After(log).value.open == {}
  {
    var n := |log| - 1;
    assert log == log[..n] + [log[n]];
    if log[n] != LoopReturned {
      ReturnedIsLast(log[..n]);
    }
  }
}
