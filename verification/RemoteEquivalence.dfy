/**
The remote call is the direct call: what the server sends back, what the client
makes of it, and when the caller can tell the difference.
*/
module RemoteEquivalence {
  import opened Base
  import opened Codec
  import opened RemoteCall

  // ----- What the server sends back -----------------------------------------------------------------------

  /** The server reads `seen` from the request. */
  ghost predicate Sees(w: World, request: seq<ParamSlot>, seen: seq<Actual>)
    requires |request| == |w.sig.params|
  {
    |seen| == |w.sig.params| && forall i :: 0 <= i < |seen| ==> PassIn(w, i, request[i]) == Some(seen[i])
  }

  lemma SeesOk(w: World, request: seq<ParamSlot>, seen: seq<Actual>)
    requires |request| == |w.sig.params| && Sees(w, request, seen)
    ensures ActualsOk(w.sig, seen)
  {
    forall i | 0 <= i < |seen| ensures ActualOk(w.sig.params[i], seen[i]) {
      assert PassIn(w, i, request[i]) == Some(seen[i]);
    }
  }

  /** What the method did, as the handlers from `j` on report it. */
  function Reported(w: World, out: Outcome, j: nat): (r: Reply)
    requires j <= |w.sig.handlers| && OutcomeOk(w.sig, out.finals, out)
    ensures ReplyOk(w.sig, r) && r.finals == out.finals && r.results.outs == NoResults(w.sig).outs
  {
    match out.end
    case Returned(v) =>
      var slot := if v.Some? then w.sig.result.value.build(v.value) else UNSET;
      Reply(NoResults(w.sig).(value := slot), out.finals, Nothing)
    case Threw(e) =>
      var c := Caught(w, e.kind, j);
      if c == |w.sig.handlers| then Reply(NoResults(w.sig), out.finals, FromMethod(e))
      else
        var slot := w.sig.handlers[c].link.build(w.env.slice(w.sig.handlers[c].kind, e));
        Reply(NoResults(w.sig).(errors := NoResults(w.sig).errors[c := slot]), out.finals, Nothing)
  }

  lemma HandleReports(w: World, out: Outcome, j: nat)
    requires j < |w.sig.handlers| && OutcomeOk(w.sig, out.finals, out)
    ensures Handle(w, j, Reported(w, out, j + 1)) == Reported(w, out, j)
  {
  }

  lemma {:induction false} HandlersReport(w: World, impl: Impl, passed: seq<Actual>, j: nat)
    requires ImplOk(w.sig, impl) && ActualsOk(w.sig, passed) && j <= |w.sig.handlers|
    ensures OutcomeOk(w.sig, passed, impl(passed)) && OutcomeOk(w.sig, impl(passed).finals, impl(passed))
    ensures ServerExcepts(w, impl, passed, j) == Reported(w, impl(passed), j)
    decreases |w.sig.handlers| - j
  {
    assert OutcomeOk(w.sig, passed, impl(passed));
    if j < |w.sig.handlers| {
      HandlersReport(w, impl, passed, j + 1);
      HandleReports(w, impl(passed), j);
    }
  }

  /** Parameter `k` in the results, once the handlers from `i` on are done. */
  function OutSlot(w: World, finals: seq<Actual>, i: nat, k: nat): Slot
    requires |finals| == |w.sig.params| && k < |finals|
  {
    if k >= i && w.sig.params[k].output && !finals[k].Null? then w.sig.params[k].link.build(finals[k].v) else UNSET
  }

  function Outs(w: World, finals: seq<Actual>, i: nat): seq<Slot>
    requires |finals| == |w.sig.params|
  {
    seq(|finals|, k requires 0 <= k < |finals| => OutSlot(w, finals, i, k))
  }

  /** The report, with final values added from parameter `i` on unless something is being thrown. */
  function Delivered(w: World, out: Outcome, i: nat): (r: Reply)
    requires OutcomeOk(w.sig, out.finals, out)
    ensures ReplyOk(w.sig, r) && r.finals == out.finals
  {
    var report := Reported(w, out, 0);
    if report.raised.Nothing? then report.(results := report.results.(outs := Outs(w, out.finals, i)))
    else report
  }

  lemma DeliveredStep(w: World, out: Outcome, i: nat, a: Actual)
    requires OutcomeOk(w.sig, out.finals, out)
    requires i < |w.sig.params| && (out.finals[i].Null? <==> a.Null?)
    ensures PassOut(w, i, a, Delivered(w, out, i + 1)) == Delivered(w, out, i)
  {
    var finals := out.finals;
    assert Outs(w, finals, i) == Outs(w, finals, i + 1)[i := OutSlot(w, finals, i, i)];
    assert OutSlot(w, finals, i + 1, i) == UNSET;
    assert Outs(w, finals, i + 1)[i := UNSET] == Outs(w, finals, i + 1);
  }

  lemma DeliveredLast(w: World, out: Outcome)
    requires OutcomeOk(w.sig, out.finals, out)
    ensures Delivered(w, out, |w.sig.params|) == Reported(w, out, 0)
  {
    assert Outs(w, out.finals, |w.sig.params|) == NoResults(w.sig).outs;
  }

  /** All in all the reply has the method's own report, and the final values unless it failed. */
  lemma {:induction false} FieldsDeliver(w: World, impl: Impl, request: seq<ParamSlot>, seen: seq<Actual>, i: nat)
    requires ImplOk(w.sig, impl) && |request| == |w.sig.params|
    requires Sees(w, request, seen) && ActualsOk(w.sig, seen) && i <= |seen|
    requires OutcomeOk(w.sig, seen, impl(seen)) && OutcomeOk(w.sig, impl(seen).finals, impl(seen))
    ensures ServerFields(w, impl, request, seen[..i]) == Delivered(w, impl(seen), i)
    decreases |seen| - i
  {
    if i == |seen| {
      assert seen[..i] == seen;
      HandlersReport(w, impl, seen, 0);
      DeliveredLast(w, impl(seen));
    } else {
      FieldsDeliver(w, impl, request, seen, i + 1);
      assert seen[..i + 1] == seen[..i] + [seen[i]];
      DeliveredStep(w, impl(seen), i, seen[i]);
    }
  }

  // ----- What the client makes of it -----------------------------------------------------------------------

  /** The caller's objects after reading: those the server saw as well take the final values. */
  function Updated(sig: Signature, args: seq<Actual>, finals: seq<Actual>, n: nat): seq<Actual>
    requires |args| == |sig.params| == |finals|
  {
    seq(|args|, k requires 0 <= k < |args| =>
      if k < n && sig.params[k].output && !args[k].Null? then finals[k] else args[k])
  }

  lemma {:induction false} ReadParamsGives(w: World, r: Results, args: seq<Actual>, finals: seq<Actual>, i: nat)
    requires ActualsOk(w.sig, args) && ActualsOk(w.sig, finals) && ResultsOk(w.sig, r) && i <= |args|
    requires forall k :: 0 <= k < |args| && !args[k].Null? ==> !finals[k].Null?
    requires r.outs == Outs(w, finals, 0)
    ensures ReadParams(w, r, Updated(w.sig, args, finals, i), i) ==
            Observed(Updated(w.sig, args, finals, |args|), ReadErrors(w, r, 0))
    decreases |args| - i
  {
    if i < |args| {
      var p := w.sig.params[i];
      var now, next := Updated(w.sig, args, finals, i), Updated(w.sig, args, finals, i + 1);
      if p.output && !args[i].Null? {
        assert ParamOk(w, i);
        assert p.link.read(r.outs[i]) == Some(finals[i].v);
        assert now[i := now[i].(v := finals[i].v)] == next;
      } else {
        assert now == next;
      }
      ReadParamsGives(w, r, args, finals, i + 1);
    }
  }

  lemma {:induction false} NoError(w: World, r: Results, j: nat)
    requires ResultsOk(w.sig, r) && j <= |w.sig.handlers|
    requires forall k :: j <= k < |w.sig.handlers| ==> !w.sig.handlers[k].link.has(r.errors[k])
    ensures ReadErrors(w, r, j) == ReadResult(w, r)
    decreases |w.sig.handlers| - j
  {
    if j < |w.sig.handlers| {
      NoError(w, r, j + 1);
    }
  }

  lemma {:induction false} FirstError(w: World, r: Results, j: nat, c: nat)
    requires ResultsOk(w.sig, r) && j <= c < |w.sig.handlers|
    requires forall k :: j <= k < c ==> !w.sig.handlers[k].link.has(r.errors[k])
    requires w.sig.handlers[c].link.has(r.errors[c])
    ensures var v := w.sig.handlers[c].link.read(r.errors[c]);
            ReadErrors(w, r, j) == if v.None? then RangeError else Exception(Exn(w.sig.handlers[c].thrown, v.value))
    decreases c - j
  {
    if j < c {
      FirstError(w, r, j + 1, c);
    }
  }

  lemma {:induction false} SomeError(w: World, r: Results, j: nat, c: nat)
    requires ResultsOk(w.sig, r) && j <= c < |w.sig.handlers|
    requires w.sig.handlers[c].link.has(r.errors[c])
    ensures !ReadErrors(w, r, j).Result?
    decreases c - j
  {
    if j < c {
      SomeError(w, r, j + 1, c);
    }
  }

  /** An exception field is there if an exception was put there, and only then. */
  ghost predicate Tells(w: World, j: nat)
    requires j < |w.sig.handlers|
  {
    var h := w.sig.handlers[j];
    && !h.link.has(UNSET)
    && forall e: Exn :: Caught(w, e.kind, 0) == j ==> h.link.has(h.link.build(w.env.slice(h.kind, e)))
  }

  ghost predicate HandlersTell(w: World) {
    forall j :: 0 <= j < |w.sig.handlers| ==> Tells(w, j)
  }

  /** What the client throws for an exception that is caught on the server. */
  function Arriving(w: World, e: Exn): Exn
    requires Caught(w, e.kind, 0) < |w.sig.handlers|
  {
    var h := w.sig.handlers[Caught(w, e.kind, 0)];
    Exn(h.thrown, w.env.slice(h.kind, e))
  }

  /** How the call ends on the client. */
  function Ending(w: World, end: End): How {
    match end
    case Returned(v) => Result(v)
    case Threw(e) => if Caught(w, e.kind, 0) == |w.sig.handlers| then RemoteFailure else Exception(Arriving(w, e))
  }

  /** What the client sees of what the method did. */
  function Shown(w: World, args: seq<Actual>, out: Outcome): Observed
    requires |args| == |w.sig.params| == |out.finals|
  {
    var how := Ending(w, out.end);
    Observed(if how.RemoteFailure? then args else Visible(w.sig, args, out.finals), how)
  }

  lemma ReadsResult(w: World, out: Outcome, r: Results)
    requires OutcomeOk(w.sig, out.finals, out) && out.end.Returned? && r.value == Reported(w, out, 0).results.value
    ensures ReadResult(w, r) == Result(out.end.result)
  {
  }

  /** Reading the reply to a call that got through. */
  lemma ReadsEnding(w: World, out: Outcome, r: Results)
    requires OutcomeOk(w.sig, out.finals, out) && ResultsOk(w.sig, r) && HandlersTell(w)
    requires Reported(w, out, 0).raised.Nothing?
    requires r.value == Reported(w, out, 0).results.value && r.errors == Reported(w, out, 0).results.errors
    ensures ReadErrors(w, r, 0) == Ending(w, out.end)
  {
    forall k | 0 <= k < |w.sig.handlers| && r.errors[k] == UNSET
      ensures !w.sig.handlers[k].link.has(r.errors[k])
    {
      assert Tells(w, k);
    }
    if out.end.Returned? {
      NoError(w, r, 0);
      ReadsResult(w, out, r);
    } else {
      var c := Caught(w, out.end.e.kind, 0);
      assert Tells(w, c) && HandlerOk(w, c);
      FirstError(w, r, 0, c);
    }
  }

  // ----- What the server gets to see ------------------------------------------------------------------------

  /** A null pointer can be told from any other only if the schema has a `want` field for it. */
  predicate NullRequested(p: Param, a: Actual) {
    a.Null? ==> p.requested
  }

  predicate NullsRequested(sig: Signature, args: seq<Actual>)
    requires ActualsOk(sig, args)
  {
    forall i :: 0 <= i < |args| ==> NullRequested(sig.params[i], args[i])
  }

  lemma ParamArrives(w: World, i: nat, a: Actual)
    requires i < |w.sig.params| && ActualOk(w.sig.params[i], a)
    ensures var p := w.sig.params[i];
            var seen := PassIn(w, i, BuiltParam(p, a));
            seen.Some? && if NullRequested(p, a) then seen.value == Initial(p, a, w.env.junk(i)) else seen.value.Ptr?
  {
    assert ParamOk(w, i);
  }

  /** The parameters the method is called with on the server. */
  ghost function Seen(w: World, args: seq<Actual>): (seen: seq<Actual>)
    requires ActualsOk(w.sig, args)
    ensures Sees(w, Request(w.sig, args), seen) && ActualsOk(w.sig, seen)
    ensures forall i :: 0 <= i < |args| ==>
              if NullRequested(w.sig.params[i], args[i]) then seen[i] == Initials(w, args)[i] else seen[i].Ptr?
  {
    var request := Request(w.sig, args);
    assert forall i :: 0 <= i < |args| ==> PassIn(w, i, request[i]).Some? by {
      forall i | 0 <= i < |args| ensures PassIn(w, i, request[i]).Some? {
        ParamArrives(w, i, args[i]);
      }
    }
    var seen := seq(|args|, i requires 0 <= i < |args| => PassIn(w, i, request[i]).value);
    SeesOk(w, request, seen);
    SeenAre(w, args, seen);
    seen
  }

  lemma SeenAre(w: World, args: seq<Actual>, seen: seq<Actual>)
    requires ActualsOk(w.sig, args) && Sees(w, Request(w.sig, args), seen)
    ensures forall i :: 0 <= i < |args| ==>
              if NullRequested(w.sig.params[i], args[i]) then seen[i] == Initials(w, args)[i] else seen[i].Ptr?
  {
    forall i | 0 <= i < |args|
      ensures if NullRequested(w.sig.params[i], args[i]) then seen[i] == Initials(w, args)[i] else seen[i].Ptr?
    {
      ParamArrives(w, i, args[i]);
      assert PassIn(w, i, Request(w.sig, args)[i]) == Some(seen[i]);
    }
  }

  // ----- Remote and local ---------------------------------------------------------------------------------------

  /** What the method does with the parameters it sees. */
  ghost function Done(w: World, args: seq<Actual>, impl: Impl): (out: Outcome)
    requires ActualsOk(w.sig, args) && ImplOk(w.sig, impl)
    ensures OutcomeOk(w.sig, Seen(w, args), out) && OutcomeOk(w.sig, out.finals, out)
  {
    impl(Seen(w, args))
  }

  lemma ServerDelivers(w: World, impl: Impl, request: seq<ParamSlot>, seen: seq<Actual>, out: Outcome)
    requires ImplOk(w.sig, impl) && |request| == |w.sig.params|
    requires Sees(w, request, seen) && ActualsOk(w.sig, seen)
    requires out == impl(seen) && OutcomeOk(w.sig, seen, out) && OutcomeOk(w.sig, out.finals, out)
    ensures ServerFields(w, impl, request, []) == Delivered(w, out, 0)
  {
    FieldsDeliver(w, impl, request, seen, 0);
    assert seen[..0] == [];
  }

  lemma ClientReads(w: World, args: seq<Actual>, finals: seq<Actual>, r: Results)
    requires ActualsOk(w.sig, args) && ActualsOk(w.sig, finals) && ResultsOk(w.sig, r)
    requires forall k :: 0 <= k < |args| && !args[k].Null? ==> !finals[k].Null?
    requires r.outs == Outs(w, finals, 0)
    ensures ReadParams(w, r, args, 0) == Observed(Updated(w.sig, args, finals, |args|), ReadErrors(w, r, 0))
  {
    assert Updated(w.sig, args, finals, 0) == args;
    ReadParamsGives(w, r, args, finals, 0);
  }

  lemma DoneNonNull(w: World, args: seq<Actual>, impl: Impl)
    requires ActualsOk(w.sig, args) && ImplOk(w.sig, impl)
    ensures forall k :: 0 <= k < |args| && !args[k].Null? ==> !Done(w, args, impl).finals[k].Null?
  {
    forall k | 0 <= k < |args| && !args[k].Null? ensures !Done(w, args, impl).finals[k].Null? {
      assert Initials(w, args)[k] == Initial(w.sig.params[k], args[k], w.env.junk(k));
      assert NullRequested(w.sig.params[k], args[k]);
    }
  }

  /** The reply to the call; what was not thrown is read by the client. */
  lemma RemoteCallIs(w: World, args: seq<Actual>, impl: Impl)
    requires ActualsOk(w.sig, args) && ImplOk(w.sig, impl)
    ensures var reply := Delivered(w, Done(w, args, impl), 0);
            ThroughProxies(w, args, impl) ==
            if reply.raised.Nothing?
            then Observed(Updated(w.sig, args, reply.finals, |args|), ReadErrors(w, reply.results, 0))
            else Observed(args, RemoteFailure)
  {
    var out := Done(w, args, impl);
    var reply := Delivered(w, out, 0);
    ServerDelivers(w, impl, Request(w.sig, args), Seen(w, args), out);
    if reply.raised.Nothing? {
      DoneNonNull(w, args, impl);
      ClientReads(w, args, out.finals, reply.results);
    }
  }

  lemma SeenInitials(w: World, args: seq<Actual>)
    requires ActualsOk(w.sig, args) && NullsRequested(w.sig, args)
    ensures Seen(w, args) == Initials(w, args)
  {
    forall i | 0 <= i < |args| ensures Seen(w, args)[i] == Initials(w, args)[i] {
      assert NullRequested(w.sig.params[i], args[i]);
    }
  }

  /** The exception is of no declared class. */
  predicate Undeclared(w: World, how: How) {
    how.Exception? && Caught(w, how.e.kind, 0) == |w.sig.handlers|
  }

  /**
  Calling through the proxies is calling the method, whatever the method does, provided it throws nothing
  undeclared when called directly.
  */
  ghost predicate SameAsLocal(w: World, args: seq<Actual>)
    requires ActualsOk(w.sig, args)
  {
    forall impl :: ImplOk(w.sig, impl) && !Undeclared(w, LocalCall(w, args, impl).how) ==>
      Alike(w, ThroughProxies(w, args, impl), LocalCall(w, args, impl))
  }

  /** The exception that arrives looks like the one that was thrown. */
  ghost predicate KeepsView(w: World) {
    forall e: Exn :: Caught(w, e.kind, 0) < |w.sig.handlers| ==> View(w, Arriving(w, e)) == View(w, e)
  }

  lemma UpdatedIsVisible(sig: Signature, args: seq<Actual>, finals: seq<Actual>)
    requires |args| == |sig.params| && SameNulls(args, finals)
    ensures Updated(sig, args, finals, |args|) == Visible(sig, args, finals)
  {
  }

  predicate SameNulls(a: seq<Actual>, b: seq<Actual>) {
    |a| == |b| && forall i :: 0 <= i < |a| ==> (a[i].Null? <==> b[i].Null?)
  }

  lemma InitialNulls(w: World, args: seq<Actual>, finals: seq<Actual>)
    requires ActualsOk(w.sig, args) && SameNulls(Initials(w, args), finals)
    ensures SameNulls(args, finals)
  {
    forall i | 0 <= i < |args| ensures args[i].Null? <==> finals[i].Null? {
      assert Initials(w, args)[i] == Initial(w.sig.params[i], args[i], w.env.junk(i));
      assert Initials(w, args)[i].Null? <==> finals[i].Null?;
    }
  }

  lemma RemoteShows(w: World, args: seq<Actual>, impl: Impl, out: Outcome)
    requires ActualsOk(w.sig, args) && ImplOk(w.sig, impl) && HandlersTell(w)
    requires out == Done(w, args, impl) && SameNulls(args, out.finals)
    ensures ThroughProxies(w, args, impl) == Shown(w, args, out)
  {
    RemoteCallIs(w, args, impl);
    EndingFails(w, out);
    if Reported(w, out, 0).raised.Nothing? {
      ReadsEnding(w, out, Delivered(w, out, 0).results);
      UpdatedIsVisible(w.sig, args, out.finals);
    }
  }

  /** A call fails exactly if something is still being thrown outside all handlers. */
  lemma EndingFails(w: World, out: Outcome)
    requires OutcomeOk(w.sig, out.finals, out)
    ensures Ending(w, out.end).RemoteFailure? <==> !Reported(w, out, 0).raised.Nothing?
    ensures Delivered(w, out, 0).raised == Reported(w, out, 0).raised
  {
  }

  lemma ShownIsAlike(w: World, args: seq<Actual>, impl: Impl)
    requires ActualsOk(w.sig, args) && ImplOk(w.sig, impl) && KeepsView(w)
    requires !Undeclared(w, LocalCall(w, args, impl).how)
    ensures Alike(w, Shown(w, args, impl(Initials(w, args))), LocalCall(w, args, impl))
  {
    var out := impl(Initials(w, args));
    if out.end.Threw? {
      assert Caught(w, out.end.e.kind, 0) < |w.sig.handlers|;
    }
  }

  /** The method sees the same parameters, and the caller what arrives of what it does with them. */
  lemma RemoteIsShown(w: World, args: seq<Actual>, impl: Impl)
    requires ActualsOk(w.sig, args) && ImplOk(w.sig, impl) && HandlersTell(w) && NullsRequested(w.sig, args)
    ensures OutcomeOk(w.sig, Initials(w, args), impl(Initials(w, args)))
    ensures ThroughProxies(w, args, impl) == Shown(w, args, impl(Initials(w, args)))
  {
    var out := Done(w, args, impl);
    SeenInitials(w, args);
    InitialNulls(w, args, out.finals);
    RemoteShows(w, args, impl, out);
  }

  lemma RemoteEqualsLocal(w: World, args: seq<Actual>, impl: Impl)
    requires ActualsOk(w.sig, args) && ImplOk(w.sig, impl)
    requires HandlersTell(w) && KeepsView(w) && NullsRequested(w.sig, args)
    requires !Undeclared(w, LocalCall(w, args, impl).how)
    ensures Alike(w, ThroughProxies(w, args, impl), LocalCall(w, args, impl))
  {
    RemoteIsShown(w, args, impl);
    ShownIsAlike(w, args, impl);
  }

  /** Anything else that is thrown is a failure of the call, and the caller's objects are not touched. */
  lemma UndeclaredFails(w: World, args: seq<Actual>, impl: Impl)
    requires ActualsOk(w.sig, args) && ImplOk(w.sig, impl) && HandlersTell(w) && NullsRequested(w.sig, args)
    requires Undeclared(w, LocalCall(w, args, impl).how)
    ensures ThroughProxies(w, args, impl) == Observed(args, RemoteFailure)
  {
    RemoteIsShown(w, args, impl);
  }

  // ----- And otherwise they differ ------------------------------------------------------------------

  function SomeResult(sig: Signature): Option<Value> {
    if sig.result.Some? then Some(sig.result.value.blank) else None
  }

  /** A method that throws unless the chosen parameter is null. */
  function Picky(sig: Signature, i: nat): Impl {
    (args: seq<Actual>) =>
      Outcome(args, if i < |args| && !args[i].Null? then Threw(Exn(0, Num(0))) else Returned(SomeResult(sig)))
  }

  function Thrower(e: Exn): Impl {
    args => Outcome(args, Threw(e))
  }

  lemma PickyOk(w: World, i: nat)
    ensures ImplOk(w.sig, Picky(w.sig, i))
  {
  }

  /** An exception field that is always there is always thrown. */
  lemma UnsetButThere(w: World, args: seq<Actual>, j: nat)
    requires ActualsOk(w.sig, args) && j < |w.sig.handlers| && w.sig.handlers[j].link.has(UNSET)
    ensures !SameAsLocal(w, args)
  {
    var impl := Picky(w.sig, |args|);
    PickyOk(w, |args|);
    RemoteCallIs(w, args, impl);
    SomeError(w, Delivered(w, Done(w, args, impl), 0).results, 0, j);
    assert !Alike(w, ThroughProxies(w, args, impl), LocalCall(w, args, impl));
  }

  /** An exception in a field that is not there afterwards is lost. */
  lemma BuiltButMissing(w: World, args: seq<Actual>, e: Exn)
    requires ActualsOk(w.sig, args) && Caught(w, e.kind, 0) < |w.sig.handlers|
    requires var h := w.sig.handlers[Caught(w, e.kind, 0)]; !h.link.has(h.link.build(w.env.slice(h.kind, e)))
    requires forall j :: 0 <= j < |w.sig.handlers| ==> !w.sig.handlers[j].link.has(UNSET)
    ensures !SameAsLocal(w, args)
  {
    var impl := Thrower(e);
    assert ImplOk(w.sig, impl);
    RemoteCallIs(w, args, impl);
    NoError(w, Delivered(w, Done(w, args, impl), 0).results, 0);
    assert !Alike(w, ThroughProxies(w, args, impl), LocalCall(w, args, impl));
  }

  lemma HandlersMustTell(w: World, args: seq<Actual>)
    requires ActualsOk(w.sig, args) && !HandlersTell(w)
    ensures !SameAsLocal(w, args)
  {
    if j :| 0 <= j < |w.sig.handlers| && w.sig.handlers[j].link.has(UNSET) {
      UnsetButThere(w, args, j);
    } else {
      var j :| 0 <= j < |w.sig.handlers| && !Tells(w, j);
      var h := w.sig.handlers[j];
      var e: Exn :| Caught(w, e.kind, 0) == j && !h.link.has(h.link.build(w.env.slice(h.kind, e)));
      BuiltButMissing(w, args, e);
    }
  }

  /** Without a `want` field the method gets a pointer to an object where the caller passed null. */
  lemma UnrequestedNullIsLost(w: World, args: seq<Actual>, i: nat)
    requires ActualsOk(w.sig, args) && HandlersTell(w)
    requires i < |args| && !NullRequested(w.sig.params[i], args[i])
    ensures !SameAsLocal(w, args)
  {
    var impl := Picky(w.sig, i);
    PickyOk(w, i);
    RemoteCallIs(w, args, impl);
    var out := Done(w, args, impl);
    assert Seen(w, args)[i].Ptr?;
    if Reported(w, out, 0).raised.Nothing? {
      ReadsEnding(w, out, Delivered(w, out, 0).results);
    }
    assert Initials(w, args)[i].Null?;
    assert !Alike(w, ThroughProxies(w, args, impl), LocalCall(w, args, impl));
  }

  /** An exception that arrives as another one is told from it. */
  lemma OtherView(w: World, args: seq<Actual>, e: Exn)
    requires ActualsOk(w.sig, args) && HandlersTell(w) && NullsRequested(w.sig, args)
    requires Caught(w, e.kind, 0) < |w.sig.handlers| && View(w, Arriving(w, e)) != View(w, e)
    ensures ImplOk(w.sig, Thrower(e))
    ensures ThroughProxies(w, args, Thrower(e)).how == Exception(Arriving(w, e))
    ensures LocalCall(w, args, Thrower(e)).how == Exception(e)
    ensures !SameAsLocal(w, args)
  {
    var impl := Thrower(e);
    assert ImplOk(w.sig, impl);
    RemoteIsShown(w, args, impl);
    assert !Alike(w, ThroughProxies(w, args, impl), LocalCall(w, args, impl));
  }

  /**
  The remote call is the local call exactly if exception fields can tell whether they are set, every
  exception arrives looking like itself, and null pointers are announced.
  */
  lemma RemoteEqualsLocalIff(w: World, args: seq<Actual>)
    requires ActualsOk(w.sig, args)
    ensures SameAsLocal(w, args) <==> HandlersTell(w) && KeepsView(w) && NullsRequested(w.sig, args)
  {
    if !HandlersTell(w) {
      HandlersMustTell(w, args);
    } else if !NullsRequested(w.sig, args) {
      var i :| 0 <= i < |args| && !NullRequested(w.sig.params[i], args[i]);
      UnrequestedNullIsLost(w, args, i);
    } else if !KeepsView(w) {
      var e: Exn :| Caught(w, e.kind, 0) < |w.sig.handlers| && View(w, Arriving(w, e)) != View(w, e);
      OtherView(w, args, e);
    } else {
      forall impl | ImplOk(w.sig, impl) && !Undeclared(w, LocalCall(w, args, impl).how)
        ensures Alike(w, ThroughProxies(w, args, impl), LocalCall(w, args, impl))
      {
        RemoteEqualsLocal(w, args, impl);
      }
    }
  }

  // ----- Which classes arrive as themselves -------------------------------------------------------------

  /** What C++ guarantees of base classes, and of std::runtime_error made from std::exception. */
  ghost predicate Hierarchy(w: World) {
    && (forall a :: w.env.isA(a, a))
    && (forall a, b, c :: w.env.isA(a, b) && w.env.isA(b, c) ==> w.env.isA(a, c))
    && (forall e: Exn, a, b :: w.env.isA(e.kind, a) && w.env.isA(a, b) ==>
          w.env.slice(b, Exn(a, w.env.slice(a, e))) == w.env.slice(b, e))
    && (forall j :: 0 <= j < |w.sig.handlers| ==> ThrownOk(w, j))
  }

  ghost predicate ThrownOk(w: World, j: nat)
    requires j < |w.sig.handlers|
  {
    var h := w.sig.handlers[j];
    && w.env.isA(h.thrown, h.kind)
    && forall e: Exn :: w.env.slice(h.kind, Exn(h.thrown, w.env.slice(h.kind, e))) == w.env.slice(h.kind, e)
  }

  /**
  Of the declared classes that match `kind`, the innermost is derived from all others; and what the client
  throws for it matches no further ones.
  */
  ghost predicate MostDerived(w: World, kind: nat) {
    var c := Caught(w, kind, 0);
    c < |w.sig.handlers| ==>
      var h := w.sig.handlers[c];
      forall j :: 0 <= j < |w.sig.handlers| ==>
        && (w.env.isA(kind, w.sig.handlers[j].kind) ==> w.env.isA(h.kind, w.sig.handlers[j].kind))
        && (w.env.isA(h.thrown, w.sig.handlers[j].kind) ==> w.env.isA(h.kind, w.sig.handlers[j].kind))
  }

  /** The innermost handler of a class also handles its own class. */
  lemma CaughtAgain(w: World, kind: nat)
    requires Hierarchy(w) && Caught(w, kind, 0) < |w.sig.handlers|
    ensures Caught(w, w.sig.handlers[Caught(w, kind, 0)].kind, 0) == Caught(w, kind, 0)
  {
    var c := Caught(w, kind, 0);
    var h := w.sig.handlers[c];
    var d := Caught(w, h.kind, 0);
    assert w.env.isA(h.kind, h.kind) && c <= d;
    assert w.env.isA(kind, w.sig.handlers[d].kind);
  }

  lemma DerivedKeepsView(w: World, e: Exn)
    requires Hierarchy(w) && Caught(w, e.kind, 0) < |w.sig.handlers| && MostDerived(w, e.kind)
    ensures View(w, Arriving(w, e)) == View(w, e)
  {
    var c := Caught(w, e.kind, 0);
    var h := w.sig.handlers[c];
    assert ThrownOk(w, c);
    forall j | 0 <= j < |w.sig.handlers| ensures View(w, Arriving(w, e))[j] == View(w, e)[j] {
      var kind := w.sig.handlers[j].kind;
      assert w.env.isA(e.kind, kind) <==> w.env.isA(h.kind, kind);
      assert w.env.isA(h.thrown, kind) <==> w.env.isA(h.kind, kind);
      if w.env.isA(h.kind, kind) {
        var v := w.env.slice(h.kind, e);
        assert w.env.slice(kind, Exn(h.kind, w.env.slice(h.kind, Exn(h.thrown, v)))) ==
               w.env.slice(kind, Exn(h.thrown, v));
        assert w.env.slice(kind, Exn(h.kind, v)) == w.env.slice(kind, e);
      }
    }
  }

  /** Whether a class matches is the same before and after. */
  lemma SameMatches(w: World, kind: nat, j: nat)
    requires KeepsView(w) && Caught(w, kind, 0) < |w.sig.handlers| && j < |w.sig.handlers|
    ensures w.env.isA(kind, w.sig.handlers[j].kind) <==>
            w.env.isA(w.sig.handlers[Caught(w, kind, 0)].thrown, w.sig.handlers[j].kind)
  {
    var e := Exn(kind, Num(0));
    assert View(w, Arriving(w, e)) == View(w, e);
    assert View(w, Arriving(w, e))[j] == View(w, e)[j];
  }

  /** Exceptions arrive looking like themselves exactly if the innermost class that matches is the most derived. */
  lemma KeepsViewIff(w: World)
    requires Hierarchy(w)
    ensures KeepsView(w) <==> forall kind :: MostDerived(w, kind)
  {
    if KeepsView(w) {
      forall kind ensures MostDerived(w, kind) {
        var c := Caught(w, kind, 0);
        if c < |w.sig.handlers| {
          CaughtAgain(w, kind);
          forall j | 0 <= j < |w.sig.handlers|
            ensures w.env.isA(kind, w.sig.handlers[j].kind) ==>
                      w.env.isA(w.sig.handlers[c].kind, w.sig.handlers[j].kind)
            ensures w.env.isA(w.sig.handlers[c].thrown, w.sig.handlers[j].kind) ==>
                      w.env.isA(w.sig.handlers[c].kind, w.sig.handlers[j].kind)
          {
            SameMatches(w, kind, j);
            SameMatches(w, w.sig.handlers[c].kind, j);
          }
        }
      }
    }
    if forall kind :: MostDerived(w, kind) {
      forall e: Exn | Caught(w, e.kind, 0) < |w.sig.handlers| ensures View(w, Arriving(w, e)) == View(w, e) {
        DerivedKeepsView(w, e);
      }
    }
  }

  /**
  What the client throws for a declared class may match a further declared class, as std::runtime_error does
  when it stands for std::exception. Then exceptions of the first do not arrive looking like themselves.
  */
  lemma ThrownMatchesMore(w: World, c: nat, j: nat)
    requires c < |w.sig.handlers| && j < |w.sig.handlers| && Caught(w, w.sig.handlers[c].kind, 0) == c
    requires w.env.isA(w.sig.handlers[c].thrown, w.sig.handlers[j].kind)
    requires !w.env.isA(w.sig.handlers[c].kind, w.sig.handlers[j].kind)
    ensures !KeepsView(w)
  {
    if KeepsView(w) {
      SameMatches(w, w.sig.handlers[c].kind, j);
    }
  }

  /** No class is listed before a base of it. */
  ghost predicate BasesFirst(w: World) {
    forall i, j :: 0 <= i < j < |w.sig.handlers| ==> !w.env.isA(w.sig.handlers[i].kind, w.sig.handlers[j].kind)
  }

  /** Without multiple inheritance, of two bases of a class one is a base of the other; no two are of each other. */
  ghost predicate SingleInheritance(w: World) {
    && (forall k, a, b :: w.env.isA(k, a) && w.env.isA(k, b) ==> w.env.isA(a, b) || w.env.isA(b, a))
    && (forall a, b :: w.env.isA(a, b) && w.env.isA(b, a) ==> a == b)
  }

  /** Then what matters is the order in which the schema lists the classes, each once. */
  lemma BasesFirstIff(w: World)
    requires Hierarchy(w) && SingleInheritance(w)
    requires forall j :: 0 <= j < |w.sig.handlers| ==> w.sig.handlers[j].thrown == w.sig.handlers[j].kind
    requires forall i, j :: 0 <= i < j < |w.sig.handlers| ==> w.sig.handlers[i].kind != w.sig.handlers[j].kind
    ensures KeepsView(w) <==> BasesFirst(w)
  {
    KeepsViewIff(w);
    if forall kind :: MostDerived(w, kind) {
      forall i, j | 0 <= i < j < |w.sig.handlers| ensures !w.env.isA(w.sig.handlers[i].kind, w.sig.handlers[j].kind) {
        var kind := w.sig.handlers[i].kind;
        assert MostDerived(w, kind);
        var c := Caught(w, kind, 0);
        assert w.env.isA(kind, kind) && i <= c;
        assert w.env.isA(w.sig.handlers[c].kind, kind) && c == i;
      }
    }
    if BasesFirst(w) {
      forall kind ensures MostDerived(w, kind) {
        var c := Caught(w, kind, 0);
        if c < |w.sig.handlers| {
          forall j | 0 <= j < |w.sig.handlers| && w.env.isA(kind, w.sig.handlers[j].kind)
            ensures w.env.isA(w.sig.handlers[c].kind, w.sig.handlers[j].kind)
          {
            assert j <= c;
          }
        }
      }
    }
  }
}
