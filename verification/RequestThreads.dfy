/**
The request_threads map of one thread while it executes nested calls for several
connections, any of which may break at any time. The map is keyed by the address
of the `Connection` object; the model gives every connection an identity as
well, so that two connections living at the same address one after the other
can be told apart.
*/
module RequestThreads {
  import opened Base

  type Address = nat
  type Identity = nat

  /** An executing server call: which connection it came from, and whether it inserted the map entry. */
  datatype Frame = Frame(addr: Address, id: Identity, inserted: bool)

  datatype State = State(
    live: map<Address, Identity>,   // connections that exist
    next: Identity,
    entries: set<Address>,          // keys of request_threads
    stack: seq<Frame>,              // calls executing on the thread, outermost first
    clientMade: set<Identity>)      // connections whose entry was inserted by a client call

  datatype Step =
    | Connect(a: Address)
    | Disconnect(a: Address)        // ~Connection: the entry's callback erases it
    | ClientCall(a: Address)        // CustomBuildField for Context
    | Begin(a: Address)             // PassField for Context: SetThread
    | BeginCanceled(a: Address, id: Identity)
    | End                           // the deferred extract()

  predicate Enabled(s: State, step: Step) {
    match step
    case Connect(a) => a !in s.live
    case Disconnect(a) => a in s.live
    case ClientCall(a) => a in s.live
    case Begin(a) => a in s.live
    case BeginCanceled(_, id) => id < s.next
    case End => s.stack != []
  }

  function Apply(s: State, step: Step): State
    requires Enabled(s, step)
  {
    match step
    case Connect(a) => s.(live := s.live[a := s.next], next := s.next + 1)
    case Disconnect(a) => s.(live := s.live - {a}, entries := s.entries - {a})
    case ClientCall(a) =>
      s.(entries := s.entries + {a},
         clientMade := if a in s.entries then s.clientMade else s.clientMade + {s.live[a]})
    case Begin(a) =>
      s.(entries := s.entries + {a}, stack := s.stack + [Frame(a, s.live[a], a !in s.entries)])
    case BeginCanceled(a, id) => s.(stack := s.stack + [Frame(a, id, false)])
    case End =>
      var f := s.stack[|s.stack| - 1];
      s.(entries := if f.inserted then s.entries - {f.addr} else s.entries, stack := s.stack[..|s.stack| - 1])
  }

  const INITIAL := State(map[], 0, {}, [], {})

  /** A run, with all its states. */
  ghost predicate IsRun(states: seq<State>, steps: seq<Step>) {
    && |states| == |steps| + 1 && states[0] == INITIAL
    && forall i :: 0 <= i < |steps| ==> Enabled(states[i], steps[i]) && states[i + 1] == Apply(states[i], steps[i])
  }

  // ----- What the map should hold ------------------------------------------------------

  /** Some executing call inserted the entry of connection `id`. */
  ghost predicate Inserting(s: State, id: Identity) {
    exists i :: 0 <= i < |s.stack| && s.stack[i].inserted && s.stack[i].id == id
  }

  /**
  The keys are exactly the live connections with an entry made by a client call
  or by an executing call that inserted one.
  */
  ghost predicate Exact(s: State) {
    forall a :: a in s.entries <==> a in s.live && (s.live[a] in s.clientMade || Inserting(s, s.live[a]))
  }

  /** The step ends a call whose connection is gone, and whose address has an entry of another one. */
  predicate ErasesForeign(s: State, step: Step) {
    step.End? && s.stack != [] &&
    var f := s.stack[|s.stack| - 1];
    f.inserted && f.addr in s.entries && f.addr in s.live && s.live[f.addr] != f.id
  }

  // ----- The invariant --------------------------------------------------------------------

  ghost predicate Identities(s: State) {
    && (forall a | a in s.live :: s.live[a] < s.next)
    && (forall i | 0 <= i < |s.stack| :: s.stack[i].id < s.next)
    && (forall id | id in s.clientMade :: id < s.next)
    // Where a call inserted the entry, no client call did.
    && (forall i | 0 <= i < |s.stack| && s.stack[i].inserted && s.stack[i].addr in s.live ::
          s.live[s.stack[i].addr] == s.stack[i].id ==> s.stack[i].id !in s.clientMade)
    // A connection is inserted by one call, and is at one address.
    && (forall i, j | 0 <= i < j < |s.stack| && s.stack[i].inserted && s.stack[j].inserted ::
          s.stack[i].id != s.stack[j].id)
    && (forall i, a | 0 <= i < |s.stack| && a in s.live && s.stack[i].inserted && s.live[a] == s.stack[i].id ::
          s.stack[i].addr == a)
    && (forall a, b | a in s.live && b in s.live && s.live[a] == s.live[b] :: a == b)
  }

  ghost predicate Inv(s: State) {
    Exact(s) && Identities(s)
  }

  lemma SameInserting(s: State, s': State, id: Identity)
    requires s'.stack == s.stack
    ensures Inserting(s', id) == Inserting(s, id)
  {
  }

  lemma PushInserting(s: State, s': State, f: Frame, id: Identity)
    requires s'.stack == s.stack + [f]
    ensures Inserting(s', id) == (Inserting(s, id) || (f.inserted && f.id == id))
  {
    if Inserting(s, id) {
      var i :| 0 <= i < |s.stack| && s.stack[i].inserted && s.stack[i].id == id;
      assert s'.stack[i] == s.stack[i];
    }
    if f.inserted && f.id == id {
      assert s'.stack[|s.stack|] == f;
    }
  }

  lemma IdentitiesOfCalls(s: State, step: Step)
    requires Inv(s) && Enabled(s, step) && (step.Begin? || step.BeginCanceled? || step.End?)
    ensures Identities(Apply(s, step))
  {
    if step.Begin? && step.a !in s.entries {
      assert !Inserting(s, s.live[step.a]);
    }
  }

  lemma IdentitiesStep(s: State, step: Step)
    requires Inv(s) && Enabled(s, step)
    ensures Identities(Apply(s, step))
  {
    if step.Begin? || step.BeginCanceled? || step.End? {
      IdentitiesOfCalls(s, step);
    }
  }

  lemma StepExact(s: State, step: Step, a: Address)
    requires Inv(s) && Enabled(s, step) && !ErasesForeign(s, step)
    ensures var s' := Apply(s, step);
            a in s'.entries <==> a in s'.live && (s'.live[a] in s'.clientMade || Inserting(s', s'.live[a]))
  {
    var s' := Apply(s, step);
    if a in s'.live {
      var id := s'.live[a];
      match step
      case Begin(b) => PushInserting(s, s', s'.stack[|s.stack|], id);
      case BeginCanceled(b, _) => PushInserting(s, s', s'.stack[|s.stack|], id);
      case End =>
        assert s.stack == s'.stack + [s.stack[|s.stack| - 1]];
        PushInserting(s', s, s.stack[|s.stack| - 1], id);
      case _ => SameInserting(s, s', id);
    }
  }

  /** The entry of a live connection is erased although it was not the ending call that inserted it. */
  lemma ForeignEndInexact(s: State, step: Step)
    requires Inv(s) && Enabled(s, step) && ErasesForeign(s, step)
    ensures !Exact(Apply(s, step))
  {
    var s', f := Apply(s, step), s.stack[|s.stack| - 1];
    var id := s.live[f.addr];
    assert s.stack == s'.stack + [f];
    PushInserting(s', s, f, id);
    assert f.addr !in s'.entries && s'.live[f.addr] == id;
  }

  /**
  While the map has been exact, a step keeps it exact if and only if it is not the end of a call that
  inserted an entry and whose address now has the entry of another connection.
  */
  lemma StepExactIff(s: State, step: Step)
    requires Inv(s) && Enabled(s, step)
    ensures Exact(Apply(s, step)) <==> !ErasesForeign(s, step)
    ensures Identities(Apply(s, step))
  {
    var s' := Apply(s, step);
    IdentitiesStep(s, step);
    if ErasesForeign(s, step) {
      ForeignEndInexact(s, step);
    } else {
      forall a ensures a in s'.entries <==> a in s'.live && (s'.live[a] in s'.clientMade || Inserting(s', s'.live[a])) {
        StepExact(s, step, a);
      }
    }
  }

  // ----- All runs ---------------------------------------------------------------------------

  ghost predicate ExactUpTo(states: seq<State>, n: nat)
    requires n <= |states|
  {
    forall i :: 0 <= i < n ==> Exact(states[i])
  }

  lemma {:induction false} ExactRunInv(states: seq<State>, steps: seq<Step>, n: nat)
    requires IsRun(states, steps) && n < |states| && ExactUpTo(states, n + 1)
    ensures Inv(states[n])
  {
    if n > 0 {
      ExactRunInv(states, steps, n - 1);
      StepExactIff(states[n - 1], steps[n - 1]);
    }
  }

  lemma {:induction false} NoForeignExact(states: seq<State>, steps: seq<Step>, n: nat)
    requires IsRun(states, steps) && n < |states|
    requires forall i :: 0 <= i < n ==> !ErasesForeign(states[i], steps[i])
    ensures ExactUpTo(states, n + 1)
  {
    if n > 0 {
      NoForeignExact(states, steps, n - 1);
      ExactRunInv(states, steps, n - 1);
      StepExactIff(states[n - 1], steps[n - 1]);
    }
  }

  /**
  Over every run, nested calls, disconnects and reused addresses included: the map is exact in all states
  if and only if no call that inserted an entry ended while its address had the entry of another connection.
  */
  lemma ExactIffNoForeignEnd(states: seq<State>, steps: seq<Step>)
    requires IsRun(states, steps)
    ensures (forall i :: 0 <= i < |states| ==> Exact(states[i])) <==>
            (forall i :: 0 <= i < |steps| ==> !ErasesForeign(states[i], steps[i]))
  {
    if forall i :: 0 <= i < |steps| ==> !ErasesForeign(states[i], steps[i]) {
      NoForeignExact(states, steps, |steps|);
    } else {
      var i :| 0 <= i < |steps| && ErasesForeign(states[i], steps[i]);
      if ExactUpTo(states, i + 1) {
        ExactRunInv(states, steps, i);
        StepExactIff(states[i], steps[i]);
        assert !Exact(states[i + 1]);
      }
    }
  }

  // ----- Addresses -----------------------------------------------------------------------------

  /** A connection is created at an address for which a call that inserted an entry is still executing. */
  predicate Reuses(s: State, step: Step) {
    step.Connect? && exists i :: 0 <= i < |s.stack| && s.stack[i].inserted && s.stack[i].addr == step.a
  }

  /** The address of a call that inserted an entry has not been taken over by another connection. */
  ghost predicate NotTakenOver(s: State) {
    forall i | 0 <= i < |s.stack| && s.stack[i].inserted && s.stack[i].addr in s.live ::
      s.live[s.stack[i].addr] == s.stack[i].id
  }

  lemma {:induction false} NoReuseInv(states: seq<State>, steps: seq<Step>, n: nat)
    requires IsRun(states, steps) && n < |states|
    requires forall i :: 0 <= i < n ==> !Reuses(states[i], steps[i])
    ensures NotTakenOver(states[n])
  {
    if n > 0 {
      NoReuseInv(states, steps, n - 1);
    }
  }

  /** Without such reuse, every state of every run is exact. Reusing the address of other calls is harmless. */
  lemma ExactUnlessAddressReused(states: seq<State>, steps: seq<Step>)
    requires IsRun(states, steps)
    requires forall i :: 0 <= i < |steps| ==> !Reuses(states[i], steps[i])
    ensures forall i :: 0 <= i < |states| ==> Exact(states[i])
  {
    forall i | 0 <= i < |steps| ensures !ErasesForeign(states[i], steps[i]) {
      NoReuseInv(states, steps, i);
    }
    ExactIffNoForeignEnd(states, steps);
  }

  /** A call outlives its connection; at its end it erases the entry of a newer one at the same address. */
  lemma ForeignEntryErased() returns (states: seq<State>, steps: seq<Step>)
    ensures IsRun(states, steps) && |steps| == 6
    ensures ErasesForeign(states[5], steps[5]) && Exact(states[5]) && !Exact(states[6])
  {
    steps := [Connect(7), Begin(7), Disconnect(7), Connect(7), ClientCall(7), End];
    var s1 := Apply(INITIAL, steps[0]);
    var s2 := Apply(s1, steps[1]);
    var s3 := Apply(s2, steps[2]);
    var s4 := Apply(s3, steps[3]);
    var s5 := Apply(s4, steps[4]);
    states := [INITIAL, s1, s2, s3, s4, s5, Apply(s5, steps[5])];
    NoForeignExact(states, steps, 5);
    ExactRunInv(states, steps, 5);
    StepExactIff(s5, steps[5]);
  }

  /**
  As long as the map is exact, the end of any other call takes away no entry but its own: entries made by
  outer calls and by client calls of live connections stay.
  */
  lemma EndErasesOnlyItsOwn(states: seq<State>, steps: seq<Step>)
    requires IsRun(states, steps) && ExactUpTo(states, |states|)
    requires var s := states[|steps|]; s.stack != [] && !ErasesForeign(s, End)
    ensures var s := states[|steps|];
            var f, s' := s.stack[|s.stack| - 1], Apply(s, End);
            && (forall a | a in s.entries && a !in s'.entries ::
                  f.inserted && a == f.addr && a in s.live && s.live[a] == f.id)
            && (forall a | a in s.live && s.live[a] in s.clientMade :: a in s'.entries)
            && (forall i | 0 <= i < |s'.stack| && s'.stack[i].inserted && s'.stack[i].addr in s.live &&
                  s.live[s'.stack[i].addr] == s'.stack[i].id :: s'.stack[i].addr in s'.entries)
  {
    ExactRunInv(states, steps, |steps|);
    var s := states[|steps|];
    StepExactIff(s, End);
    var s' := Apply(s, End);
    forall i | 0 <= i < |s'.stack| && s'.stack[i].inserted && s'.stack[i].addr in s.live &&
               s.live[s'.stack[i].addr] == s'.stack[i].id
      ensures s'.stack[i].addr in s'.entries
    {
      assert Inserting(s', s'.stack[i].id);
    }
  }
}
