/**
The end of a thread that made client calls: the thread destroys its map of
`ProxyClient<Thread>` objects, one after the other, and the destructor of each
has two functions run by the event loop. A connection may break before, between
and after these. (Entries erased on the event loop thread itself are the subject
of Disconnect.)
*/
module ThreadExit {
  import opened Base

  type Conn = nat                     // a connection; identities are not used again

  datatype Phase =
    | InMap
    | Waiting1                        // inside ~ProxyClient<Thread>, first function not run yet
    | Waiting2                        // inside ~ProxyClientBase, second function not run yet
    | Gone

  datatype Fate = Listed | Ran | Removed

  /** The entry of one connection. */
  datatype Client = Client(
    phase: Phase,
    connected: bool,                  // m_context.connection is not null
    forget: Fate,                     // the callback that erases the entry
    detach: Fate,                     // the callback that sets m_context.connection to null
    cleanup: bool,                    // the cleanup function of ~ProxyClientBase is still in its list
    destructors: nat)                 // how often the destructor was entered

  const NEW_CLIENT := Client(InMap, true, Listed, Listed, true, 0)

  datatype State = State(
    live: set<Conn>,
    clients: map<Conn, Client>,
    exiting: bool,                    // the map's destructor has begun
    mapCorrupted: bool,               // an entry was erased from the map meanwhile
    deadUsed: bool)                   // a callback was taken off the list of a connection that is gone

  datatype Step =
    | Connect(k: Conn) | Enter(k: Conn) | Exit        // Enter: SetThread
    | Destroy(k: Conn) | First(k: Conn) | Second(k: Conn)
    | Break(k: Conn)

  predicate Enabled(s: State, step: Step) {
    match step
    case Connect(k) => k !in s.live && k !in s.clients
    case Enter(k) => k in s.live && k !in s.clients && !s.exiting
    case Exit => !s.exiting
    case Destroy(k) =>
      && s.exiting && k in s.clients && s.clients[k].phase.InMap?
      && forall j :: j in s.clients ==> !s.clients[j].phase.Waiting1? && !s.clients[j].phase.Waiting2?
    case First(k) => k in s.clients && s.clients[k].phase.Waiting1?
    case Second(k) => k in s.clients && s.clients[k].phase.Waiting2?
    case Break(k) => k in s.live
  }

  function Apply(s: State, step: Step): State
    requires Enabled(s, step)
  {
    match step
    case Connect(k) => s.(live := s.live + {k})
    case Enter(k) => s.(clients := s.clients[k := NEW_CLIENT])
    case Exit => s.(exiting := true)
    case Destroy(k) =>
      var c := s.clients[k];
      s.(clients := s.clients[k := c.(phase := Waiting1, destructors := c.destructors + 1)])
    case First(k) =>
      // m_disconnect_cb is tested again: the callback may have run in the meantime.
      var c := s.clients[k];
      var removes := c.forget.Listed?;
      s.(clients := s.clients[k := c.(phase := Waiting2, forget := if removes then Removed else c.forget)],
         deadUsed := s.deadUsed || (removes && k !in s.live))
    case Second(k) =>
      // CleanupRun pops the function before it calls it.
      var c := s.clients[k];
      var removes := c.cleanup && c.connected;
      var detach := if removes then Removed else c.detach;
      s.(clients := s.clients[k := c.(phase := Gone, cleanup := false, detach := detach)],
         deadUsed := s.deadUsed || (removes && k !in s.live))
    case Break(k) =>
      if k !in s.clients then s.(live := s.live - {k})
      else
        var c := s.clients[k];
        var erases := c.forget.Listed?;
        s.(live := s.live - {k},
           clients := s.clients[k := Broken(c)],
           mapCorrupted := s.mapCorrupted || (erases && s.exiting))
  }

  /**
  ~Connection. The callback that erases the entry comes first and destroys the client, which takes the
  other callback off the list.
  */
  function Broken(c: Client): Client {
    if c.forget.Listed? then
      c.(forget := Ran, detach := Removed, cleanup := false, destructors := c.destructors + 1,
         phase := if c.phase.InMap? then Gone else c.phase)
    else if c.detach.Listed? then c.(detach := Ran, connected := false)
    else c
  }

  const INITIAL := State({}, map[], false, false, false)

  ghost predicate IsRun(states: seq<State>, steps: seq<Step>) {
    && |states| == |steps| + 1 && states[0] == INITIAL
    && forall i :: 0 <= i < |steps| ==> Enabled(states[i], steps[i]) && states[i + 1] == Apply(states[i], steps[i])
  }

  // ----- What should hold -----------------------------------------------------------------

  /** No client is destroyed twice, and no entry erased under the map's destructor. */
  ghost predicate Safe(s: State) {
    !s.mapCorrupted && forall k :: k in s.clients ==> s.clients[k].destructors <= 1
  }

  /**
  While the thread destroys its map, a connection breaks whose entry is still waiting for its turn, or for
  the first of its functions.
  */
  predicate Interrupts(s: State, step: Step) {
    step.Break? && s.exiting && step.k in s.clients &&
    (s.clients[step.k].phase.InMap? || s.clients[step.k].phase.Waiting1?)
  }

  ghost predicate ClientOk(s: State, k: Conn)
    requires k in s.clients
  {
    var c := s.clients[k];
    match c.phase
    case InMap => c == NEW_CLIENT && k in s.live
    case Waiting1 => c == NEW_CLIENT.(phase := Waiting1, destructors := 1) && k in s.live && s.exiting
    case Waiting2 =>
      && c.forget.Removed? && c.destructors == 1 && s.exiting && c.cleanup
      && (if c.connected then c.detach.Listed? && k in s.live else c.detach.Ran?)
    case Gone => !c.forget.Listed? && !c.detach.Listed? && c.destructors == 1
  }

  ghost predicate Inv(s: State) {
    Safe(s) && forall k :: k in s.clients ==> ClientOk(s, k)
  }

  lemma InvStep(s: State, step: Step)
    requires Inv(s) && Enabled(s, step) && !Interrupts(s, step)
    ensures Inv(Apply(s, step))
  {
    var s' := Apply(s, step);
    forall k | k in s'.clients ensures ClientOk(s', k) && s'.clients[k].destructors <= 1 {
      assert k in s.clients ==> ClientOk(s, k);
    }
  }

  lemma InterruptedUnsafe(s: State, step: Step)
    requires Inv(s) && Enabled(s, step) && Interrupts(s, step)
    ensures !Safe(Apply(s, step))
  {
    assert ClientOk(s, step.k);
  }

  lemma {:induction false} RunInv(states: seq<State>, steps: seq<Step>, n: nat)
    requires IsRun(states, steps) && n < |states|
    requires forall i :: 0 <= i < n ==> !Interrupts(states[i], steps[i])
    ensures Inv(states[n])
  {
    if n > 0 {
      RunInv(states, steps, n - 1);
      InvStep(states[n - 1], steps[n - 1]);
    }
  }

  // ----- All runs ---------------------------------------------------------------------------

  lemma FirstInterruption(states: seq<State>, steps: seq<Step>, n: nat) returns (m: nat)
    requires IsRun(states, steps) && n < |steps| && Interrupts(states[n], steps[n])
    ensures m <= n && Interrupts(states[m], steps[m])
    ensures forall i :: 0 <= i < m ==> !Interrupts(states[i], steps[i])
  {
    m := 0;
    while !Interrupts(states[m], steps[m])
      invariant m <= n && forall i :: 0 <= i < m ==> !Interrupts(states[i], steps[i])
      decreases n - m
    {
      m := m + 1;
    }
  }

  /**
  Over every run: nothing is destroyed twice, or erased from under the map's destructor, if and only if no
  connection breaks while its entry is waiting, in a map that is being destroyed, for its destructor or for
  the first function of that.
  */
  lemma SafeIffNotInterrupted(states: seq<State>, steps: seq<Step>)
    requires IsRun(states, steps)
    ensures (forall i :: 0 <= i < |states| ==> Safe(states[i])) <==>
            (forall i :: 0 <= i < |steps| ==> !Interrupts(states[i], steps[i]))
  {
    if n :| 0 <= n < |steps| && Interrupts(states[n], steps[n]) {
      var m := FirstInterruption(states, steps, n);
      RunInv(states, steps, m);
      InterruptedUnsafe(states[m], steps[m]);
      assert !Safe(states[m + 1]);
    } else {
      forall i | 0 <= i < |states| ensures Safe(states[i]) {
        RunInv(states, steps, i);
      }
    }
  }

  /** A break between the two functions is harmless: every callback has run or been removed when all is over. */
  lemma AccountedAtExit(states: seq<State>, steps: seq<Step>, k: Conn)
    requires IsRun(states, steps) && forall i :: 0 <= i < |steps| ==> !Interrupts(states[i], steps[i])
    requires var s := states[|steps|]; k in s.clients && s.clients[k].phase.Gone?
    ensures var c := states[|steps|].clients[k];
            !c.forget.Listed? && !c.detach.Listed? && c.destructors == 1
  {
    RunInv(states, steps, |steps|);
    assert ClientOk(states[|steps|], k);
  }

  /** While a callback is on its list, and somebody will take it off, the connection is there. */
  ghost predicate ListedOk(s: State, k: Conn)
    requires k in s.clients
  {
    var c := s.clients[k];
    && (c.forget.Listed? ==> k in s.live && c.detach.Listed? && (c.phase.InMap? || c.phase.Waiting1?))
    && (c.cleanup && c.connected ==> k in s.live && c.detach.Listed?)
  }

  ghost predicate ListsLive(s: State) {
    !s.deadUsed && forall k :: k in s.clients ==> ListedOk(s, k)
  }

  lemma ListsLiveStep(s: State, step: Step)
    requires ListsLive(s) && Enabled(s, step)
    ensures ListsLive(Apply(s, step))
  {
    var s' := Apply(s, step);
    forall k | k in s'.clients ensures ListedOk(s', k) {
      assert k in s.clients ==> ListedOk(s, k);
    }
  }

  lemma {:induction false} ListsLiveInv(states: seq<State>, steps: seq<Step>, n: nat)
    requires IsRun(states, steps) && n < |states|
    ensures ListsLive(states[n])
  {
    if n > 0 {
      ListsLiveInv(states, steps, n - 1);
      ListsLiveStep(states[n - 1], steps[n - 1]);
    }
  }

  /** In no run, interrupted or not, is a callback taken off the list of a connection that is gone. */
  lemma DeadConnectionNeverUsed(states: seq<State>, steps: seq<Step>)
    requires IsRun(states, steps)
    ensures forall i :: 0 <= i < |states| ==> !states[i].deadUsed
  {
    forall i | 0 <= i < |states| ensures !states[i].deadUsed {
      ListsLiveInv(states, steps, i);
    }
  }

  /**
  The connection breaks when the exiting thread is inside the destructor and its first function has not run:
  the callback of the connection destroys the client a second time, under the thread's feet.
  */
  lemma DestroyedTwice() returns (states: seq<State>, steps: seq<Step>)
    ensures IsRun(states, steps) && |steps| == 5
    ensures Interrupts(states[4], steps[4]) && 1 in states[5].clients
    ensures states[4].clients[1].phase.Waiting1? && states[5].clients[1].destructors == 2
  {
    steps := [Connect(1), Enter(1), Exit, Destroy(1), Break(1)];
    var s1 := Apply(INITIAL, steps[0]);
    var s2 := Apply(s1, steps[1]);
    var s3 := Apply(s2, steps[2]);
    var s4 := Apply(s3, steps[3]);
    states := [INITIAL, s1, s2, s3, s4, Apply(s4, steps[4])];
  }
}
