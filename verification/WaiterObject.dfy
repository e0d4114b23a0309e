/** The one-element task queue of a thread: `Waiter::post` and the loop inside `Waiter::wait`. */
module WaiterObject {
  import opened Base

  /**
  What one evaluation of the wait predicate executes: the function in the slot,
  then whatever was posted while it ran, until nothing was.
  */
  function Served(fn: Option<nat>, refills: seq<Option<nat>>): seq<nat>
    decreases |refills|
  {
    if fn.None? then []
    else [fn.value] + (if refills == [] then [] else Served(refills[0], refills[1..]))
  }

  class Waiter {
    var fn: Option<nat>      // m_fn

    constructor ()
      ensures fn.None?
    {
      fn := None;
    }

    method Post(f: nat) returns (posted: bool)
      modifies this
      ensures posted == old(fn.None?)
      ensures fn == if posted then Some(f) else old(fn)
    {
      if fn.Some? {
        return false;
      }
      fn := Some(f);
      return true;
    }

    /**
    `while (m_fn)`: `refills[i]` is what other threads posted while the i-th
    function ran with the mutex released, its notification unheard.
    */
    method RunPosted(refills: seq<Option<nat>>) returns (ran: seq<nat>)
      modifies this
      ensures fn.None?
      ensures ran == Served(old(fn), refills)
    {
      ran := [];
      var left := refills;
      while fn.Some?
        invariant Served(old(fn), refills) == ran + Served(fn, left)
        decreases |left| + B2N(fn.Some?)
      {
        var f := fn.value;
        fn := None;
        ran := ran + [f];
        if left != [] {
          fn := left[0];
          left := left[1..];
        }
      }
    }
  }

  /** Nothing posted in an unbroken sequence is left behind, and the order is kept. */
  lemma {:induction false} EverythingIsServed(f: nat, refills: seq<Option<nat>>, n: nat)
    requires n <= |refills| && forall i | 0 <= i < n :: refills[i].Some?
    requires n == |refills| || refills[n].None?
    ensures |Served(Some(f), refills)| == n + 1
    ensures Served(Some(f), refills)[0] == f
    ensures forall i | 0 <= i < n :: Served(Some(f), refills)[i + 1] == refills[i].value
    decreases n
  {
    if n > 0 {
      EverythingIsServed(refills[0].value, refills[1..], n - 1);
      var rest := Served(refills[0], refills[1..]);
      assert Served(Some(f), refills) == [f] + rest;
      forall i | 0 <= i < n ensures ([f] + rest)[i + 1] == refills[i].value {
        if i > 0 {
          assert refills[1..][i - 1] == refills[i];
        }
      }
    }
  }
}
