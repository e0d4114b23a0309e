/** `TryFinally`: a function and a follow-up that runs whether or not the function throws. */
module TryFinally {
  import opened Base

  /** What leaves: the follow-up's exception if it throws, else the function's own. */
  function Leaves<E>(fn: Option<E>, after: Option<E>): Option<E> {
    if after.Some? then after else fn
  }

  /**
  The control flow, with exceptions as values: `fn` is what the function throws, `after(k)` what the
  follow-up throws when it runs for the k-th time. The follow-up may throw inside the `try`, and what it
  throws is caught there by the same `catch (...)` as what the function throws.
  */
  method Run<E>(fn: Option<E>, after: nat -> Option<E>) returns (thrown: Option<E>, runs: nat)
    ensures runs == 1
    ensures thrown == Leaves(fn, after(0))
  {
    var success := false;
    runs := 0;
    var caught := fn;                  // try
    if caught.None? {
      success := true;
      caught := after(runs);
      runs := runs + 1;
      if caught.None? {
        return None, runs;
      }
    }
    if !success {                      // catch (...)
      var e := after(runs);
      runs := runs + 1;
      if e.Some? {
        return e, runs;
      }
    }
    return caught, runs;               // throw;
  }
}
