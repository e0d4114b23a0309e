/**
How a `ProxyServerBase` lets go of the implementation it wraps: synchronously in
`invokeDestroy`, or through a function for the asynchronous thread when it is
destroyed without that. Calls of user code are recorded in a log.
*/
module ServerCleanup {
  import opened Base

  datatype Event = Released | Cleaned(fn: nat)

  function Cleaning(fns: seq<nat>): seq<Event> {
    seq(|fns|, i requires 0 <= i < |fns| => Cleaned(fns[i]))
  }

  /** `CleanupRun`: pops and calls from the front until the list is empty. */
  method CleanupRun(fns: seq<nat>, log: seq<Event>) returns (log': seq<Event>)
    ensures log' == log + Cleaning(fns)
    ensures |log'| == |log| + |fns| && forall k :: 0 <= k < |fns| ==> log'[|log| + k] == Cleaned(fns[k])
  {
    var left := fns;
    log' := log;
    while left != []
      invariant |left| <= |fns| && left == fns[|fns| - |left|..]
      invariant log' == log + Cleaning(fns[..|fns| - |left|])
      decreases |left|
    {
      var fn := left[0];
      left := left[1..];
      log' := log' + [Cleaned(fn)];
    }
    assert fns[..|fns|] == fns;
  }

  class ProxyServer {
    var impl: bool               // m_impl is set
    var cleanupFns: seq<nat>     // m_context.cleanup_fns
    var log: seq<Event>

    constructor (fns: seq<nat>)
      ensures impl && cleanupFns == fns && log == []
    {
      impl, cleanupFns, log := true, fns, [];
    }

    method InvokeDestroy()
      modifies this
      ensures !impl && cleanupFns == []
      ensures log == old(log) + (if old(impl) then [Released] else []) + Cleaning(old(cleanupFns))
    {
      if impl {
        log := log + [Released];
      }
      impl := false;
      log := CleanupRun(cleanupFns, log);
      cleanupFns := [];
    }

    /**
    `~ProxyServerBase`. With an implementation left, both it and the cleanup
    functions move into one function for the asynchronous thread; either way
    the assertion that no cleanup function is left holds.
    */
    method Destroy() returns (async: Option<seq<nat>>)
      requires impl || cleanupFns == []
      modifies this
      ensures !impl && cleanupFns == [] && log == old(log)
      ensures async == if old(impl) then Some(old(cleanupFns)) else None
    {
      async := None;
      if impl {
        async := Some(cleanupFns);
        impl, cleanupFns := false, [];
      }
    }
  }

  /** The function given to `addAsyncCleanup`. */
  method RunAsync(fns: seq<nat>, log: seq<Event>) returns (log': seq<Event>)
    ensures log' == log + [Released] + Cleaning(fns)
  {
    log' := CleanupRun(fns, log + [Released]);
  }

  /**
  However often a client asks for destruction before the server object goes,
  the implementation is released exactly once, before the cleanup functions,
  and those run once each, in order.
  */
  method Lifetime(fns: seq<nat>, destroys: nat) returns (log: seq<Event>)
    ensures |log| == 1 + |fns| && log[0] == Released
    ensures forall k :: 0 <= k < |fns| ==> log[1 + k] == Cleaned(fns[k])
  {
    var server := new ProxyServer(fns);
    var i := 0;
    while i < destroys
      invariant i <= destroys
      invariant if i == 0 then server.impl && server.cleanupFns == fns && server.log == []
                else !server.impl && server.cleanupFns == [] && server.log == [Released] + Cleaning(fns)
    {
      server.InvokeDestroy();
      i := i + 1;
    }
    var async := server.Destroy();
    log := server.log;
    if async.Some? {
      log := RunAsync(async.value, log);
    }
  }
}
