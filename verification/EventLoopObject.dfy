/**
The fields of `EventLoop` guarded by `m_mutex`, and its critical sections: each
method is the code one thread runs between taking and releasing the mutex. The
functions on `Guarded` say what such a section does to the guarded fields; the
interleaving of sections by many threads is the subject of EventLoopProtocol.
*/
module EventLoopObject {
  import opened Base

  type Tid = nat          // a thread; also the address of the function it is posting
  type CleanupId = nat

  /** What the loop does with a byte in hand. */
  datatype Turn = Execute(t: Tid) | Leave | ReadAgain

  datatype Guarded = Guarded(
    postFn: Option<Tid>,                // m_post_fn
    asyncFns: Option<seq<CleanupId>>,   // m_async_fns
    numClients: int,                    // m_num_clients
    waitFd: int,                        // m_wait_fd
    postFd: int)                        // m_post_fd
  {
    predicate IsDone() {
      numClients == 0 && asyncFns.Some? && asyncFns.value == []
    }

    function Begin(): Guarded {
      this.(asyncFns := Some([]))
    }

    function AddRef(): Guarded {
      this.(numClients := numClients + 1)
    }

    function DropRef(): Guarded {
      this.(numClients := numClients - 1)
    }

    function TryFill(t: Tid): Guarded {
      if postFn.None? then this.(postFn := Some(t)) else this
    }

    function WakeUp(): Turn {
      if postFn.Some? then Execute(postFn.value) else if IsDone() then Leave else ReadAgain
    }

    function FinishPost(): Guarded {
      this.(postFn := None)
    }

    function AddAsync(fn: CleanupId): Guarded
      requires asyncFns.Some?
    {
      this.(asyncFns := Some(asyncFns.value + [fn]))
    }

    predicate HasAsync() {
      asyncFns.Some? && asyncFns.value != []
    }

    /** The oldest cleanup function leaves the queue, for a new reference. */
    function TakeAsync(): Guarded
      requires HasAsync()
    {
      this.(numClients := numClients + 1, asyncFns := Some(asyncFns.value[1..]))
    }

    function End(): Guarded {
      this.(asyncFns := None, waitFd := -1, postFd := -1)
    }
  }

  /** The loop leaves only if there is nothing to execute, no reference, and no cleanup function. */
  lemma WakeUpIs(g: Guarded)
    ensures g.WakeUp() == Leave <==> g.postFn == None && g.numClients == 0 && g.asyncFns == Some([])
    ensures g.WakeUp().Execute? <==> g.postFn.Some?
    ensures g.WakeUp().Execute? ==> g.postFn == Some(g.WakeUp().t)
  {
  }

  class EventLoop {
    var postFn: Option<Tid>
    var asyncFns: Option<seq<CleanupId>>
    var numClients: int
    var asyncThread: bool    // m_async_thread.joinable()
    var waitFd: int
    var postFd: int

    ghost function View(): Guarded
      reads this
    {
      Guarded(postFn, asyncFns, numClients, waitFd, postFd)
    }

    constructor (fd0: nat, fd1: nat)
      ensures View() == Guarded(None, None, 0, fd0, fd1) && !asyncThread
    {
      postFn, asyncFns, numClients, asyncThread := None, None, 0, false;
      waitFd, postFd := fd0, fd1;
    }

    /** First section of `loop()`. */
    method Begin()
      requires asyncFns.None?
      modifies this`asyncFns
      ensures View() == old(View()).Begin()
    {
      asyncFns := Some([]);
    }

    /** `EventLoopRef` constructor. */
    method AddRef()
      modifies this`numClients
      ensures View() == old(View()).AddRef()
    {
      numClients := numClients + 1;
    }

    /** `EventLoop::done`. The queue is looked at only if there are no references. */
    method Done() returns (done: bool)
      requires numClients >= 0 && (numClients == 0 ==> asyncFns.Some?)
      ensures done == View().IsDone()
    {
      done := numClients == 0 && |asyncFns.value| == 0;
    }

    /** `EventLoopRef::reset`: true tells the caller to notify, unlock and write one byte. */
    method Reset() returns (announce: bool)
      requires numClients > 0 && (numClients == 1 ==> asyncFns.Some?)
      modifies this`numClients
      ensures View() == old(View()).DropRef()
      ensures announce == View().IsDone()
    {
      numClients := numClients - 1;
      announce := Done();
    }

    /** Slot section of `post`: one evaluation of the wait predicate and, if it holds, the fill. */
    method TryFill(t: Tid) returns (filled: bool)
      modifies this`postFn
      ensures View() == old(View()).TryFill(t)
      ensures filled == old(postFn.None?)
    {
      filled := postFn.None?;
      if filled {
        postFn := Some(t);
      }
    }

    /** Section of `loop()` entered with a byte in hand: what to run, or whether to leave. */
    method WakeUp() returns (turn: Turn)
      requires numClients >= 0 && (numClients == 0 ==> asyncFns.Some?)
      ensures turn == View().WakeUp()
    {
      if postFn.Some? {
        return Execute(postFn.value);
      }
      var done := Done();
      turn := if done then Leave else ReadAgain;
    }

    /** Section after the posted function: the slot is emptied and everybody notified. */
    method FinishPost()
      modifies this`postFn
      ensures View() == old(View()).FinishPost()
    {
      postFn := None;
    }

    /** `addAsyncCleanup` with `startAsyncThread`. */
    method AddAsyncCleanup(fn: CleanupId) returns (notify: bool)
      requires asyncFns.Some?
      modifies this`asyncFns, this`asyncThread
      ensures View() == old(View()).AddAsync(fn)
      ensures asyncThread && notify == old(asyncThread)
    {
      asyncFns := Some(asyncFns.value + [fn]);
      notify := asyncThread;
      if !asyncThread && |asyncFns.value| != 0 {
        asyncThread := true;
      }
    }

    /** One turn of the asynchronous thread: take a reference and the oldest function. */
    method TakeAsync() returns (fn: Option<CleanupId>)
      modifies this`asyncFns, this`numClients
      ensures fn == if old(View()).HasAsync() then Some(old(asyncFns).value[0]) else None
      ensures View() == if fn.Some? then old(View()).TakeAsync() else old(View())
    {
      fn := None;
      if asyncFns.Some? && |asyncFns.value| != 0 {
        AddRef();
        fn := Some(asyncFns.value[0]);
        asyncFns := Some(asyncFns.value[1..]);
      }
    }

    /** Last section of `loop()`. */
    method End()
      modifies this`asyncFns, this`waitFd, this`postFd
      ensures View() == old(View()).End()
    {
      waitFd, postFd, asyncFns := -1, -1, None;
    }
  }
}
