/**
`CancelMonitor` and `CancelProbe`: two objects on two sides of a promise that
point to each other and may be destroyed in either order, on the event loop
thread. The callback m_on_cancel is represented by whether it is set; a method
that would call it returns true.
*/
module CancelMonitor {

  /** The pair as the request knows it: who is still there, m_canceled, and whether m_on_cancel is set. */
  datatype Link = Link(monitorAlive: bool, probeAlive: bool, canceled: bool, onCancel: bool) {
    function SetCallback(installed: bool): Link {
      this.(onCancel := installed)
    }

    /** The end of the promise calls m_on_cancel. */
    predicate Calls() {
      monitorAlive && onCancel
    }

    /** The promise is destroyed; that cancels the request unless the monitor is gone. */
    function DestroyProbe(): Link {
      this.(probeAlive := false, canceled := canceled || monitorAlive)
    }

    function DestroyMonitor(): Link {
      this.(monitorAlive := false)
    }
  }

  const LINKED := Link(true, true, false, false)

  /** The two objects, as long as they are there, are in the state `l`. */
  ghost predicate Represents(l: Link, m: Monitor, p: Probe)
    reads m, p
  {
    && (l.probeAlive ==> p.monitor == if l.monitorAlive then m else null)
    && (l.monitorAlive ==>
          m.probe == (if l.probeAlive then p else null) && m.canceled == l.canceled && m.onCancel == l.onCancel)
  }

  class Monitor {
    var canceled: bool
    var onCancel: bool
    var probe: Probe?

    constructor ()
      ensures !canceled && !onCancel && probe == null
    {
      canceled, onCancel, probe := false, false, null;
    }

    /** What `~CancelMonitor` and `promiseDestroyed` assert. */
    ghost predicate Linked()
      reads this, probe
    {
      probe != null ==> probe.monitor == this
    }

    /** `~CancelMonitor`: from now on destroying the probe does nothing. */
    method Destroy()
      requires Linked()
      modifies this`probe, probe
      ensures probe == null
      ensures old(probe) != null ==> old(probe).monitor == null
    {
      if probe != null {
        probe.monitor := null;
        probe := null;
      }
    }

    /** `promiseDestroyed`. */
    method PromiseDestroyed(p: Probe) returns (callback: bool)
      requires probe == p
      modifies this`canceled, this`probe
      ensures canceled && probe == null && callback == onCancel
    {
      canceled := true;
      callback := onCancel;
      probe := null;
    }
  }

  class Probe {
    var monitor: Monitor?

    ghost predicate Linked()
      reads this, monitor
    {
      monitor != null ==> monitor.probe == this
    }

    constructor (m: Monitor)
      requires m.probe == null
      modifies m`probe
      ensures monitor == m && m.probe == this && Linked() && m.Linked()
    {
      monitor := m;
      new;
      m.probe := this;
    }

    /** `~CancelProbe`: cancels exactly if the monitor is still there. */
    method Destroy() returns (callback: bool)
      requires Linked()
      modifies monitor
      ensures callback == (monitor != null && old(monitor != null && monitor.onCancel))
      ensures monitor != null ==> monitor.canceled && monitor.probe == null && monitor.onCancel == callback
    {
      callback := false;
      if monitor != null {
        callback := monitor.PromiseDestroyed(this);
      }
    }
  }

  method DestroyProbe(ghost l: Link, m: Monitor, p: Probe) returns (callback: bool)
    requires Represents(l, m, p) && l.probeAlive
    modifies m, p
    ensures callback == l.Calls() && Represents(l.DestroyProbe(), m, p)
  {
    callback := p.Destroy();
  }

  method DestroyMonitor(ghost l: Link, m: Monitor, p: Probe)
    requires Represents(l, m, p) && l.monitorAlive
    modifies m, p
    ensures Represents(l.DestroyMonitor(), m, p)
  {
    m.Destroy();
  }

  /** A request that completes: the monitor goes first, and the promise's end cancels nothing. */
  method Complete(onCancel: bool) returns (callback: bool, canceled: bool)
    ensures !callback && !canceled
  {
    var m := new Monitor();
    var p := new Probe(m);
    m.onCancel := onCancel;
    m.Destroy();
    callback := p.Destroy();
    canceled := m.canceled;
  }

  /** A request that is canceled: the promise goes first, and the callback runs if installed. */
  method CancelFirst(onCancel: bool) returns (callback: bool, canceled: bool)
    ensures callback == onCancel && canceled
  {
    var m := new Monitor();
    var p := new Probe(m);
    m.onCancel := onCancel;
    callback := p.Destroy();
    canceled := m.canceled;
    m.Destroy();
  }
}
