/**
A proxied method call: the client's field objects build the request, the server's
nested handlers read it, call the method and build the reply, and the client's
field objects read that back. Compared with calling the method directly.

The fields of a method come in the order parameters, exceptions, result. With a
parameter later the numberings disagree (see ArgumentNumbering), and with an
exception after the result `ServerRet` has the void `ServerExcept::invoke` as its
parent, which does not compile. A field is known here by its build and read
functions; `CodecCalls` supplies them.
*/
module RemoteCall {
  import opened Base
  import opened Codec

  // ----- Methods ----------------------------------------------------------------------------

  /** A message field as code sees it: the values of its C++ type, building, reading and `has`. */
  datatype Link = Link(
    holds: Value -> bool,
    build: Value -> Slot,
    read: Slot -> Option<Value>,
    has: Slot -> bool,
    blank: Value)

  /** Values arrive; whatever is read, even from an unset field, is of the type. */
  ghost predicate LinkOk(l: Link) {
    && (forall v :: l.holds(v) ==> l.read(l.build(v)) == Some(v))
    && (forall s :: l.read(s).Some? ==> l.holds(l.read(s).value))
    && l.read(UNSET).Some?
    && l.holds(l.blank)
  }

  /** A C++ parameter and its accessor. */
  datatype Param = Param(link: Link, input: bool, output: bool, pointer: bool, requested: bool)

  /**
  A result field with an exception annotation, the class it names, which the server catches, and the class
  the client throws: the same, except std::runtime_error for std::exception.
  */
  datatype Handler = Handler(kind: nat, thrown: nat, link: Link)

  datatype Signature = Signature(params: seq<Param>, handlers: seq<Handler>, result: Option<Link>)

  datatype Actual = Plain(v: Value) | Null | Ptr(v: Value)

  datatype Exn = Exn(kind: nat, payload: Value)

  /** What the method does: the final values of its parameters, and its result or exception. */
  datatype Outcome = Outcome(finals: seq<Actual>, end: End)

  datatype End = Returned(result: Option<Value>) | Threw(e: Exn)

  type Impl = seq<Actual> -> Outcome

  /** Surroundings: class hierarchy, conversion of exceptions to a declared class, uninitialized pointees. */
  datatype Env = Env(isA: (nat, nat) -> bool, slice: (nat, Exn) -> Value, junk: nat -> Value)

  datatype Surroundings = World(sig: Signature, env: Env)

  ghost predicate ParamOk(w: Surroundings, i: nat)
    requires i < |w.sig.params|
  {
    LinkOk(w.sig.params[i].link) && w.sig.params[i].link.holds(w.env.junk(i))
  }

  ghost predicate HandlerOk(w: Surroundings, j: nat)
    requires j < |w.sig.handlers|
  {
    LinkOk(w.sig.handlers[j].link) && forall e :: w.sig.handlers[j].link.holds(w.env.slice(w.sig.handlers[j].kind, e))
  }

  /** A method whose codecs work, in matching surroundings. */
  type World = w: Surroundings |
    && (forall i :: 0 <= i < |w.sig.params| ==> ParamOk(w, i))
    && (forall j :: 0 <= j < |w.sig.handlers| ==> HandlerOk(w, j))
    && (w.sig.result.Some? ==> LinkOk(w.sig.result.value))
    ghost witness World(Signature([], [], None), Env((a, b) => a == b, (_, _) => Num(0), _ => Num(0)))

  predicate ActualOk(p: Param, a: Actual) {
    if p.pointer then !a.Plain? && (a.Ptr? ==> p.link.holds(a.v))
    else a.Plain? && p.link.holds(a.v)
  }

  predicate ActualsOk(sig: Signature, args: seq<Actual>) {
    |args| == |sig.params| && forall i :: 0 <= i < |args| ==> ActualOk(sig.params[i], args[i])
  }

  /** The method cannot change its callers' pointers, only what they point to. */
  predicate OutcomeOk(sig: Signature, args: seq<Actual>, out: Outcome) {
    && ActualsOk(sig, out.finals) && |args| == |out.finals|
    && (forall i :: 0 <= i < |args| ==> (out.finals[i].Null? <==> args[i].Null?))
    && (out.end.Returned? ==>
          && out.end.result.Some? == sig.result.Some?
          && (sig.result.Some? ==> sig.result.value.holds(out.end.result.value)))
  }

  ghost predicate ImplOk(sig: Signature, impl: Impl) {
    forall args :: ActualsOk(sig, args) ==> OutcomeOk(sig, args, impl(args))
  }

  /** What the caller gets to see. */
  datatype Observed = Observed(args: seq<Actual>, how: How)

  datatype How = Result(value: Option<Value>) | Exception(e: Exn) | RangeError | RemoteFailure

  // ----- The direct call -----------------------------------------------------------------------

  /** Output-only parameters start out as new objects. */
  function Initial(p: Param, a: Actual, junk: Value): Actual {
    if p.input || a.Null? then a
    else if p.pointer then Ptr(junk)
    else Plain(p.link.blank)
  }

  function Initials(w: World, args: seq<Actual>): (r: seq<Actual>)
    requires ActualsOk(w.sig, args)
    ensures ActualsOk(w.sig, r)
  {
    assert forall i :: 0 <= i < |args| ==> ParamOk(w, i) && ActualOk(w.sig.params[i], args[i]);
    seq(|args|, i requires 0 <= i < |args| => Initial(w.sig.params[i], args[i], w.env.junk(i)))
  }

  /** Only output parameters are visible to the caller afterwards. */
  function Visible(sig: Signature, args: seq<Actual>, finals: seq<Actual>): seq<Actual>
    requires |args| == |sig.params| == |finals|
  {
    seq(|args|, i requires 0 <= i < |args| => if sig.params[i].output then finals[i] else args[i])
  }

  /** Calling the method itself: whatever it throws reaches the caller. */
  ghost function LocalCall(w: World, args: seq<Actual>, impl: Impl): Observed
    requires ActualsOk(w.sig, args) && ImplOk(w.sig, impl)
  {
    var out := impl(Initials(w, args));
    Observed(Visible(w.sig, args, out.finals),
             match out.end case Returned(v) => Result(v) case Threw(e) => Exception(e))
  }

  /** An exception as `catch` clauses for the declared classes see it: which of them match, and what each gets. */
  function View(w: World, e: Exn): seq<Option<Value>> {
    seq(|w.sig.handlers|, j requires 0 <= j < |w.sig.handlers| =>
      var kind := w.sig.handlers[j].kind;
      if w.env.isA(e.kind, kind) then Some(w.env.slice(kind, e)) else None)
  }

  /** A caller that knows the declared classes cannot tell the two apart. */
  predicate Alike(w: World, a: Observed, b: Observed) {
    && a.args == b.args
    && if a.how.Exception? && b.how.Exception? then View(w, a.how.e) == View(w, b.how.e) else a.how == b.how
  }

  // ----- The request ---------------------------------------------------------------------------

  datatype ParamSlot = ParamSlot(want: bool, slot: Slot)

  /** `ClientParam::BuildParams`: `setWant` for a pointer that is not null, and the value of an input. */
  function BuiltParam(p: Param, a: Actual): ParamSlot {
    ParamSlot(p.pointer && p.requested && !a.Null?, if p.input && !a.Null? then p.link.build(a.v) else UNSET)
  }

  function Request(sig: Signature, args: seq<Actual>): (r: seq<ParamSlot>)
    requires |args| == |sig.params|
    ensures |r| == |sig.params|
  {
    seq(|args|, i requires 0 <= i < |args| => BuiltParam(sig.params[i], args[i]))
  }

  // ----- The server ------------------------------------------------------------------------------

  datatype Results = Results(outs: seq<Slot>, errors: seq<Slot>, value: Slot)

  predicate ResultsOk(sig: Signature, r: Results) {
    |r.outs| == |sig.params| && |r.errors| == |sig.handlers|
  }

  function NoResults(sig: Signature): (r: Results)
    ensures ResultsOk(sig, r)
  {
    Results(seq(|sig.params|, _ => UNSET), seq(|sig.handlers|, _ => UNSET), UNSET)
  }

  /** How far a handler got: the reply so far, the parameters, and what is being thrown. */
  datatype Reply = Reply(results: Results, finals: seq<Actual>, raised: Raised)

  datatype Raised = Nothing | FromMethod(e: Exn) | OutOfRange

  predicate ReplyOk(sig: Signature, r: Reply) {
    ResultsOk(sig, r.results) && (r.raised.Nothing? ==> ActualsOk(sig, r.finals))
  }

  /** The handler of an exception: the last, that is innermost, whose class is a base of it. */
  function Caught(w: World, kind: nat, from: nat): (j: nat)
    requires from <= |w.sig.handlers|
    ensures from <= j <= |w.sig.handlers|
    ensures j < |w.sig.handlers| ==> w.env.isA(kind, w.sig.handlers[j].kind)
    ensures forall k :: from <= k < |w.sig.handlers| && w.env.isA(kind, w.sig.handlers[k].kind) ==>
              k <= j < |w.sig.handlers|
    decreases |w.sig.handlers| - from
  {
    if from == |w.sig.handlers| then from
    else
      var j := Caught(w, kind, from + 1);
      if j == |w.sig.handlers| && w.env.isA(kind, w.sig.handlers[from].kind) then from else j
  }

  /** The parameter that `PassField` creates, or None if its value is out of range. */
  function PassIn(w: World, i: nat, ps: ParamSlot): (r: Option<Actual>)
    requires i < |w.sig.params|
    ensures r.Some? ==> ActualOk(w.sig.params[i], r.value)
  {
    assert ParamOk(w, i);
    var p := w.sig.params[i];
    if p.pointer && p.requested && !ps.want then Some(Null)
    else
      var v := if p.input then p.link.read(ps.slot) else Some(if p.pointer then w.env.junk(i) else p.link.blank);
      if v.None? then None else Some(if p.pointer then Ptr(v.value) else Plain(v.value))
  }

  /** The next `ServerField`, and all handlers inside it. */
  ghost function ServerFields(w: World, impl: Impl, request: seq<ParamSlot>, passed: seq<Actual>): (r: Reply)
    requires ImplOk(w.sig, impl) && |request| == |w.sig.params|
    requires |passed| <= |w.sig.params| && forall i :: 0 <= i < |passed| ==> ActualOk(w.sig.params[i], passed[i])
    ensures ReplyOk(w.sig, r)
    decreases |w.sig.params| - |passed|
  {
    var i := |passed|;
    if i == |w.sig.params| then ServerExcepts(w, impl, passed, 0)
    else
      var a := PassIn(w, i, request[i]);
      if a.None? then Reply(NoResults(w.sig), passed, OutOfRange)
      else PassOut(w, i, a.value, ServerFields(w, impl, request, passed + [a.value]))
  }

  /** After the call, `PassField` adds the final value of its parameter to the results. */
  function PassOut(w: World, i: nat, a: Actual, inner: Reply): (r: Reply)
    requires i < |w.sig.params| && ReplyOk(w.sig, inner)
    ensures ReplyOk(w.sig, r)
  {
    var p := w.sig.params[i];
    if !inner.raised.Nothing? || !p.output || a.Null? || inner.finals[i].Null? then inner
    else inner.(results := inner.results.(outs := inner.results.outs[i := p.link.build(inner.finals[i].v)]))
  }

  /** `ServerExcept` number `j`, and all inside it. */
  ghost function ServerExcepts(w: World, impl: Impl, passed: seq<Actual>, j: nat): (r: Reply)
    requires ImplOk(w.sig, impl) && ActualsOk(w.sig, passed) && j <= |w.sig.handlers|
    ensures ReplyOk(w.sig, r.(raised := Nothing))
    decreases |w.sig.handlers| - j
  {
    if j == |w.sig.handlers| then ServerRet(w, impl, passed)
    else Handle(w, j, ServerExcepts(w, impl, passed, j + 1))
  }

  /** The `catch` of one handler. */
  function Handle(w: World, j: nat, inner: Reply): (r: Reply)
    requires j < |w.sig.handlers| == |inner.results.errors|
    ensures |r.results.errors| == |w.sig.handlers| && r.results.outs == inner.results.outs && r.finals == inner.finals
  {
    var h := w.sig.handlers[j];
    if inner.raised.FromMethod? && w.env.isA(inner.raised.e.kind, h.kind) then
      var slot := h.link.build(w.env.slice(h.kind, inner.raised.e));
      Reply(inner.results.(errors := inner.results.errors[j := slot]), inner.finals, Nothing)
    else inner
  }

  /** `ServerRet` if there is a result, around the call itself. */
  ghost function ServerRet(w: World, impl: Impl, passed: seq<Actual>): (r: Reply)
    requires ImplOk(w.sig, impl) && ActualsOk(w.sig, passed)
    ensures ReplyOk(w.sig, r.(raised := Nothing))
  {
    var out := impl(passed);
    assert OutcomeOk(w.sig, passed, out);
    if out.end.Threw? then Reply(NoResults(w.sig), out.finals, FromMethod(out.end.e))
    else if w.sig.result.None? then Reply(NoResults(w.sig), out.finals, Nothing)
    else Reply(NoResults(w.sig).(value := w.sig.result.value.build(out.end.result.value)), out.finals, Nothing)
  }

  // ----- The client reads the reply ----------------------------------------------------------------

  /** `ReadResults` of the parameters from `i` on; then of the others. */
  function ReadParams(w: World, r: Results, args: seq<Actual>, i: nat): Observed
    requires ResultsOk(w.sig, r) && |args| == |w.sig.params| && i <= |args|
    decreases |args| - i
  {
    if i == |args| then Observed(args, ReadErrors(w, r, 0))
    else if !w.sig.params[i].output || args[i].Null? then ReadParams(w, r, args, i + 1)
    else
      var v := w.sig.params[i].link.read(r.outs[i]);
      if v.None? then Observed(args, RangeError)
      else ReadParams(w, r, args[i := args[i].(v := v.value)], i + 1)
  }

  /** `ClientException`: the first field that is there is thrown. */
  function ReadErrors(w: World, r: Results, j: nat): How
    requires ResultsOk(w.sig, r) && j <= |w.sig.handlers|
    decreases |w.sig.handlers| - j
  {
    if j == |w.sig.handlers| then ReadResult(w, r)
    else
      var h := w.sig.handlers[j];
      if !h.link.has(r.errors[j]) then ReadErrors(w, r, j + 1)
      else
        var v := h.link.read(r.errors[j]);
        if v.None? then RangeError else Exception(Exn(h.thrown, v.value))
  }

  function ReadResult(w: World, r: Results): How {
    if w.sig.result.None? then Result(None)
    else
      var v := w.sig.result.value.read(r.value);
      if v.None? then RangeError else Result(v)
  }

  /** The call through the proxies. Whatever the server throws reaches the client as a failed call. */
  ghost function ThroughProxies(w: World, args: seq<Actual>, impl: Impl): Observed
    requires ActualsOk(w.sig, args) && ImplOk(w.sig, impl)
  {
    var reply := ServerFields(w, impl, Request(w.sig, args), []);
    if !reply.raised.Nothing? then Observed(args, RemoteFailure)
    else ReadParams(w, reply.results, args, 0)
  }
}
