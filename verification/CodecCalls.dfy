/** Proxied calls whose fields are built and read by the codecs. */
module CodecCalls {
  import opened Base
  import opened Codec
  import Integers
  import R = RemoteCall
  import E = RemoteEquivalence

  /** A message field of the schema, used by the proxies. */
  ghost function LinkOf(f: Field, order: Order): R.Link
    requires Compiles(f.ty) && Enumerates(order)
  {
    R.Link(
      v => HasType(f.ty, v),
      v => if HasType(f.ty, v) then BuiltSlot(f, v, order) else UNSET,
      s => if ConformsSlot(f.ty, s) then Meant(f, s) else None,
      s => Has(f, s),
      Default(f.ty))
  }

  lemma UnsetRecordReads(f: Field)
    requires Compiles(f.ty) && f.ty.Record?
    requires forall i :: 0 <= i < |f.ty.fields| ==> Meant(f.ty.fields[i], UNSET) == Some(Default(f.ty.fields[i].ty))
    ensures Meant(f, UNSET) == Some(Default(f.ty))
  {
    var w := Blank(f.ty);
    assert forall i :: 0 <= i < |f.ty.fields| ==> w.slots[i] == UNSET;
    assert Meant(f, UNSET) == MeantBy(f.ty, w) && Meant(f, UNSET).Some?;
    assert Meant(f, UNSET).value.parts == Default(f.ty).parts;
  }

  lemma UnsetListReads(f: Field)
    requires Compiles(f.ty) && (f.ty.Vec? || f.ty.Set? || f.ty.Map?)
    ensures Meant(f, UNSET) == Some(Default(f.ty))
  {
    var e := if f.ty.Map? then f.ty.entry else f.ty.elem;
    assert MeantByAll(e, []).Some? && MeantByAll(e, []).value == [];
    assert Meant(f, UNSET) == MeantBy(f.ty, WList([])) && Meant(f, UNSET).Some?;
    assert f.ty.Set? ==> Meant(f, UNSET).value.items == {};
  }

  lemma ZeroReads(local: Integers.IntType, wire: Integers.IntType)
    requires Integers.BuildCompiles(local, wire) && !Integers.LosesSign(local, wire)
    ensures Integers.Read(local, wire, 0) == Some(0)
  {
    assert Integers.In(wire, 0) && Integers.In(local, 0);
    Integers.ReadIsExact(local, wire, 0);
  }

  lemma UnsetNumberReads(f: Field)
    requires Compiles(f.ty) && Sound(f) && (f.ty.Int? || f.ty.Enum? || f.ty.Text?)
    ensures Meant(f, UNSET) == Some(Default(f.ty))
  {
    if f.ty.Int? {
      assert Content(f.ty, UNSET) == WNum(0);
      ZeroReads(f.ty.local, f.ty.wire);
    }
  }

  /** An unset field of a sound type can be read, and reads as a new object. */
  lemma {:induction false} UnsetReads(f: Field)
    requires Compiles(f.ty) && Sound(f)
    ensures Meant(f, UNSET) == Some(Default(f.ty))
    decreases f.ty
  {
    if f.ty.Record? {
      forall i | 0 <= i < |f.ty.fields| ensures Meant(f.ty.fields[i], UNSET) == Some(Default(f.ty.fields[i].ty)) {
        UnsetReads(f.ty.fields[i]);
      }
      UnsetRecordReads(f);
    } else if f.ty.Vec? || f.ty.Set? || f.ty.Map? {
      UnsetListReads(f);
    } else if !f.ty.Opt? {
      UnsetNumberReads(f);
    }
  }

  /** That is zero, or empty, or absent; and of a struct or a pair, a new object in every member. */
  lemma UnsetIs(f: Field, i: nat)
    requires Compiles(f.ty) && Sound(f)
    ensures f.ty.Int? || f.ty.Enum? ==> Meant(f, UNSET) == Some(Num(0))
    ensures f.ty.Text? ==> Meant(f, UNSET) == Some(Str(""))
    ensures f.ty.Vec? ==> Meant(f, UNSET) == Some(List([]))
    ensures f.ty.Set? ==> Meant(f, UNSET) == Some(Elements({}))
    ensures f.ty.Map? ==> Meant(f, UNSET) == Some(Table(map[]))
    ensures f.ty.Opt? ==> Meant(f, UNSET) == Some(Maybe(None))
    ensures f.ty.Record? && i < |f.ty.fields| ==>
              Meant(f, UNSET).Some? && Some(Meant(f, UNSET).value.parts[i]) == Meant(f.ty.fields[i], UNSET)
  {
    UnsetReads(f);
    if f.ty.Record? && i < |f.ty.fields| {
      UnsetReads(f.ty.fields[i]);
    }
  }

  /** The sound fields are those a proxied call can rely on. */
  lemma LinkIff(f: Field, order: Order)
    requires Compiles(f.ty) && Enumerates(order)
    ensures R.LinkOk(LinkOf(f, order)) <==> Sound(f)
  {
    var l := LinkOf(f, order);
    if Sound(f) {
      forall v | l.holds(v) ensures l.read(l.build(v)) == Some(v) {
        RoundTrip(f, v, order);
      }
      UnsetReads(f);
    } else {
      LostIsLost(f, order);
      BuiltSlotConforms(f, Lost(f), order);
      assert l.holds(Lost(f)) && l.read(l.build(Lost(f))) != Some(Lost(f));
    }
  }

  // ----- Methods with fields of the schema ----------------------------------------------------------

  datatype Param = Param(field: Field, input: bool, output: bool, pointer: bool, requested: bool)

  datatype Handler = Handler(kind: nat, thrown: nat, field: Field)

  datatype Method = Method(params: seq<Param>, handlers: seq<Handler>, result: Option<Field>)

  predicate FieldOk(f: Field) {
    Compiles(f.ty) && Sound(f)
  }

  predicate MethodOk(m: Method) {
    && (forall i :: 0 <= i < |m.params| ==> FieldOk(m.params[i].field))
    && (forall j :: 0 <= j < |m.handlers| ==> FieldOk(m.handlers[j].field) && !m.handlers[j].field.ty.Opt?)
    && (m.result.Some? ==> FieldOk(m.result.value))
  }

  ghost function Linked(m: Method, order: Order): R.Signature
    requires MethodOk(m) && Enumerates(order)
  {
    R.Signature(
      seq(|m.params|, i requires 0 <= i < |m.params| =>
        R.Param(LinkOf(m.params[i].field, order), m.params[i].input, m.params[i].output, m.params[i].pointer,
                m.params[i].requested)),
      seq(|m.handlers|, j requires 0 <= j < |m.handlers| =>
        R.Handler(m.handlers[j].kind, m.handlers[j].thrown, LinkOf(m.handlers[j].field, order))),
      if m.result.Some? then Some(LinkOf(m.result.value, order)) else None)
  }

  /** Exceptions convert to values of the declared types, and uninitialized objects have values of theirs. */
  ghost predicate EnvOk(m: Method, env: R.Env) {
    && (forall i :: 0 <= i < |m.params| ==> HasType(m.params[i].field.ty, env.junk(i)))
    && (forall j, e :: 0 <= j < |m.handlers| ==> HasType(m.handlers[j].field.ty, env.slice(m.handlers[j].kind, e)))
  }

  ghost function WorldOf(m: Method, env: R.Env, order: Order): (w: R.World)
    requires MethodOk(m) && EnvOk(m, env) && Enumerates(order)
    ensures w.sig == Linked(m, order) && w.env == env
  {
    var w := R.World(Linked(m, order), env);
    assert forall i :: 0 <= i < |m.params| ==> R.ParamOk(w, i) by {
      forall i | 0 <= i < |m.params| ensures R.ParamOk(w, i) {
        LinkIff(m.params[i].field, order);
      }
    }
    assert forall j :: 0 <= j < |m.handlers| ==> R.HandlerOk(w, j) by {
      forall j | 0 <= j < |m.handlers| ensures R.HandlerOk(w, j) {
        LinkIff(m.handlers[j].field, order);
      }
    }
    assert m.result.Some? ==> R.LinkOk(w.sig.result.value) by {
      if m.result.Some? {
        LinkIff(m.result.value, order);
      }
    }
    w
  }

  /**
  An exception field must be a pointer without a `has` flag, since the server never sets the flag. One
  that no exception class gets to may have a flag.
  */
  ghost predicate CanTell(m: Method, w: R.World, j: nat)
    requires j < |m.handlers| == |w.sig.handlers|
  {
    if m.handlers[j].field.flagged then forall e: R.Exn :: R.Caught(w, e.kind, 0) != j
    else Boxed(m.handlers[j].field.ty)
  }

  lemma TellsIff(m: Method, env: R.Env, order: Order, j: nat)
    requires MethodOk(m) && EnvOk(m, env) && Enumerates(order) && j < |m.handlers|
    ensures var w := WorldOf(m, env, order); E.Tells(w, j) <==> CanTell(m, w, j)
  {
    var w := WorldOf(m, env, order);
    var f, h := m.handlers[j].field, w.sig.handlers[j];
    assert h.link == LinkOf(f, order);
    forall e: R.Exn ensures h.link.has(h.link.build(env.slice(h.kind, e))) <==> !f.flagged {
      assert HasType(f.ty, env.slice(m.handlers[j].kind, e));
    }
    assert h.link.has(UNSET) <==> !f.flagged && !Boxed(f.ty);
  }

  /** The exception fields can tell exactly if each of them can. */
  lemma AllTellIff(m: Method, env: R.Env, order: Order)
    requires MethodOk(m) && EnvOk(m, env) && Enumerates(order)
    ensures var w := WorldOf(m, env, order);
            E.HandlersTell(w) <==> forall j :: 0 <= j < |m.handlers| ==> CanTell(m, w, j)
  {
    var w := WorldOf(m, env, order);
    forall j | 0 <= j < |m.handlers| ensures E.Tells(w, j) <==> CanTell(m, w, j) {
      TellsIff(m, env, order, j);
    }
  }

  lemma NullsRequestedIff(m: Method, order: Order, args: seq<R.Actual>)
    requires MethodOk(m) && Enumerates(order) && R.ActualsOk(Linked(m, order), args)
    ensures E.NullsRequested(Linked(m, order), args) <==>
            forall i :: 0 <= i < |args| ==> (args[i].Null? ==> m.params[i].requested)
  {
    assert forall i :: 0 <= i < |args| ==> Linked(m, order).params[i].requested == m.params[i].requested;
    assert forall i :: 0 <= i < |args| ==>
             (E.NullRequested(Linked(m, order).params[i], args[i]) <==> (args[i].Null? ==> m.params[i].requested));
  }

  /**
  A remote call of a method with sound fields is the local call, whatever the method does, exactly if its
  exception fields can tell, every exception arrives looking like itself, and every null pointer among the
  arguments is announced by a `want` field.
  */
  lemma RemoteEqualsLocalIff(m: Method, env: R.Env, order: Order, args: seq<R.Actual>)
    requires MethodOk(m) && EnvOk(m, env) && Enumerates(order) && R.ActualsOk(Linked(m, order), args)
    ensures var w := WorldOf(m, env, order);
            E.SameAsLocal(w, args) <==>
            && (forall j :: 0 <= j < |m.handlers| ==> CanTell(m, w, j))
            && E.KeepsView(w)
            && (forall i :: 0 <= i < |args| ==> (args[i].Null? ==> m.params[i].requested))
  {
    E.RemoteEqualsLocalIff(WorldOf(m, env, order), args);
    AllTellIff(m, env, order);
    NullsRequestedIff(m, order, args);
  }

  // ----- A derived class listed before its base -------------------------------------------------------

  /** Class 1 is derived from class 0, like every class; converted to its base it loses its text. */
  function TwoClasses(): R.Env {
    R.Env(
      (a, b) => a == b || b == 0,
      (kind, e: R.Exn) => if (e.kind == 1 && kind == 0) || !e.payload.Str? then Str("") else e.payload,
      _ => Num(0))
  }

  function DerivedFirst(): Method {
    Method([], [Handler(1, 1, Field(Text, false)), Handler(0, 0, Field(Text, false))], None)
  }

  /** A world with these two handlers. */
  ghost predicate IsTwoClasses(w: R.World) {
    && w.env == TwoClasses() && w.sig.params == [] && |w.sig.handlers| == 2
    && w.sig.handlers[0].kind == 1 == w.sig.handlers[0].thrown
    && w.sig.handlers[1].kind == 0 == w.sig.handlers[1].thrown
  }

  lemma TwoClassesHierarchy(w: R.World)
    requires IsTwoClasses(w)
    ensures E.Hierarchy(w) && !E.BasesFirst(w)
  {
    assert w.env.isA(w.sig.handlers[0].kind, w.sig.handlers[1].kind);
    forall j | 0 <= j < |w.sig.handlers| ensures E.ThrownOk(w, j) {
    }
  }

  lemma TwoClassesView(w: R.World, e: R.Exn)
    requires IsTwoClasses(w) && e == R.Exn(1, Str("x"))
    ensures R.Caught(w, 1, 0) == 1 && E.Arriving(w, e) == R.Exn(0, Str(""))
    ensures R.View(w, E.Arriving(w, e)) != R.View(w, e)
  {
    assert R.View(w, e)[0].Some? && R.View(w, R.Exn(0, Str("")))[0].None?;
  }

  lemma DerivedFirstTells(order: Order)
    requires Enumerates(order)
    ensures MethodOk(DerivedFirst()) && EnvOk(DerivedFirst(), TwoClasses())
    ensures IsTwoClasses(WorldOf(DerivedFirst(), TwoClasses(), order))
    ensures E.HandlersTell(WorldOf(DerivedFirst(), TwoClasses(), order))
  {
    AllTellIff(DerivedFirst(), TwoClasses(), order);
  }

  /** The inner handler, that of the base, gets there first: what was thrown as class 1 arrives as class 0. */
  lemma DerivedArrivesAsBase(order: Order, e: R.Exn)
    requires Enumerates(order) && e == R.Exn(1, Str("x"))
    ensures MethodOk(DerivedFirst()) && EnvOk(DerivedFirst(), TwoClasses())
    ensures var w := WorldOf(DerivedFirst(), TwoClasses(), order);
            && E.HandlersTell(w) && E.Hierarchy(w) && !E.SameAsLocal(w, []) && R.ImplOk(w.sig, E.Thrower(e))
            && R.LocalCall(w, [], E.Thrower(e)).how == R.Exception(e)
            && R.ThroughProxies(w, [], E.Thrower(e)).how == R.Exception(R.Exn(0, Str("")))
  {
    DerivedFirstTells(order);
    var w := WorldOf(DerivedFirst(), TwoClasses(), order);
    TwoClassesHierarchy(w);
    TwoClassesView(w, e);
    E.OtherView(w, [], e);
  }
}
