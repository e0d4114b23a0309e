/**
From a schema to proxied calls: the accessors that the generator gives the fields
of a method, and the method that client and server make of them.
*/
module SchemaCalls {
  import opened Base
  import opened FieldList
  import opened ArgumentNumbering
  import Codec
  import C = CodecCalls
  import R = RemoteCall
  import E = RemoteEquivalence

  /**
  The C++ side of a field: its type, whether it is passed as a pointer, and for an exception the class caught
  and the class thrown.
  */
  datatype Cpp = Cpp(ty: Codec.Type, pointer: bool, kind: nat, thrown: nat)

  type Types = string -> Cpp

  /** `AccessorType` takes the parameter if there is one. */
  function NameOf(f: Field): string {
    if f.param.Some? then f.param.value.name else if f.result.Some? then f.result.value.name else ""
  }

  function CodecField(f: Field, types: Types): Codec.Field {
    Codec.Field(types(NameOf(f)).ty, f.optional)
  }

  function ParamOf(f: Field, types: Types): C.Param {
    C.Param(CodecField(f, types), f.param.Some?, f.param.None? || f.result.Some?,
            types(NameOf(f)).pointer, f.requested)
  }

  function HandlerOf(f: Field, types: Types): C.Handler {
    C.Handler(types(NameOf(f)).kind, types(NameOf(f)).thrown, CodecField(f, types))
  }

  /** The fields of one kind. */
  function OfKind(fs: seq<Field>, kind: Kind): (r: seq<Field>)
    ensures forall i :: 0 <= i < |r| ==> r[i] in fs && KindOf(r[i]) == kind
  {
    if fs == [] then []
    else (if KindOf(fs[0]) == kind then [fs[0]] else []) + OfKind(fs[1..], kind)
  }

  /** The fields that carry a C++ parameter. One of count zero, such as a Context, carries none. */
  function Carriers(fs: seq<Field>): (r: seq<Field>)
    ensures forall i :: 0 <= i < |r| ==> r[i] in fs && KindOf(r[i]).Arg? && r[i].args > 0
  {
    if fs == [] then []
    else (if KindOf(fs[0]).Arg? && fs[0].args > 0 then [fs[0]] else []) + Carriers(fs[1..])
  }

  function MethodOf(fs: seq<Field>, types: Types): C.Method {
    var args, excs, rets := Carriers(fs), OfKind(fs, Exc), OfKind(fs, Ret);
    C.Method(
      seq(|args|, i requires 0 <= i < |args| => ParamOf(args[i], types)),
      seq(|excs|, j requires 0 <= j < |excs| => HandlerOf(excs[j], types)),
      if rets == [] then None else Some(CodecField(rets[0], types)))
  }

  function RankOf(kind: Kind): nat {
    match kind case Arg => 0 case Exc => 1 case Ret => 2
  }

  /** Parameters of one C++ argument each, or none, then exceptions, then the result. */
  ghost predicate Ordered(fs: seq<Field>) {
    && (forall i, j | 0 <= i < j < |fs| :: RankOf(KindOf(fs[i])) <= RankOf(KindOf(fs[j])))
    && (forall i | 0 <= i < |fs| && KindOf(fs[i]).Arg? :: fs[i].args <= 1)
  }

  // ----- Flags --------------------------------------------------------------------------------

  /** The field at `i` is the one of its name, and no flag has been merged yet. */
  ghost predicate NamedAt(t: Table, i: nat)
    requires Indexed(t) && i < |t.fields|
  {
    var f := t.fields[i];
    NameOf(f) in t.idx && t.idx[NameOf(f)] == i && !f.optional && !f.requested
  }

  ghost predicate Named(t: Table)
    requires Indexed(t)
  {
    forall i | 0 <= i < |t.fields| :: NamedAt(t, i)
  }

  lemma AddNamedAt(t: Table, sf: SchemaField, param: bool, i: nat)
    requires Indexed(t) && i < |Add(t, sf, param, !param).fields| && Indexed(Add(t, sf, param, !param))
    requires i < |t.fields| ==> NamedAt(t, i)
    ensures NamedAt(Add(t, sf, param, !param), i)
  {
    if sf.name in t.idx && i == t.idx[sf.name] {
      assert NameOf(t.fields[i]) == sf.name;
    }
  }

  lemma AddNamed(t: Table, sf: SchemaField, param: bool)
    requires Indexed(t) && Named(t)
    ensures Indexed(Add(t, sf, param, !param)) && Named(Add(t, sf, param, !param))
  {
    AddIndexed(t, sf, param, !param);
    var u := Add(t, sf, param, !param);
    forall i | 0 <= i < |u.fields| ensures NamedAt(u, i) {
      assert i < |t.fields| ==> NamedAt(t, i);
      AddNamedAt(t, sf, param, i);
    }
  }

  lemma {:induction false} AllNamed(t: Table, sfs: seq<SchemaField>, param: bool)
    requires Indexed(t) && Named(t)
    ensures Named(AddAll(t, sfs, param))
    decreases |sfs|
  {
    if sfs != [] {
      AllNamed(t, sfs[..|sfs| - 1], param);
      AddNamed(AddAll(t, sfs[..|sfs| - 1], param), sfs[|sfs| - 1], param);
    }
  }

  /** There is a parameter that says whether `name` is wanted. */
  predicate HasWant(t: Table, name: string)
    requires WantName(name) in t.idx ==> t.idx[WantName(name)] < |t.fields|
  {
    WantName(name) in t.idx && t.fields[t.idx[WantName(name)]].param.Some?
  }

  /** A merged field has a has-flag, or a want-flag, exactly if the schema has a field of that name. */
  lemma MergedFlags(t: Table, i: nat)
    requires Indexed(t) && Named(t) && i < |t.fields|
    ensures var f, n := Merged(t, i), NameOf(t.fields[i]);
            && NameOf(f) == n && KindOf(f) == KindOf(t.fields[i])
            && (f.optional <==> HasName(n) in t.idx)
            && (f.requested <==> HasWant(t, n))
  {
    var n := NameOf(t.fields[i]);
    assert NamedAt(t, i);
    assert MarksOptional(t, n, i) <==> HasName(n) in t.idx;
    assert MarksRequested(t, n, i) <==> HasWant(t, n);
  }

  lemma {:induction false} KeptOf(fs: seq<Field>, f: Field)
    requires f in Kept(fs)
    ensures f in fs && !f.skip
  {
    if f in Kept(fs[1..]) {
      KeptOf(fs[1..], f);
    }
  }

  // ----- Directions -----------------------------------------------------------------------------------

  ghost predicate InNames(sfs: seq<SchemaField>, name: string) {
    exists i :: 0 <= i < |sfs| && sfs[i].name == name
  }

  lemma InNamesMore(sfs: seq<SchemaField>, name: string)
    requires sfs != []
    ensures InNames(sfs, name) <==> InNames(sfs[..|sfs| - 1], name) || sfs[|sfs| - 1].name == name
  {
    var n := |sfs| - 1;
    assert forall i | 0 <= i < n :: sfs[..n][i] == sfs[i];
  }

  /** Whether the field at `i` was entered as a parameter, or as a result. */
  ghost predicate EnteredAs(t: Table, i: nat, param: bool) {
    i < |t.fields| && if param then t.fields[i].param.Some? else t.fields[i].result.Some?
  }

  lemma AddEnters(t: Table, sf: SchemaField, param: bool, i: nat)
    requires Indexed(t) && Named(t) && i < |Add(t, sf, param, !param).fields|
    requires Indexed(Add(t, sf, param, !param)) && NamedAt(Add(t, sf, param, !param), i)
    ensures var u := Add(t, sf, param, !param);
            && (EnteredAs(u, i, param) <==> EnteredAs(t, i, param) || NameOf(u.fields[i]) == sf.name)
            && (EnteredAs(u, i, !param) <==> EnteredAs(t, i, !param))
            && (i < |t.fields| ==> NameOf(u.fields[i]) == NameOf(t.fields[i]))
  {
    assert i < |t.fields| ==> NamedAt(t, i);
  }

  lemma {:induction false} Grows(t: Table, sfs: seq<SchemaField>, param: bool)
    requires Indexed(t)
    ensures |t.fields| <= |AddAll(t, sfs, param).fields|
    decreases |sfs|
  {
    if sfs != [] {
      Grows(t, sfs[..|sfs| - 1], param);
    }
  }

  lemma {:induction false} InTable(t: Table, sfs: seq<SchemaField>, param: bool, name: string)
    requires Indexed(t)
    ensures name in AddAll(t, sfs, param).idx <==> name in t.idx || InNames(sfs, name)
    decreases |sfs|
  {
    if sfs != [] {
      InTable(t, sfs[..|sfs| - 1], param, name);
      InNamesMore(sfs, name);
    }
  }

  lemma {:induction false} AllEnter(t: Table, sfs: seq<SchemaField>, param: bool, i: nat)
    requires Indexed(t) && Named(t) && i < |AddAll(t, sfs, param).fields|
    ensures Named(AddAll(t, sfs, param))
    ensures var u := AddAll(t, sfs, param);
            && (EnteredAs(u, i, param) <==> EnteredAs(t, i, param) || InNames(sfs, NameOf(u.fields[i])))
            && (EnteredAs(u, i, !param) <==> EnteredAs(t, i, !param))
            && (i < |t.fields| ==> NameOf(u.fields[i]) == NameOf(t.fields[i]))
    decreases |sfs|
  {
    AllNamed(t, sfs, param);
    if sfs != [] {
      var front, sf := sfs[..|sfs| - 1], sfs[|sfs| - 1];
      var before, u := AddAll(t, front, param), AddAll(t, sfs, param);
      AllNamed(t, front, param);
      assert NamedAt(u, i);
      AddEnters(before, sf, param, i);
      InNamesMore(sfs, NameOf(u.fields[i]));
      if i < |before.fields| {
        AllEnter(t, front, param, i);
      } else {
        Grows(t, front, param);
        InTable(t, front, param, sf.name);
      }
    }
  }

  /** A field is a parameter, or a result, exactly if the schema has it among these. */
  lemma Directions(ps: seq<SchemaField>, rs: seq<SchemaField>, fields: seq<Field>, i: nat)
    requires IsMerge(MethodTable(ps, rs), fields) && i < |fields|
    ensures fields[i].param.Some? <==> InNames(ps, NameOf(fields[i]))
    ensures fields[i].result.Some? <==> InNames(rs, NameOf(fields[i]))
  {
    var params, t := AddAll(EMPTY, ps, true), MethodTable(ps, rs);
    assert fields[i] == Merged(t, i);
    AllNamed(EMPTY, ps, true);
    AllEnter(params, rs, false, i);
    assert NamedAt(t, i);
    if i < |params.fields| {
      AllEnter(EMPTY, ps, true, i);
    } else {
      NotParam(params, rs, i);
      InTable(EMPTY, ps, true, NameOf(fields[i]));
    }
  }

  /** The table has the names of the schema. */
  lemma InMethodTable(ps: seq<SchemaField>, rs: seq<SchemaField>, name: string)
    ensures name in MethodTable(ps, rs).idx <==> InNames(ps, name) || InNames(rs, name)
  {
    InTable(EMPTY, ps, true, name);
    InTable(AddAll(EMPTY, ps, true), rs, false, name);
  }

  /** A parameter called `name`, after the merge as before it. */
  lemma ParamNamed(ps: seq<SchemaField>, rs: seq<SchemaField>, fields: seq<Field>, name: string)
    requires IsMerge(MethodTable(ps, rs), fields)
    ensures var t := MethodTable(ps, rs);
            name in t.idx && t.fields[t.idx[name]].param.Some? <==> InNames(ps, name)
  {
    var t := MethodTable(ps, rs);
    InMethodTable(ps, rs, name);
    AllNamed(EMPTY, ps, true);
    AllNamed(AddAll(EMPTY, ps, true), rs, false);
    if name in t.idx {
      var i := t.idx[name];
      assert NamedAt(t, i) && fields[i] == Merged(t, i);
      Directions(ps, rs, fields, i);
    }
  }

  ghost predicate InSchema(ps: seq<SchemaField>, rs: seq<SchemaField>, name: string) {
    InNames(ps, name) || InNames(rs, name)
  }

  /** A kept field is optional, or requested, exactly if the schema has a field, or a parameter, of the derived name. */
  lemma KeptFlags(ps: seq<SchemaField>, rs: seq<SchemaField>, fields: seq<Field>, f: Field)
    requires IsMerge(MethodTable(ps, rs), fields) && f in Kept(fields)
    ensures f.optional <==> InSchema(ps, rs, HasName(NameOf(f)))
    ensures f.requested <==> InNames(ps, WantName(NameOf(f)))
  {
    var t := MethodTable(ps, rs);
    AllNamed(EMPTY, ps, true);
    AllNamed(AddAll(EMPTY, ps, true), rs, false);
    KeptOf(fields, f);
    var i :| 0 <= i < |fields| && fields[i] == f;
    assert f == Merged(t, i);
    MergedFlags(t, i);
    InMethodTable(ps, rs, HasName(NameOf(f)));
    ParamNamed(ps, rs, fields, WantName(NameOf(f)));
  }

  lemma KeptDirections(ps: seq<SchemaField>, rs: seq<SchemaField>, fields: seq<Field>, f: Field)
    requires IsMerge(MethodTable(ps, rs), fields) && f in Kept(fields)
    ensures f.param.Some? <==> InNames(ps, NameOf(f))
    ensures f.result.Some? <==> InNames(rs, NameOf(f))
  {
    KeptOf(fields, f);
    var i :| 0 <= i < |fields| && fields[i] == f;
    Directions(ps, rs, fields, i);
  }

  /** The fields after the parameters have other names. */
  lemma NotParam(params: Table, rs: seq<SchemaField>, i: nat)
    requires Indexed(params) && Named(params) && |params.fields| <= i < |AddAll(params, rs, false).fields|
    ensures NameOf(AddAll(params, rs, false).fields[i]) !in params.idx
  {
    var t := AddAll(params, rs, false);
    AllNamed(params, rs, false);
    assert NamedAt(t, i);
    AddResultsKeeps(params, rs, NameOf(t.fields[i]));
  }

  lemma {:induction false} OfKindAll(fs: seq<Field>, kind: Kind, f: Field)
    ensures f in OfKind(fs, kind) <==> f in fs && KindOf(f) == kind
  {
    if fs != [] {
      OfKindAll(fs[1..], kind, f);
      assert fs == [fs[0]] + fs[1..];
    }
  }

  /** The places where the fields of a kind are, and how many there are. */
  function Places(fs: seq<Field>, kind: Kind): set<nat> {
    set i | 0 <= i < |fs| && KindOf(fs[i]) == kind
  }

  function Number(fs: seq<Field>, kind: Kind): nat {
    |Places(fs, kind)|
  }

  lemma NumberMore(fs: seq<Field>, kind: Kind)
    requires fs != []
    ensures Number(fs, kind) == Number(fs[..|fs| - 1], kind) + B2N(KindOf(fs[|fs| - 1]) == kind)
  {
    var n := |fs| - 1;
    assert Places(fs, kind) == Places(fs[..n], kind) + if KindOf(fs[n]) == kind then {n} else {};
  }

  lemma {:induction false} OfKindMore(fs: seq<Field>, kind: Kind, f: Field)
    ensures OfKind(fs + [f], kind) == OfKind(fs, kind) + if KindOf(f) == kind then [f] else []
  {
    var last: seq<Field> := if KindOf(f) == kind then [f] else [];
    if fs != [] {
      var first: seq<Field> := if KindOf(fs[0]) == kind then [fs[0]] else [];
      assert (fs + [f])[0] == fs[0] && (fs + [f])[1..] == fs[1..] + [f];
      OfKindMore(fs[1..], kind, f);
      assert OfKind(fs + [f], kind) == first + (OfKind(fs[1..], kind) + last);
      assert OfKind(fs, kind) == first + OfKind(fs[1..], kind);
    }
  }

  /** The fields of a kind come in the order of the schema: one with `n` of its kind before it is number `n`. */
  lemma {:induction false} OfKindInOrder(fs: seq<Field>, kind: Kind, k: nat)
    requires k < |fs| && KindOf(fs[k]) == kind
    ensures |OfKind(fs, kind)| == Number(fs, kind) > Number(fs[..k], kind)
    ensures OfKind(fs, kind)[Number(fs[..k], kind)] == fs[k]
    decreases |fs|
  {
    var front := fs[..|fs| - 1];
    assert fs == front + [fs[|fs| - 1]];
    NumberMore(fs, kind);
    OfKindMore(front, kind, fs[|fs| - 1]);
    OfKindNumber(front, kind);
    if k < |front| {
      OfKindInOrder(front, kind, k);
      assert front[..k] == fs[..k];
    }
  }

  lemma {:induction false} OfKindNumber(fs: seq<Field>, kind: Kind)
    ensures |OfKind(fs, kind)| == Number(fs, kind)
    decreases |fs|
  {
    if fs != [] {
      var front := fs[..|fs| - 1];
      assert fs == front + [fs[|fs| - 1]];
      NumberMore(fs, kind);
      OfKindMore(front, kind, fs[|fs| - 1]);
      OfKindNumber(front, kind);
    } else {
      assert Places(fs, kind) == {};
    }
  }

  lemma {:induction false} CarriersKept(fs: seq<Field>, f: Field)
    ensures f in Carriers(fs) <==> f in fs && KindOf(f).Arg? && f.args > 0
  {
    if fs != [] {
      CarriersKept(fs[1..], f);
      assert fs == [fs[0]] + fs[1..];
    }
  }

  /** A merged field came in as a parameter or as a result. */
  lemma KeptEntered(ps: seq<SchemaField>, rs: seq<SchemaField>, fields: seq<Field>, f: Field)
    requires IsMerge(MethodTable(ps, rs), fields) && f in Kept(fields)
    ensures f.param.Some? || f.result.Some?
  {
    var params, t := AddAll(EMPTY, ps, true), MethodTable(ps, rs);
    KeptOf(fields, f);
    var i :| 0 <= i < |fields| && fields[i] == f;
    assert f == Merged(t, i);
    SetAll(EMPTY, ps, true);
    SetAll(params, rs, false);
  }

  /** Every field of a table has been set. */
  ghost predicate AllSet(t: Table) {
    forall i | 0 <= i < |t.fields| :: t.fields[i].param.Some? || t.fields[i].result.Some?
  }

  lemma {:induction false} SetAll(t: Table, sfs: seq<SchemaField>, param: bool)
    requires Indexed(t) && AllSet(t)
    ensures AllSet(AddAll(t, sfs, param))
    decreases |sfs|
  {
    if sfs != [] {
      SetAll(t, sfs[..|sfs| - 1], param);
    }
  }

  /** Arguments of one C++ parameter or none, and nothing else as long as there are parameters to come. */
  predicate LeadingArgs(fs: seq<Field>) {
    fs == [] ||
    if KindOf(fs[0]).Arg? then fs[0].args <= 1 && LeadingArgs(fs[1..]) else Carriers(fs) == []
  }

  lemma {:induction false} OrderedLeads(fs: seq<Field>)
    requires Ordered(fs)
    ensures LeadingArgs(fs)
  {
    if fs != [] {
      OrderedRest(fs);
      if KindOf(fs[0]).Arg? {
        OrderedLeads(fs[1..]);
      } else {
        NoCarriers(fs);
      }
    }
  }

  lemma OffsetAfter(fs: seq<Field>, j: nat)
    requires fs != [] && j <= |fs[1..]|
    ensures Offset(ArgCounts(fs), j + 1) == fs[0].args + Offset(ArgCounts(fs[1..]), j)
  {
    assert ArgCounts(fs)[1..] == ArgCounts(fs[1..]);
  }

  lemma {:induction false} CarriersAfter(fs: seq<Field>, i: nat)
    requires LeadingArgs(fs) && i < |Carriers(fs)| && (i > 0 || fs[0].args == 0)
    ensures fs != [] && KindOf(fs[0]).Arg? && LeadingArgs(fs[1..])
    ensures fs[0].args <= i && i - fs[0].args < |Carriers(fs[1..])|
    ensures Carriers(fs)[i] == Carriers(fs[1..])[i - fs[0].args]
  {
    assert Carriers(fs) == (if fs[0].args > 0 then [fs[0]] else []) + Carriers(fs[1..]);
  }

  lemma {:induction false} CarrierAt(fs: seq<Field>, i: nat) returns (k: nat)
    requires LeadingArgs(fs) && i < |Carriers(fs)|
    ensures k < |fs| && fs[k] == Carriers(fs)[i] && fs[k].args == 1 && Offset(ArgCounts(fs), k) == i
    decreases |fs|
  {
    if fs[0].args > 0 && i == 0 {
      k := 0;
    } else {
      CarriersAfter(fs, i);
      var j := CarrierAt(fs[1..], i - fs[0].args);
      OffsetAfter(fs, j);
      k := j + 1;
    }
  }

  lemma OrderedRest(fs: seq<Field>)
    requires Ordered(fs) && fs != []
    ensures Ordered(fs[1..]) && (!KindOf(fs[0]).Arg? ==> forall i | 0 <= i < |fs| :: !KindOf(fs[i]).Arg?)
  {
    assert forall j | 0 <= j < |fs[1..]| :: fs[1..][j] == fs[j + 1];
  }

  /** Parameter `i` of the method is the field whose C++ argument is numbered `i`. */
  lemma CarrierNumbered(fs: seq<Field>, i: nat)
    requires Ordered(fs) && i < |Carriers(fs)|
    ensures exists k :: 0 <= k < |fs| && fs[k] == Carriers(fs)[i] && NumbersOf(fs, k) == [i]
  {
    OrderedLeads(fs);
    var k := CarrierAt(fs, i);
    assert NumbersOf(fs, k) == [i];
  }

  lemma {:induction false} NoCarriers(fs: seq<Field>)
    requires forall i | 0 <= i < |fs| :: !KindOf(fs[i]).Arg?
    ensures Carriers(fs) == []
  {
    if fs != [] {
      NoCarriers(fs[1..]);
    }
  }

  // ----- Calls of a method of the schema ----------------------------------------------------------

  /** The exception field `name`, number `j` of its kind, tells whether it was set. */
  ghost predicate NameTells(ps: seq<SchemaField>, rs: seq<SchemaField>, types: Types, name: string, w: R.World, j: nat)
    requires j < |w.sig.handlers|
  {
    if InSchema(ps, rs, HasName(name)) then forall e: R.Exn :: R.Caught(w, e.kind, 0) != j
    else Codec.Boxed(types(name).ty)
  }

  lemma OrderedArgsFirst(fs: seq<Field>)
    requires Ordered(fs)
    ensures ArgsFirst(fs)
  {
  }

  lemma TellsByName(ps: seq<SchemaField>, rs: seq<SchemaField>, fields: seq<Field>, types: Types,
                    w: R.World, j: nat)
    requires IsMerge(MethodTable(ps, rs), fields)
    requires j < |OfKind(Kept(fields), Exc)| == |w.sig.handlers|
    ensures C.CanTell(MethodOf(Kept(fields), types), w, j) <==>
            NameTells(ps, rs, types, NameOf(OfKind(Kept(fields), Exc)[j]), w, j)
  {
    KeptFlags(ps, rs, fields, OfKind(Kept(fields), Exc)[j]);
  }

  lemma WantedByName(ps: seq<SchemaField>, rs: seq<SchemaField>, fields: seq<Field>, types: Types, i: nat)
    requires IsMerge(MethodTable(ps, rs), fields) && i < |Carriers(Kept(fields))|
    ensures MethodOf(Kept(fields), types).params[i].requested <==>
            InNames(ps, WantName(NameOf(Carriers(Kept(fields))[i])))
  {
    KeptFlags(ps, rs, fields, Carriers(Kept(fields))[i]);
  }

  /** A call of the method, with values of the types its schema and its C++ declaration give. */
  ghost predicate Callable(m: C.Method, env: R.Env, order: Codec.Order, args: seq<R.Actual>) {
    C.MethodOk(m) && C.EnvOk(m, env) && Codec.Enumerates(order) && R.ActualsOk(C.Linked(m, order), args)
  }

  lemma SameByName(ps: seq<SchemaField>, rs: seq<SchemaField>, fields: seq<Field>, types: Types,
                   env: R.Env, order: Codec.Order, args: seq<R.Actual>, w: R.World)
    requires IsMerge(MethodTable(ps, rs), fields)
    requires Callable(MethodOf(Kept(fields), types), env, order, args)
    requires w == C.WorldOf(MethodOf(Kept(fields), types), env, order)
    ensures var fs := Kept(fields);
            E.SameAsLocal(w, args) <==>
            && (forall j :: 0 <= j < |OfKind(fs, Exc)| ==> NameTells(ps, rs, types, NameOf(OfKind(fs, Exc)[j]), w, j))
            && E.KeepsView(w)
            && (forall i :: 0 <= i < |args| && args[i].Null? ==> InNames(ps, WantName(NameOf(Carriers(fs)[i]))))
  {
    var m := MethodOf(Kept(fields), types);
    C.RemoteEqualsLocalIff(m, env, order, args);
    forall j | 0 <= j < |m.handlers|
      ensures C.CanTell(m, w, j) <==>
              NameTells(ps, rs, types, NameOf(OfKind(Kept(fields), Exc)[j]), w, j)
    {
      TellsByName(ps, rs, fields, types, w, j);
    }
    forall i | 0 <= i < |args|
      ensures m.params[i].requested <==> InNames(ps, WantName(NameOf(Carriers(Kept(fields))[i])))
    {
      WantedByName(ps, rs, fields, types, i);
    }
  }

  /** The codec of the type of `name`, with a flag exactly if the schema has one. */
  ghost predicate LinksTo(ps: seq<SchemaField>, rs: seq<SchemaField>, types: Types, order: Codec.Order,
                          link: R.Link, name: string)
    requires Codec.Enumerates(order)
  {
    var f := Codec.Field(types(name).ty, InSchema(ps, rs, HasName(name)));
    Codec.Compiles(f.ty) && link == C.LinkOf(f, order)
  }

  ghost predicate ParamFrom(ps: seq<SchemaField>, rs: seq<SchemaField>, types: Types, order: Codec.Order,
                            p: R.Param, name: string)
    requires Codec.Enumerates(order)
  {
    && LinksTo(ps, rs, types, order, p.link, name) && p.pointer == types(name).pointer
    && (p.input <==> InNames(ps, name)) && (p.output <==> InNames(rs, name))
    && (p.requested <==> InNames(ps, WantName(name)))
  }

  ghost predicate HandlerFrom(ps: seq<SchemaField>, rs: seq<SchemaField>, types: Types, order: Codec.Order,
                              h: R.Handler, name: string)
    requires Codec.Enumerates(order)
  {
    LinksTo(ps, rs, types, order, h.link, name) && h.kind == types(name).kind && h.thrown == types(name).thrown
  }

  ghost predicate ResultFrom(ps: seq<SchemaField>, rs: seq<SchemaField>, fs: seq<Field>, types: Types,
                             order: Codec.Order, result: Option<R.Link>)
    requires Codec.Enumerates(order)
  {
    if result.Some?
    then exists f :: f in fs && KindOf(f).Ret? && LinksTo(ps, rs, types, order, result.value, NameOf(f))
    else forall f :: f in fs ==> !KindOf(f).Ret?
  }

  /**
  The request and the reply have the fields that the schema gives: links with their types and has-flags,
  directions, pointers, want-flags, classes, and a result.
  */
  ghost predicate SignatureFrom(ps: seq<SchemaField>, rs: seq<SchemaField>, fs: seq<Field>, types: Types,
                                order: Codec.Order, sig: R.Signature)
    requires Codec.Enumerates(order)
  {
    && |sig.params| == |Carriers(fs)| && |sig.handlers| == |OfKind(fs, Exc)|
    && (forall i :: 0 <= i < |sig.params| ==>
          ParamFrom(ps, rs, types, order, sig.params[i], NameOf(Carriers(fs)[i])))
    && (forall j :: 0 <= j < |sig.handlers| ==>
          HandlerFrom(ps, rs, types, order, sig.handlers[j], NameOf(OfKind(fs, Exc)[j])))
    && ResultFrom(ps, rs, fs, types, order, sig.result)
  }

  lemma ParamLinked(ps: seq<SchemaField>, rs: seq<SchemaField>, fields: seq<Field>, types: Types,
                    order: Codec.Order, i: nat)
    requires IsMerge(MethodTable(ps, rs), fields) && C.MethodOk(MethodOf(Kept(fields), types))
    requires Codec.Enumerates(order) && i < |Carriers(Kept(fields))|
    ensures ParamFrom(ps, rs, types, order, C.Linked(MethodOf(Kept(fields), types), order).params[i],
                      NameOf(Carriers(Kept(fields))[i]))
  {
    var f, m := Carriers(Kept(fields))[i], MethodOf(Kept(fields), types);
    KeptFlags(ps, rs, fields, f);
    KeptDirections(ps, rs, fields, f);
    KeptEntered(ps, rs, fields, f);
    assert m.params[i] == ParamOf(f, types);
    assert Codec.Compiles(m.params[i].field.ty);
  }

  lemma HandlerLinked(ps: seq<SchemaField>, rs: seq<SchemaField>, fields: seq<Field>, types: Types,
                      order: Codec.Order, j: nat)
    requires IsMerge(MethodTable(ps, rs), fields) && C.MethodOk(MethodOf(Kept(fields), types))
    requires Codec.Enumerates(order) && j < |OfKind(Kept(fields), Exc)|
    ensures HandlerFrom(ps, rs, types, order, C.Linked(MethodOf(Kept(fields), types), order).handlers[j],
                        NameOf(OfKind(Kept(fields), Exc)[j]))
  {
    var f, m := OfKind(Kept(fields), Exc)[j], MethodOf(Kept(fields), types);
    KeptFlags(ps, rs, fields, f);
    assert m.handlers[j] == HandlerOf(f, types);
    assert Codec.Compiles(m.handlers[j].field.ty);
  }

  lemma ResultLinked(ps: seq<SchemaField>, rs: seq<SchemaField>, fields: seq<Field>, types: Types, order: Codec.Order)
    requires IsMerge(MethodTable(ps, rs), fields) && C.MethodOk(MethodOf(Kept(fields), types))
    requires Codec.Enumerates(order)
    ensures ResultFrom(ps, rs, Kept(fields), types, order, C.Linked(MethodOf(Kept(fields), types), order).result)
  {
    var fs := Kept(fields);
    if OfKind(fs, Ret) == [] {
      forall f | f in fs ensures !KindOf(f).Ret? {
        OfKindAll(fs, Ret, f);
      }
    } else {
      KeptFlags(ps, rs, fields, OfKind(fs, Ret)[0]);
    }
  }

  lemma LinkedFrom(ps: seq<SchemaField>, rs: seq<SchemaField>, fields: seq<Field>, types: Types, order: Codec.Order)
    requires IsMerge(MethodTable(ps, rs), fields) && C.MethodOk(MethodOf(Kept(fields), types))
    requires Codec.Enumerates(order)
    ensures SignatureFrom(ps, rs, Kept(fields), types, order, C.Linked(MethodOf(Kept(fields), types), order))
  {
    var fs := Kept(fields);
    var sig := C.Linked(MethodOf(fs, types), order);
    forall i | 0 <= i < |sig.params|
      ensures ParamFrom(ps, rs, types, order, sig.params[i], NameOf(Carriers(fs)[i]))
    {
      ParamLinked(ps, rs, fields, types, order, i);
    }
    forall j | 0 <= j < |sig.handlers|
      ensures HandlerFrom(ps, rs, types, order, sig.handlers[j], NameOf(OfKind(fs, Exc)[j]))
    {
      HandlerLinked(ps, rs, fields, types, order, j);
    }
    ResultLinked(ps, rs, fields, types, order);
  }

  /**
  From the schema to the call. If a method's fields come as parameters, exceptions, result, and no parameter
  has the name of the result or of an exception, then all numberings agree. The remote call is the local
  call, whatever the method does, exactly if every exception field is a pointer without a field hasName
  beside it (or caught by nobody), every exception arrives looking like itself, and every argument that is
  a null pointer has a parameter wantName.
  */
  lemma SchemaCallIff(ps: seq<SchemaField>, rs: seq<SchemaField>, fields: seq<Field>, types: Types,
                      env: R.Env, order: Codec.Order, args: seq<R.Actual>, w: R.World)
    requires DistinctNames(ps) && DistinctNames(rs) && IsMerge(MethodTable(ps, rs), fields)
    requires NoNameShared(ps, rs, fields) && Ordered(Kept(fields))
    requires Callable(MethodOf(Kept(fields), types), env, order, args)
    requires w == C.WorldOf(MethodOf(Kept(fields), types), env, order)
    ensures Agree(Kept(fields))
    ensures SignatureFrom(ps, rs, Kept(fields), types, order, w.sig)
    ensures var fs := Kept(fields);
            E.SameAsLocal(w, args) <==>
            && (forall j :: 0 <= j < |OfKind(fs, Exc)| ==> NameTells(ps, rs, types, NameOf(OfKind(fs, Exc)[j]), w, j))
            && E.KeepsView(w)
            && (forall i :: 0 <= i < |args| && args[i].Null? ==> InNames(ps, WantName(NameOf(Carriers(fs)[i]))))
  {
    SchemaAgrees(ps, rs, fields);
    OrderedArgsFirst(Kept(fields));
    LinkedFrom(ps, rs, fields, types, order);
    SameByName(ps, rs, fields, types, env, order, args, w);
  }
}
