/**
The recursive universe of value types that travel as data: what `BuildField`
writes for a value, what `ReadField` makes of a message, into a new object or
over an old one.
*/
module Codec {
  import opened Base
  import Integers

  // ----- Types, values, messages ---------------------------------------------------------

  datatype Type =
    | Int(local: Integers.IntType, wire: Integers.IntType)
    | Enum(underlying: Integers.IntType, wire: Integers.IntType)
    | Text
    | Vec(elem: Type)
    | Set(elem: Type)
    | Map(entry: Type)                           // the type of its pairs
    | Record(isPair: bool, fields: seq<Field>)   // std::pair, or a struct with a ProxyType
    | Opt(shared: bool, elem: Type)              // std::optional, or std::shared_ptr by what it points to

  /** A struct member with its accessor: `flagged` if the schema has a `hasName` field beside it. */
  datatype Field = Field(ty: Type, flagged: bool)

  datatype Value =
    | Num(n: int)
    | Str(s: string)
    | List(elems: seq<Value>)
    | Elements(items: set<Value>)
    | Table(m: map<Value, Value>)
    | Tuple(parts: seq<Value>)
    | Maybe(o: Option<Value>)

  datatype Wire =
    | WNum(n: int)
    | WText(s: string)
    | WList(items: seq<Wire>)
    | WStruct(slots: seq<Slot>)

  /** A field of a message: its `has` flag, and its content if it was ever set. */
  datatype Slot = Slot(flag: bool, content: Option<Wire>)

  const UNSET := Slot(false, None)

  predicate IsPair(t: Type) {
    t.Record? && t.isPair
  }

  predicate IsShared(t: Type) {
    t.Opt? && t.shared
  }

  /**
  What the templates accept: integers pass their static assertions; list elements have no
  `setHas`, so are not optional; and a pair cannot be emplaced where it would be const.
  (Shared pointers as list elements and keys, which would be told apart by address, are not modelled.)
  */
  predicate Compiles(t: Type) {
    match t
    case Int(local, wire) => Integers.BuildCompiles(local, wire)
    case Enum(underlying, wire) => Integers.EnumCompiles(underlying, wire)
    case Text => true
    case Vec(e) => Compiles(e) && !e.Opt?
    case Set(e) => Compiles(e) && !e.Opt? && !IsPair(e)
    case Map(e) => Compiles(e) && IsPair(e) && |e.fields| == 2 && !IsPair(e.fields[0].ty) && !IsShared(e.fields[0].ty)
    case Record(isPair, fs) => (isPair ==> |fs| == 2) && forall i :: 0 <= i < |fs| ==> Compiles(fs[i].ty)
    case Opt(_, e) => Compiles(e)
  }

  predicate HasType(t: Type, v: Value) {
    match t
    case Int(local, _) => v.Num? && Integers.In(local, v.n)
    case Enum(underlying, _) => v.Num? && Integers.In(underlying, v.n)
    case Text => v.Str?
    case Vec(e) => v.List? && forall i :: 0 <= i < |v.elems| ==> HasType(e, v.elems[i])
    case Set(e) => v.Elements? && forall x :: x in v.items ==> HasType(e, x)
    case Map(e) => v.Table? && forall k :: k in v.m ==> HasType(e, Tuple([k, v.m[k]]))
    case Record(_, fs) => v.Tuple? && |v.parts| == |fs| && forall i :: 0 <= i < |fs| ==> HasType(fs[i].ty, v.parts[i])
    case Opt(_, e) => v.Maybe? && (v.o.Some? ==> HasType(e, v.o.value))
  }

  /** `BoxedType` of the field that carries a value: a pointer in the message. */
  predicate Boxed(t: Type) {
    match t
    case Int(_, _) => false
    case Enum(_, _) => false
    case Opt(_, e) => Boxed(e)
    case _ => true
  }

  /** `StructField::has`. */
  predicate Has(f: Field, slot: Slot) {
    if f.flagged then slot.flag else if Boxed(f.ty) then slot.content.Some? else true
  }

  /** The message is of the type the schema declares for `t`. */
  predicate Conforms(t: Type, w: Wire)
    decreases t, 0
  {
    match t
    case Int(_, wire) => w.WNum? && Integers.In(wire, w.n)
    case Enum(_, wire) => w.WNum? && Integers.In(wire, w.n)
    case Text => w.WText?
    case Vec(e) => w.WList? && forall i :: 0 <= i < |w.items| ==> Conforms(e, w.items[i])
    case Set(e) => w.WList? && forall i :: 0 <= i < |w.items| ==> Conforms(e, w.items[i])
    case Map(e) => w.WList? && forall i :: 0 <= i < |w.items| ==> Conforms(e, w.items[i])
    case Record(_, fs) =>
      w.WStruct? && |w.slots| == |fs| && forall i :: 0 <= i < |fs| ==> ConformsSlot(fs[i].ty, w.slots[i])
    case Opt(_, e) => Conforms(e, w)
  }

  predicate ConformsSlot(t: Type, slot: Slot)
    decreases t, 1
  {
    slot.content.Some? ==> Conforms(t, slot.content.value)
  }

  // ----- Building -----------------------------------------------------------------------------

  /** The order in which a std::set or the keys of a std::map are visited: any without repetition. */
  type Order = set<Value> -> seq<Value>

  ghost predicate Enumerates(order: Order) {
    forall s :: Lists(order(s), s)
  }

  predicate Lists(xs: seq<Value>, s: set<Value>) {
    && (forall i :: 0 <= i < |xs| ==> xs[i] in s)
    && (forall x :: x in s ==> x in xs)
    && (forall i, j :: 0 <= i < j < |xs| ==> xs[i] != xs[j])
  }

  /** A container has as many elements as an iteration visits. */
  lemma {:induction false} ListsAll(xs: seq<Value>, s: set<Value>)
    requires Lists(xs, s)
    ensures |xs| == |s|
  {
    if xs != [] {
      ListsAll(xs[1..], s - {xs[0]});
    }
  }

  function Entries(m: map<Value, Value>, keys: seq<Value>): (r: seq<Value>)
    requires forall i :: 0 <= i < |keys| ==> keys[i] in m
  {
    seq(|keys|, i requires 0 <= i < |keys| => Tuple([keys[i], m[keys[i]]]))
  }

  /** The message field for a value. */
  ghost function BuiltSlot(f: Field, v: Value, order: Order): Slot
    requires Compiles(f.ty) && HasType(f.ty, v) && Enumerates(order)
    decreases f.ty, 1
  {
    if f.ty.Opt? then
      if v.o.None? then UNSET
      else
        var content := BuiltSlot(Field(f.ty.elem, f.flagged), v.o.value, order);
        if f.ty.shared then content else content.(flag := f.flagged)       // only an optional calls setHas
    else
      Slot(false, Some(Built(f.ty, v, order)))
  }

  ghost function Built(t: Type, v: Value, order: Order): Wire
    requires Compiles(t) && !t.Opt? && HasType(t, v) && Enumerates(order)
    decreases t, 0
  {
    match t
    case Int(_, wire) => WNum(Integers.Build(wire, v.n))
    case Enum(_, wire) => WNum(Integers.Convert(wire, v.n))
    case Text => WText(v.s)
    case Vec(e) => WList(BuiltAll(e, v.elems, order))
    case Set(e) => WList(BuiltAll(e, order(v.items), order))
    case Map(e) => WList(BuiltAll(e, Entries(v.m, order(v.m.Keys)), order))
    case Record(_, fs) =>
      WStruct(seq(|fs|, i requires 0 <= i < |fs| => BuiltSlot(fs[i], v.parts[i], order)))
  }

  /** List elements: an optional cannot be one. */
  ghost function BuiltAll(e: Type, vs: seq<Value>, order: Order): seq<Wire>
    requires Compiles(e) && !e.Opt? && Enumerates(order)
    requires forall i :: 0 <= i < |vs| ==> HasType(e, vs[i])
    decreases e, 1
  {
    seq(|vs|, i requires 0 <= i < |vs| => Built(e, vs[i], order))
  }

  // ----- Reading ------------------------------------------------------------------------------

  /** A new object, before anything is read into it. */
  function Default(t: Type): (v: Value)
    ensures HasType(t, v)
  {
    match t
    case Int(_, _) => Num(0)
    case Enum(_, _) => Num(0)
    case Text => Str("")
    case Vec(_) => List([])
    case Set(_) => Elements({})
    case Map(_) => Table(map[])
    case Record(_, fs) => Tuple(seq(|fs|, i requires 0 <= i < |fs| => Default(fs[i].ty)))
    case Opt(_, _) => Maybe(None)
  }

  /** What an unset field reads as. */
  function Blank(t: Type): (w: Wire)
    ensures Conforms(t, w)
  {
    match t
    case Int(_, _) => WNum(0)
    case Enum(_, _) => WNum(0)
    case Text => WText("")
    case Vec(_) => WList([])
    case Set(_) => WList([])
    case Map(_) => WList([])
    case Record(_, fs) => WStruct(seq(|fs|, _ => UNSET))
    case Opt(_, e) => Blank(e)
  }

  function Content(t: Type, slot: Slot): (w: Wire)
    requires ConformsSlot(t, slot)
    ensures Conforms(t, w)
  {
    if slot.content.Some? then slot.content.value else Blank(t)
  }

  /**
  A list entry whose key is in the map already. Types that are constructed from arguments are not
  emplaced again; the others are updated where they are; a pair does either with each member.
  */
  function Kept(t: Type, stored: Value, next: Value): (v: Value)
    requires HasType(t, stored) && HasType(t, next)
    ensures HasType(t, v)
  {
    match t
    case Int(_, _) => stored
    case Enum(_, _) => stored
    case Text => stored
    case Record(isPair, fs) =>
      if isPair then
        Tuple(seq(|fs|, i requires 0 <= i < |fs| => Kept(fs[i].ty, stored.parts[i], next.parts[i])))
      else next
    case _ => next
  }

  /** The map that a list of pairs makes. */
  function Merged(e: Type, pairs: seq<Value>): (m: map<Value, Value>)
    requires Compiles(Map(e)) && forall i :: 0 <= i < |pairs| ==> HasType(e, pairs[i])
    ensures HasType(Map(e), Table(m))
  {
    if pairs == [] then map[]
    else
      var last := |pairs| - 1;
      assert HasType(e, pairs[last]) && pairs[last].parts == [pairs[last].parts[0], pairs[last].parts[1]];
      Entered(e, Merged(e, pairs[..last]), pairs[last].parts[0], pairs[last].parts[1])
  }

  function Entered(e: Type, m: map<Value, Value>, k: Value, x: Value): (r: map<Value, Value>)
    requires Compiles(Map(e)) && HasType(Map(e), Table(m)) && HasType(e, Tuple([k, x]))
    ensures HasType(Map(e), Table(r))
  {
    if k in m then
      assert HasType(e, Tuple([k, m[k]]));
      m[k := Kept(e.fields[1].ty, Tuple([k, m[k]]).parts[1], x)]
    else m[k := x]
  }

  /** The value a message field stands for, or None if an integer is out of range. */
  function Meant(f: Field, slot: Slot): (r: Option<Value>)
    requires Compiles(f.ty) && ConformsSlot(f.ty, slot)
    ensures r.Some? ==> HasType(f.ty, r.value)
    decreases f.ty, 1
  {
    if f.ty.Opt? then
      var inner := Field(f.ty.elem, f.flagged);
      assert slot.content.Some? ==> Conforms(f.ty, slot.content.value);
      if !Has(inner, slot) then Some(Maybe(None))
      else
        var r := Meant(inner, slot);
        if r.None? then None else Some(Maybe(r))
    else
      MeantBy(f.ty, Content(f.ty, slot))
  }

  function MeantBy(t: Type, w: Wire): (r: Option<Value>)
    requires Compiles(t) && !t.Opt? && Conforms(t, w)
    ensures r.Some? ==> HasType(t, r.value)
    decreases t, 0
  {
    match t
    case Int(local, wire) =>
      var r := Integers.Read(local, wire, w.n);
      if r.None? then None else Integers.ConvertFits(local, w.n); Some(Num(r.value))
    case Enum(underlying, _) => Integers.ConvertFits(underlying, w.n); Some(Num(Integers.Convert(underlying, w.n)))
    case Text => Some(Str(w.s))
    case Vec(e) =>
      var r := MeantByAll(e, w.items);
      if r.None? then None else Some(List(r.value))
    case Set(e) =>
      var r := MeantByAll(e, w.items);
      if r.None? then None else Some(Elements(set i | 0 <= i < |r.value| :: r.value[i]))
    case Map(e) =>
      var r := MeantByAll(e, w.items);
      if r.None? then None else Some(Table(Merged(e, r.value)))
    case Record(_, fs) =>
      if forall i :: 0 <= i < |fs| ==> Meant(fs[i], w.slots[i]).Some? then
        Some(Tuple(seq(|fs|, i requires 0 <= i < |fs| => Meant(fs[i], w.slots[i]).value)))
      else None
  }

  function MeantByAll(e: Type, items: seq<Wire>): (r: Option<seq<Value>>)
    requires Compiles(e) && !e.Opt?
    requires forall i :: 0 <= i < |items| ==> Conforms(e, items[i])
    ensures r.Some? ==> forall i :: 0 <= i < |r.value| ==> HasType(e, r.value[i])
    decreases e, 1
  {
    if forall i :: 0 <= i < |items| ==> MeantBy(e, items[i]).Some? then
      Some(seq(|items|, i requires 0 <= i < |items| => MeantBy(e, items[i]).value))
    else None
  }

  // ----- The round trip -----------------------------------------------------------------------

  /**
  The types whose values all arrive: integers keep their sign, and an optional has somewhere to
  put its absence: a pointer or a flag of its own, not that of another optional inside it, and a
  pointer only for a shared_ptr.
  */
  predicate Sound(f: Field)
    decreases f.ty
  {
    match f.ty
    case Int(local, wire) => !Integers.LosesSign(local, wire)
    case Enum(_, _) => true
    case Text => true
    case Vec(e) => Sound(Field(e, false))
    case Set(e) => Sound(Field(e, false))
    case Map(e) => Sound(Field(e, false))
    case Record(_, fs) => forall i :: 0 <= i < |fs| ==> Sound(fs[i])
    case Opt(_, e) => !e.Opt? && (if f.flagged then !f.ty.shared else Boxed(e)) && Sound(Field(e, f.flagged))
  }

  lemma {:induction false} BuiltSlotConforms(f: Field, v: Value, order: Order)
    requires Compiles(f.ty) && HasType(f.ty, v) && Enumerates(order)
    ensures ConformsSlot(f.ty, BuiltSlot(f, v, order))
    decreases f.ty, 1
  {
    if f.ty.Opt? {
      if v.o.Some? {
        var inner := Field(f.ty.elem, f.flagged);
        BuiltSlotConforms(inner, v.o.value, order);
        var slot := BuiltSlot(inner, v.o.value, order);
        assert slot.content.Some? ==> Conforms(f.ty, slot.content.value);
      }
    } else {
      BuiltConforms(f.ty, v, order);
    }
  }

  lemma {:induction false} BuiltConforms(t: Type, v: Value, order: Order)
    requires Compiles(t) && !t.Opt? && HasType(t, v) && Enumerates(order)
    ensures Conforms(t, Built(t, v, order))
    decreases t, 0
  {
    match t
    case Int(_, wire) => Integers.ConvertFits(wire, v.n);
    case Enum(_, wire) => Integers.ConvertFits(wire, v.n);
    case Text =>
    case Vec(e) => AllBuiltConform(e, v.elems, order);
    case Set(e) => AllBuiltConform(e, order(v.items), order);
    case Map(e) => AllBuiltConform(e, Entries(v.m, order(v.m.Keys)), order);
    case Record(_, fs) =>
      forall i | 0 <= i < |fs| ensures ConformsSlot(fs[i].ty, BuiltSlot(fs[i], v.parts[i], order)) {
        BuiltSlotConforms(fs[i], v.parts[i], order);
      }
  }

  lemma {:induction false} AllBuiltConform(e: Type, vs: seq<Value>, order: Order)
    requires Compiles(e) && !e.Opt? && Enumerates(order)
    requires forall i :: 0 <= i < |vs| ==> HasType(e, vs[i])
    ensures forall i :: 0 <= i < |vs| ==> Conforms(e, BuiltAll(e, vs, order)[i])
    decreases e, 1
  {
    forall i | 0 <= i < |vs| ensures Conforms(e, BuiltAll(e, vs, order)[i]) {
      BuiltConforms(e, vs[i], order);
    }
  }

  /** The part of a map with the given keys. */
  function Only(m: map<Value, Value>, keys: seq<Value>): map<Value, Value> {
    map k | k in m && k in keys :: m[k]
  }

  lemma OnlyMore(m: map<Value, Value>, keys: seq<Value>, k: Value)
    requires k in m
    ensures Only(m, keys + [k]) == Only(m, keys)[k := m[k]]
  {
  }

  /** The last pair is entered into what the others made. */
  lemma MergedMore(e: Type, pairs: seq<Value>, k: Value, x: Value)
    requires Compiles(Map(e)) && HasType(e, Tuple([k, x]))
    requires forall i :: 0 <= i < |pairs| ==> HasType(e, pairs[i])
    ensures Merged(e, pairs + [Tuple([k, x])]) == Entered(e, Merged(e, pairs), k, x)
  {
    var all := pairs + [Tuple([k, x])];
    assert all[..|all| - 1] == pairs;
  }

  /** Pairs with different keys make the map they came from. */
  lemma {:induction false} MergedEntries(e: Type, m: map<Value, Value>, keys: seq<Value>)
    requires Compiles(Map(e)) && HasType(Map(e), Table(m))
    requires forall i :: 0 <= i < |keys| ==> keys[i] in m
    requires forall i, j :: 0 <= i < j < |keys| ==> keys[i] != keys[j]
    ensures Merged(e, Entries(m, keys)) == Only(m, keys)
  {
    if keys != [] {
      var front, k := keys[..|keys| - 1], keys[|keys| - 1];
      assert keys == front + [k];
      MergedEntries(e, m, front);
      assert HasType(e, Tuple([k, m[k]]));
      MergedMore(e, Entries(m, front), k, m[k]);
      OnlyMore(m, front, k);
      assert Entries(m, keys) == Entries(m, front) + [Tuple([k, m[k]])];
    }
  }

  lemma SameElements(xs: seq<Value>, s: set<Value>)
    requires Lists(xs, s)
    ensures (set i | 0 <= i < |xs| :: xs[i]) == s
  {
    forall x | x in s ensures x in set i | 0 <= i < |xs| :: xs[i] {
      assert x in xs;
    }
  }

  /** Reading what was built gives the value back, whatever the iteration order of sets and maps. */
  lemma {:induction false} RoundTrip(f: Field, v: Value, order: Order)
    requires Compiles(f.ty) && Sound(f) && HasType(f.ty, v) && Enumerates(order)
    ensures ConformsSlot(f.ty, BuiltSlot(f, v, order)) && Meant(f, BuiltSlot(f, v, order)) == Some(v)
    decreases f.ty, 2
  {
    BuiltSlotConforms(f, v, order);
    if f.ty.Opt? {
      if v.o.Some? {
        var inner := Field(f.ty.elem, f.flagged);
        BuiltSlotConforms(inner, v.o.value, order);
        RoundTrip(inner, v.o.value, order);
        FlagIgnored(inner, BuiltSlot(inner, v.o.value, order), f.flagged);
      }
    } else {
      RoundTripBy(f.ty, v, order);
    }
  }

  /** A type that is not optional does not look at the flag. */
  lemma FlagIgnored(f: Field, slot: Slot, flag: bool)
    requires Compiles(f.ty) && ConformsSlot(f.ty, slot) && !f.ty.Opt?
    ensures ConformsSlot(f.ty, slot.(flag := flag)) && Meant(f, slot.(flag := flag)) == Meant(f, slot)
  {
  }

  lemma {:induction false} RoundTripBy(t: Type, v: Value, order: Order)
    requires Compiles(t) && !t.Opt? && Sound(Field(t, false)) && HasType(t, v) && Enumerates(order)
    ensures Conforms(t, Built(t, v, order)) && MeantBy(t, Built(t, v, order)) == Some(v)
    decreases t, 0
  {
    BuiltConforms(t, v, order);
    match t
    case Int(local, wire) =>
      Integers.RoundTripIff(local, wire);
    case Enum(underlying, wire) => Integers.EnumRoundTrips(underlying, wire, v.n);
    case Text =>
    case Vec(e) => RoundTripAll(e, v.elems, order);
    case Set(e) =>
      RoundTripAll(e, order(v.items), order);
      SameElements(order(v.items), v.items);
    case Map(e) =>
      RoundTripAll(e, Entries(v.m, order(v.m.Keys)), order);
      MergedEntries(e, v.m, order(v.m.Keys));
      assert Only(v.m, order(v.m.Keys)) == v.m;
    case Record(_, fs) =>
      forall i | 0 <= i < |fs|
        ensures ConformsSlot(fs[i].ty, BuiltSlot(fs[i], v.parts[i], order))
        ensures Meant(fs[i], BuiltSlot(fs[i], v.parts[i], order)) == Some(v.parts[i])
      {
        RoundTrip(fs[i], v.parts[i], order);
      }
      assert MeantBy(t, Built(t, v, order)).value.parts == v.parts;
  }

  lemma {:induction false} RoundTripAll(e: Type, vs: seq<Value>, order: Order)
    requires Compiles(e) && !e.Opt? && Sound(Field(e, false)) && Enumerates(order)
    requires forall i :: 0 <= i < |vs| ==> HasType(e, vs[i])
    ensures forall i :: 0 <= i < |vs| ==> Conforms(e, BuiltAll(e, vs, order)[i])
    ensures MeantByAll(e, BuiltAll(e, vs, order)) == Some(vs)
    decreases e, 1
  {
    forall i | 0 <= i < |vs|
      ensures Conforms(e, BuiltAll(e, vs, order)[i]) && MeantBy(e, BuiltAll(e, vs, order)[i]) == Some(vs[i])
    {
      RoundTripBy(e, vs[i], order);
    }
    assert MeantByAll(e, BuiltAll(e, vs, order)).value == vs;
  }

  // ----- The types that do not arrive ------------------------------------------------------------

  /** Every value of the type is read back as it was built. */
  ghost predicate RoundTrips(f: Field)
    requires Compiles(f.ty)
  {
    forall v, order :: HasType(f.ty, v) && Enumerates(order) ==> Arrives(f, v, order)
  }

  ghost predicate Arrives(f: Field, v: Value, order: Order)
    requires Compiles(f.ty) && HasType(f.ty, v) && Enumerates(order)
  {
    BuiltSlotConforms(f, v, order);
    Meant(f, BuiltSlot(f, v, order)) == Some(v)
  }

  ghost function BadField(fs: seq<Field>): (i: nat)
    requires exists i :: 0 <= i < |fs| && !Sound(fs[i])
    ensures i < |fs| && !Sound(fs[i])
  {
    var i :| 0 <= i < |fs| && !Sound(fs[i]);
    i
  }

  /** A value of an unsound type that is not read back. */
  ghost function Lost(f: Field): (v: Value)
    requires Compiles(f.ty) && !Sound(f)
    ensures HasType(f.ty, v)
    decreases f.ty
  {
    match f.ty
    case Int(_, _) => Num(0)
    case Vec(e) => List([Lost(Field(e, false))])
    case Set(e) => Elements({Lost(Field(e, false))})
    case Map(e) =>
      var p := Lost(Field(e, false)).parts;
      assert p == [p[0], p[1]];
      Table(map[p[0] := p[1]])
    case Record(_, fs) =>
      var bad := BadField(fs);
      Tuple(seq(|fs|, i requires 0 <= i < |fs| => if i == bad then Lost(fs[i]) else Default(fs[i].ty)))
    case Opt(_, e) =>
      if e.Opt? then Maybe(Some(Maybe(None)))
      else if f.flagged && f.ty.shared then Maybe(Some(Default(e)))
      else if !f.flagged && !Boxed(e) then Maybe(None)
      else Maybe(Some(Lost(Field(e, f.flagged))))
  }

  lemma SingletonOrder(x: Value, order: Order)
    requires Enumerates(order)
    ensures order({x}) == [x]
  {
    assert Lists(order({x}), {x});
    ListsAll(order({x}), {x});
  }

  /** A list with one lost element: the reader throws or gets another element. */
  lemma OneLostItem(e: Type, x: Value, order: Order)
    requires Compiles(e) && !e.Opt? && HasType(e, x) && Enumerates(order)
    requires !Arrives(Field(e, false), x, order)
    ensures Conforms(e, BuiltAll(e, [x], order)[0])
    ensures var r := MeantByAll(e, BuiltAll(e, [x], order)); r.Some? ==> |r.value| == 1 && r.value[0] != x
  {
    BuiltConforms(e, x, order);
  }

  /** Where no optional is involved, the field is its content. */
  lemma ArrivesBy(f: Field, v: Value, order: Order)
    requires Compiles(f.ty) && !f.ty.Opt? && HasType(f.ty, v) && Enumerates(order)
    ensures Conforms(f.ty, Built(f.ty, v, order))
    ensures Arrives(f, v, order) <==> MeantBy(f.ty, Built(f.ty, v, order)) == Some(v)
  {
    BuiltConforms(f.ty, v, order);
  }

  lemma LostElement(f: Field, x: Value, order: Order)
    requires Compiles(f.ty) && f.ty.Vec? && HasType(f.ty.elem, x) && Enumerates(order)
    requires !Arrives(Field(f.ty.elem, false), x, order)
    ensures !Arrives(f, List([x]), order)
  {
    OneLostItem(f.ty.elem, x, order);
    ArrivesBy(f, List([x]), order);
  }

  lemma LostMemberOfSet(f: Field, x: Value, order: Order)
    requires Compiles(f.ty) && f.ty.Set? && HasType(f.ty.elem, x) && Enumerates(order)
    requires !Arrives(Field(f.ty.elem, false), x, order)
    ensures !Arrives(f, Elements({x}), order)
  {
    OneLostItem(f.ty.elem, x, order);
    SingletonOrder(x, order);
    ArrivesBy(f, Elements({x}), order);
    var r := MeantByAll(f.ty.elem, BuiltAll(f.ty.elem, [x], order));
    if r.Some? {
      assert r.value[0] in set i | 0 <= i < |r.value| :: r.value[i];
    }
  }

  /** A map made of one pair holds that pair. */
  lemma MergedOne(e: Type, p: Value)
    requires Compiles(Map(e)) && HasType(e, p)
    ensures |p.parts| == 2 && Merged(e, [p]) == map[p.parts[0] := p.parts[1]]
  {
    assert p.parts == [p.parts[0], p.parts[1]];
    MergedMore(e, [], p.parts[0], p.parts[1]);
    assert [p] == [] + [Tuple([p.parts[0], p.parts[1]])];
  }

  lemma OnePairMaps(a: Value, b: Value, k: Value, x: Value)
    ensures map[a := b] == map[k := x] <==> a == k && b == x
  {
    assert a in map[a := b] && map[a := b][a] == b;
  }

  lemma OtherPair(e: Type, p: Value, k: Value, x: Value)
    requires Compiles(Map(e)) && HasType(e, p) && p != Tuple([k, x])
    ensures Merged(e, [p]) != map[k := x]
  {
    MergedOne(e, p);
    assert p.parts == [p.parts[0], p.parts[1]] && p == Tuple(p.parts);
    OnePairMaps(p.parts[0], p.parts[1], k, x);
  }

  lemma LostEntry(f: Field, k: Value, x: Value, order: Order)
    requires Compiles(f.ty) && f.ty.Map? && HasType(f.ty.entry, Tuple([k, x])) && Enumerates(order)
    requires !Arrives(Field(f.ty.entry, false), Tuple([k, x]), order)
    ensures !Arrives(f, Table(map[k := x]), order)
  {
    var e, m := f.ty.entry, map[k := x];
    OneLostItem(e, Tuple([k, x]), order);
    SingletonOrder(k, order);
    assert m.Keys == {k};
    assert Entries(m, [k]) == [Tuple([k, x])];
    ArrivesBy(f, Table(m), order);
    var r := MeantByAll(e, BuiltAll(e, [Tuple([k, x])], order));
    if r.Some? {
      assert r.value == [r.value[0]];
      OtherPair(e, r.value[0], k, x);
    }
  }

  lemma LostMember(f: Field, v: Value, bad: nat, order: Order)
    requires Compiles(f.ty) && f.ty.Record? && HasType(f.ty, v) && Enumerates(order)
    requires bad < |f.ty.fields| && !Arrives(f.ty.fields[bad], v.parts[bad], order)
    ensures !Arrives(f, v, order)
  {
    ArrivesBy(f, v, order);
    var w := Built(f.ty, v, order);
    assert w.slots[bad] == BuiltSlot(f.ty.fields[bad], v.parts[bad], order);
    if MeantBy(f.ty, w).Some? {
      assert MeantBy(f.ty, w).value.parts[bad] == Meant(f.ty.fields[bad], w.slots[bad]).value;
    }
  }

  /** A shared_ptr in a field with a flag, which it does not set, becomes null. */
  lemma LostPresence(f: Field, x: Value, order: Order)
    requires Compiles(f.ty) && IsShared(f.ty) && f.flagged && !f.ty.elem.Opt?
    requires HasType(f.ty.elem, x) && Enumerates(order)
    ensures !Arrives(f, Maybe(Some(x)), order)
  {
    BuiltSlotConforms(f, Maybe(Some(x)), order);
    assert !BuiltSlot(f, Maybe(Some(x)), order).flag;
  }

  /**
  An absent optional in a plain number becomes present; one inside a present one becomes present, or takes it
  away.
  */
  lemma LostAbsence(f: Field, order: Order)
    requires Compiles(f.ty) && f.ty.Opt? && Enumerates(order)
    ensures f.ty.elem.Opt? ==> !Arrives(f, Maybe(Some(Maybe(None))), order)
    ensures !f.flagged && !Boxed(f.ty.elem) ==> !Arrives(f, Maybe(None), order)
  {
    var inner := Field(f.ty.elem, f.flagged);
    BuiltSlotConforms(f, Maybe(None), order);
    if f.ty.elem.Opt? {
      var v, slot := Maybe(Some(Maybe(None))), Slot(f.flagged && !f.ty.shared, None);
      assert HasType(inner.ty, Maybe(None)) && BuiltSlot(inner, Maybe(None), order) == UNSET;
      BuiltSlotConforms(f, v, order);
      assert BuiltSlot(f, v, order) == slot;
      assert Meant(inner, slot) != Some(Maybe(None)) || !Has(inner, slot);
    }
  }

  lemma LostInside(f: Field, x: Value, order: Order)
    requires Compiles(f.ty) && f.ty.Opt? && !f.ty.elem.Opt? && HasType(f.ty.elem, x) && Enumerates(order)
    requires !Arrives(Field(f.ty.elem, f.flagged), x, order)
    ensures !Arrives(f, Maybe(Some(x)), order)
  {
    var inner := Field(f.ty.elem, f.flagged);
    BuiltSlotConforms(inner, x, order);
    BuiltSlotConforms(f, Maybe(Some(x)), order);
    FlagIgnored(inner, BuiltSlot(inner, x, order), f.flagged);
  }

  lemma {:induction false} LostIsLost(f: Field, order: Order)
    requires Compiles(f.ty) && !Sound(f) && Enumerates(order)
    ensures !Arrives(f, Lost(f), order)
    decreases f.ty
  {
    match f.ty
    case Int(local, wire) =>
      BuiltSlotConforms(f, Num(0), order);
      Integers.LosingSignRejectsEverything(local, wire, 0);
    case Vec(e) =>
      LostIsLost(Field(e, false), order);
      LostElement(f, Lost(Field(e, false)), order);
    case Set(e) =>
      LostIsLost(Field(e, false), order);
      LostMemberOfSet(f, Lost(Field(e, false)), order);
    case Map(e) =>
      LostIsLost(Field(e, false), order);
      var p := Lost(Field(e, false)).parts;
      assert Lost(Field(e, false)) == Tuple([p[0], p[1]]);
      LostEntry(f, p[0], p[1], order);
    case Record(_, fs) =>
      var bad := BadField(fs);
      LostIsLost(fs[bad], order);
      LostMember(f, Lost(f), bad, order);
    case Opt(_, e) =>
      LostAbsence(f, order);
      if !e.Opt? && f.flagged && f.ty.shared {
        LostPresence(f, Default(e), order);
      } else if !e.Opt? && (f.flagged || Boxed(e)) {
        LostIsLost(Field(e, f.flagged), order);
        LostInside(f, Lost(Field(e, f.flagged)), order);
      }
  }

  /**
  Strings, lists, sets, maps and structs are pointers in a message: where an optional or a shared_ptr of one is
  absent, that can be seen without a flag.
  */
  lemma AbsentPointerArrives(t: Type, shared: bool, order: Order)
    requires Compiles(t) && !t.Int? && !t.Enum? && !t.Opt? && Enumerates(order)
    ensures Arrives(Field(Opt(shared, t), false), Maybe(None), order)
    ensures Meant(Field(Opt(shared, t), false), UNSET) == Some(Maybe(None))
  {
    BuiltSlotConforms(Field(Opt(shared, t), false), Maybe(None), order);
  }

  /** Numbers are not: an absent one is read as present. */
  lemma AbsentNumberLost(t: Type, shared: bool, order: Order)
    requires Compiles(t) && (t.Int? || t.Enum?) && Enumerates(order)
    ensures !Arrives(Field(Opt(shared, t), false), Maybe(None), order)
  {
    BuiltSlotConforms(Field(Opt(shared, t), false), Maybe(None), order);
  }

  /** With a flag every optional can be absent, and whether it is does not depend on what else is in the message. */
  lemma FlagDecides(t: Type, slot: Slot)
    requires Compiles(t) && ConformsSlot(t, slot)
    ensures ConformsSlot(Opt(false, t), slot)
    ensures !slot.flag ==> Meant(Field(Opt(false, t), true), slot) == Some(Maybe(None))
    ensures slot.flag ==> Meant(Field(Opt(false, t), true), slot) != Some(Maybe(None))
  {
    assert slot.content.Some? ==> Conforms(Opt(false, t), slot.content.value);
  }

  /** Some iteration order, to show that there are any. */
  ghost function Listed(s: set<Value>): (xs: seq<Value>)
    ensures Lists(xs, s)
  {
    if s == {} then []
    else
      var x :| x in s;
      [x] + Listed(s - {x})
  }

  /** Among the types that compile, exactly the sound ones round-trip. */
  lemma RoundTripsIffSound(f: Field)
    requires Compiles(f.ty)
    ensures RoundTrips(f) <==> Sound(f)
  {
    if Sound(f) {
      forall v, order | HasType(f.ty, v) && Enumerates(order) ensures Arrives(f, v, order) {
        RoundTrip(f, v, order);
      }
    } else {
      var order := s => Listed(s);
      LostIsLost(f, order);
    }
  }

  // ----- Lists with duplicate keys ----------------------------------------------------------------

  /** Types whose readers construct the object from arguments. */
  predicate IsConstructed(t: Type) {
    t.Int? || t.Enum? || t.Text?
  }

  function Key(e: Type, p: Value): Value
    requires Compiles(Map(e)) && HasType(e, p)
  {
    p.parts[0]
  }

  /** The type at the end of a path through nested pairs, and the value there. */
  function TypeAt(t: Type, path: seq<nat>): Option<Type> {
    if path == [] then Some(t)
    else if IsPair(t) && path[0] < |t.fields| then TypeAt(t.fields[path[0]].ty, path[1..])
    else None
  }

  function ValueAt(v: Value, path: seq<nat>): Value {
    if path != [] && v.Tuple? && path[0] < |v.parts| then ValueAt(v.parts[path[0]], path[1..]) else v
  }

  lemma {:induction false} KeptAt(t: Type, stored: Value, next: Value, path: seq<nat>)
    requires HasType(t, stored) && HasType(t, next)
    requires TypeAt(t, path).Some? && !IsPair(TypeAt(t, path).value)
    ensures ValueAt(Kept(t, stored, next), path) ==
            ValueAt(if IsConstructed(TypeAt(t, path).value) then stored else next, path)
  {
    if path != [] {
      var i := path[0];
      KeptAt(t.fields[i].ty, stored.parts[i], next.parts[i], path[1..]);
    }
  }

  lemma EnteredAt(e: Type, m: map<Value, Value>, k: Value, x: Value, path: seq<nat>)
    requires Compiles(Map(e)) && HasType(Map(e), Table(m)) && HasType(e, Tuple([k, x])) && k in m
    requires TypeAt(e.fields[1].ty, path).Some? && !IsPair(TypeAt(e.fields[1].ty, path).value)
    ensures ValueAt(Entered(e, m, k, x)[k], path) ==
            ValueAt(if IsConstructed(TypeAt(e.fields[1].ty, path).value) then m[k] else x, path)
  {
    assert HasType(e, Tuple([k, m[k]])) && HasType(e.fields[1].ty, Tuple([k, m[k]]).parts[1]);
    assert HasType(e.fields[1].ty, Tuple([k, x]).parts[1]);
    KeptAt(e.fields[1].ty, m[k], x, path);
  }

  /**
  Of several pairs with one key, the first gives a constructed value, the last an updated one; where the value
  is itself a pair, that is decided for each member.
  */
  lemma {:induction false} WhoWins(e: Type, pairs: seq<Value>, i: nat, path: seq<nat>)
    requires Compiles(Map(e)) && forall j :: 0 <= j < |pairs| ==> HasType(e, pairs[j])
    requires i < |pairs| && TypeAt(e.fields[1].ty, path).Some? && !IsPair(TypeAt(e.fields[1].ty, path).value)
    requires if IsConstructed(TypeAt(e.fields[1].ty, path).value)
             then forall j :: 0 <= j < i ==> Key(e, pairs[j]) != Key(e, pairs[i])
             else forall j :: i < j < |pairs| ==> Key(e, pairs[j]) != Key(e, pairs[i])
    ensures var k := Key(e, pairs[i]);
            && k in Merged(e, pairs) && pairs[i] == Tuple([k, pairs[i].parts[1]])
            && ValueAt(Merged(e, pairs)[k], path) == ValueAt(pairs[i].parts[1], path)
  {
    var front, last := pairs[..|pairs| - 1], pairs[|pairs| - 1];
    var m, k, x := Merged(e, front), Key(e, last), last.parts[1];
    LastEnters(e, pairs);
    if k in m {
      EnteredAt(e, m, k, x, path);
    }
    if i < |front| {
      WhoWins(e, front, i, path);
    } else if IsConstructed(TypeAt(e.fields[1].ty, path).value) {
      NewKey(e, front, k);
    }
  }

  lemma LastEnters(e: Type, pairs: seq<Value>)
    requires Compiles(Map(e)) && pairs != [] && forall j :: 0 <= j < |pairs| ==> HasType(e, pairs[j])
    ensures var front, last := pairs[..|pairs| - 1], pairs[|pairs| - 1];
            && last == Tuple([Key(e, last), last.parts[1]])
            && Merged(e, pairs) == Entered(e, Merged(e, front), Key(e, last), last.parts[1])
  {
  }

  lemma {:induction false} NewKey(e: Type, pairs: seq<Value>, k: Value)
    requires Compiles(Map(e)) && forall j :: 0 <= j < |pairs| ==> HasType(e, pairs[j])
    ensures k in Merged(e, pairs) <==> exists j :: 0 <= j < |pairs| && Key(e, pairs[j]) == k
  {
    if pairs != [] {
      NewKey(e, pairs[..|pairs| - 1], k);
    }
  }
}
