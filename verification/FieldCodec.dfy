/**
The `CustomBuildField` and `CustomReadField` overloads as they run: loops over
lists, index recursion over structs, and destinations that are new objects, old
objects, or objects already in a container.
*/
module FieldCodec {
  import opened Base
  import opened Codec
  import Integers

  // ----- Building ------------------------------------------------------------------------------

  method BuildField(f: Field, v: Value, order: Order) returns (output: Slot)
    requires Compiles(f.ty) && HasType(f.ty, v) && Enumerates(order)
    ensures output == BuiltSlot(f, v, order)
    decreases f.ty, 3, 0
  {
    output := UNSET;
    if f.ty.Opt? {
      if v.o.Some? {
        var content := BuildField(Field(f.ty.elem, f.flagged), v.o.value, order);
        output := if f.ty.shared then content else content.(flag := f.flagged);
      }
    } else {
      var w := BuildValue(f.ty, v, order);
      output := output.(content := Some(w));
    }
  }

  method BuildValue(t: Type, v: Value, order: Order) returns (w: Wire)
    requires Compiles(t) && !t.Opt? && HasType(t, v) && Enumerates(order)
    ensures w == Built(t, v, order)
    decreases t, 2, 0
  {
    match t
    case Int(_, wire) => w := WNum(Integers.Build(wire, v.n));
    case Enum(_, wire) => w := WNum(Integers.Convert(wire, v.n));
    case Text => w := WText(v.s);
    case Vec(e) =>
      var list := BuildList(e, |v.elems|, v.elems, order);
      w := WList(list);
    case Set(e) =>
      ListsAll(order(v.items), v.items);
      var list := BuildList(e, |v.items|, order(v.items), order);
      w := WList(list);
    case Map(e) =>
      ListsAll(order(v.m.Keys), v.m.Keys);
      var list := BuildList(e, |v.m.Keys|, Entries(v.m, order(v.m.Keys)), order);
      w := WList(list);
    case Record(_, fs) =>
      var slots := BuildOne(t, v, 0, seq(|fs|, _ => UNSET), order);
      w := WStruct(slots);
  }

  /** The list is created with the size of the container; the visits fill all of it. */
  method BuildList(e: Type, size: nat, visits: seq<Value>, order: Order) returns (list: seq<Wire>)
    requires Compiles(e) && !e.Opt? && Enumerates(order)
    requires size == |visits| && forall i :: 0 <= i < |visits| ==> HasType(e, visits[i])
    ensures list == BuiltAll(e, visits, order)
    decreases e, 3, 0
  {
    list := seq(size, _ => Blank(e));
    var i := 0;
    while i < |visits|
      invariant 0 <= i <= |visits| && |list| == size
      invariant forall j :: 0 <= j < i ==> list[j] == Built(e, visits[j], order)
    {
      var w := BuildValue(e, visits[i], order);
      list := list[i := w];
      i := i + 1;
    }
  }

  /** Members from `index` on are built, the ones before are done. */
  method BuildOne(t: Type, v: Value, index: nat, begun: seq<Slot>, order: Order) returns (slots: seq<Slot>)
    requires Compiles(t) && t.Record? && HasType(t, v) && Enumerates(order)
    requires |begun| == |t.fields| && index <= |begun|
    requires forall j :: 0 <= j < index ==> begun[j] == BuiltSlot(t.fields[j], v.parts[j], order)
    ensures slots == Built(t, v, order).slots
    decreases t, 1, |t.fields| - index
  {
    slots := begun;
    if index < |t.fields| {
      var slot := BuildField(t.fields[index], v.parts[index], order);
      slots := BuildOne(t, v, index + 1, slots[index := slot], order);
    }
  }

  // ----- Reading --------------------------------------------------------------------------------

  /** A new object, an object to be overwritten, or an element that stays where `emplace` found it. */
  datatype Dest = New | Over(current: Value) | Clash(stored: Value)

  predicate DestOk(t: Type, dest: Dest) {
    match dest
    case New => true
    case Over(v) => HasType(t, v)
    case Clash(v) => HasType(t, v)
  }

  /** What the destination ends up with: the value read, unless an element of a map was there before. */
  function Landed(t: Type, r: Option<Value>, dest: Dest): Option<Value>
    requires DestOk(t, dest) && (r.Some? ==> HasType(t, r.value))
  {
    if r.Some? && dest.Clash? then Some(Kept(t, dest.stored, r.value)) else r
  }

  /** `construct`: a new object from arguments; `emplace` leaves an element that exists alone. */
  function Constructed(v: Value, dest: Dest): Value {
    if dest.Clash? then dest.stored else v
  }

  /** The object that `update` hands to its function. */
  function Target(t: Type, dest: Dest): (v: Value)
    requires DestOk(t, dest)
    ensures HasType(t, v)
  {
    match dest
    case New => Default(t)
    case Over(v) => v
    case Clash(v) => v
  }

  method ReadField(f: Field, input: Slot, dest: Dest) returns (r: Option<Value>)
    requires Compiles(f.ty) && ConformsSlot(f.ty, input) && DestOk(f.ty, dest)
    ensures r == Landed(f.ty, Meant(f, input), dest)
    decreases f.ty, 3, 0
  {
    if f.ty.Opt? {
      r := ReadOptional(f, input, Target(f.ty, dest));
    } else {
      r := ReadValue(f.ty, Content(f.ty, input), dest);
    }
  }

  /** `reset`, read over the present value, or emplace a new one. */
  method ReadOptional(f: Field, input: Slot, current: Value) returns (r: Option<Value>)
    requires Compiles(f.ty) && f.ty.Opt? && ConformsSlot(f.ty, input) && HasType(f.ty, current)
    ensures r == Meant(f, input)
    decreases f.ty, 2, 0
  {
    var inner := Field(f.ty.elem, f.flagged);
    assert input.content.Some? ==> Conforms(f.ty, input.content.value);
    if !Has(inner, input) {
      return Some(Maybe(None));
    }
    var x := ReadField(inner, input, if current.o.Some? then Over(current.o.value) else New);
    r := if x.None? then None else Some(Maybe(x));
  }

  method ReadValue(t: Type, w: Wire, dest: Dest) returns (r: Option<Value>)
    requires Compiles(t) && !t.Opt? && Conforms(t, w) && DestOk(t, dest)
    ensures r == Landed(t, MeantBy(t, w), dest)
    decreases t, 2, 0
  {
    match t
    case Int(local, wire) =>
      var x := Integers.Read(local, wire, w.n);
      r := if x.None? then None else Some(Constructed(Num(x.value), dest));
    case Enum(underlying, _) => r := Some(Constructed(Num(Integers.Convert(underlying, w.n)), dest));
    case Text => r := Some(Constructed(Str(w.s), dest));
    case Vec(_) => r := ReadVector(t, w.items, Target(t, dest));
    case Set(_) => r := ReadSet(t, w.items, Target(t, dest));
    case Map(_) => r := ReadMap(t, w.items, Target(t, dest));
    case Record(isPair, _) =>
      if isPair {
        r := ReadPair(t, w.slots, dest);
      } else {
        r := ReadOne(t, w.slots, 0, Target(t, dest));
      }
  }

  /** The first elements have been read as `got`. */
  ghost predicate Got(e: Type, items: seq<Wire>, got: seq<Value>)
    requires Compiles(e) && !e.Opt? && forall i :: 0 <= i < |items| ==> Conforms(e, items[i])
  {
    |got| <= |items| && forall j :: 0 <= j < |got| ==> MeantBy(e, items[j]) == Some(got[j])
  }

  lemma GotMore(e: Type, items: seq<Wire>, got: seq<Value>, x: Value)
    requires Compiles(e) && !e.Opt? && forall i :: 0 <= i < |items| ==> Conforms(e, items[i])
    requires Got(e, items, got) && |got| < |items| && MeantBy(e, items[|got|]) == Some(x)
    ensures Got(e, items, got + [x])
  {
  }

  lemma GotTyped(e: Type, items: seq<Wire>, got: seq<Value>)
    requires Compiles(e) && !e.Opt? && forall i :: 0 <= i < |items| ==> Conforms(e, items[i])
    requires Got(e, items, got)
    ensures forall j :: 0 <= j < |got| ==> HasType(e, got[j])
  {
    forall j | 0 <= j < |got| ensures HasType(e, got[j]) {
      assert MeantBy(e, items[j]) == Some(got[j]);
    }
  }

  lemma GotAll(e: Type, items: seq<Wire>, got: seq<Value>)
    requires Compiles(e) && !e.Opt? && forall i :: 0 <= i < |items| ==> Conforms(e, items[i])
    requires Got(e, items, got) && |got| == |items|
    ensures MeantByAll(e, items) == Some(got)
  {
    assert forall i :: 0 <= i < |items| ==> MeantBy(e, items[i]) == Some(got[i]);
    assert MeantByAll(e, items).value == got;
  }

  lemma OneFails(e: Type, items: seq<Wire>, i: nat)
    requires Compiles(e) && !e.Opt? && forall i :: 0 <= i < |items| ==> Conforms(e, items[i])
    requires i < |items| && MeantBy(e, items[i]).None?
    ensures MeantByAll(e, items) == None
  {
  }

  method ReadVector(t: Type, items: seq<Wire>, current: Value) returns (r: Option<Value>)
    requires Compiles(t) && t.Vec? && Conforms(t, WList(items)) && HasType(t, current)
    ensures r == MeantBy(t, WList(items))
    decreases t, 1, 0
  {
    var value := current.elems;
    value := [];
    for i := 0 to |items|
      invariant |value| == i && Got(t.elem, items, value)
    {
      var x := ReadValue(t.elem, items[i], New);
      if x.None? {
        OneFails(t.elem, items, i);
        return None;
      }
      GotMore(t.elem, items, value, x.value);
      value := value + [x.value];
    }
    GotAll(t.elem, items, value);
    r := Some(List(value));
  }

  method ReadSet(t: Type, items: seq<Wire>, current: Value) returns (r: Option<Value>)
    requires Compiles(t) && t.Set? && Conforms(t, WList(items)) && HasType(t, current)
    ensures r == MeantBy(t, WList(items))
    decreases t, 1, 0
  {
    var value := current.items;
    value := {};
    ghost var got: seq<Value> := [];
    for i := 0 to |items|
      invariant |got| == i && Got(t.elem, items, got)
      invariant value == set j | 0 <= j < |got| :: got[j]
    {
      var x := ReadValue(t.elem, items[i], New);
      if x.None? {
        OneFails(t.elem, items, i);
        return None;
      }
      GotMore(t.elem, items, got, x.value);
      value := value + {x.value};
      got := got + [x.value];
    }
    GotAll(t.elem, items, got);
    r := Some(Elements(value));
  }

  /** Each pair is read into the map: its key first, then its value, new or over what is there. */
  method ReadMap(t: Type, items: seq<Wire>, current: Value) returns (r: Option<Value>)
    requires Compiles(t) && t.Map? && Conforms(t, WList(items)) && HasType(t, current)
    ensures r == MeantBy(t, WList(items))
    decreases t, 1, 0
  {
    var value := current.m;
    value := map[];
    ghost var got: seq<Value> := [];
    for i := 0 to |items|
      invariant |got| == i && Got(t.entry, items, got)
      invariant forall j :: 0 <= j < i ==> HasType(t.entry, got[j])
      invariant value == Merged(t.entry, got)
    {
      var more := ReadEntry(t.entry, items[i], value);
      if more.None? {
        OneFails(t.entry, items, i);
        return None;
      }
      ghost var pair := MeantBy(t.entry, items[i]).value;
      MergedOneMore(t.entry, got, pair);
      GotMore(t.entry, items, got, pair);
      value := more.value;
      got := got + [pair];
      GotTyped(t.entry, items, got);
    }
    GotAll(t.entry, items, got);
    r := Some(Table(value));
  }

  lemma MergedOneMore(e: Type, pairs: seq<Value>, p: Value)
    requires Compiles(Map(e)) && HasType(e, p)
    requires forall i :: 0 <= i < |pairs| ==> HasType(e, pairs[i])
    ensures |p.parts| == 2 && HasType(e, Tuple([p.parts[0], p.parts[1]]))
    ensures Merged(e, pairs + [p]) == Entered(e, Merged(e, pairs), p.parts[0], p.parts[1])
  {
    assert p == Tuple([p.parts[0], p.parts[1]]);
    MergedMore(e, pairs, p.parts[0], p.parts[1]);
  }

  /** The key is read by itself; the value is read into the element that `emplace` made or found. */
  method ReadEntry(e: Type, item: Wire, m: map<Value, Value>) returns (r: Option<map<Value, Value>>)
    requires Compiles(Map(e)) && Conforms(e, item) && HasType(Map(e), Table(m))
    ensures r.None? == MeantBy(e, item).None?
    ensures r.Some? ==>
              var pair := MeantBy(e, item).value.parts;
              |pair| == 2 && HasType(e, Tuple([pair[0], pair[1]])) && r.value == Entered(e, m, pair[0], pair[1])
    decreases e, 2, 0
  {
    var key := ReadField(e.fields[0], item.slots[0], New);
    if key.None? {
      return None;
    }
    var dest := if key.value in m then Clash(m[key.value]) else New;
    EntryTyped(e, m, key.value);
    var x := ReadField(e.fields[1], item.slots[1], dest);
    if x.None? {
      return None;
    }
    PairRead(e, item.slots);
    r := Some(m[key.value := x.value]);
  }

  lemma EntryTyped(e: Type, m: map<Value, Value>, k: Value)
    requires Compiles(Map(e)) && HasType(Map(e), Table(m))
    ensures k in m ==> HasType(e.fields[1].ty, m[k])
  {
    if k in m {
      assert HasType(e, Tuple([k, m[k]]));
      assert Tuple([k, m[k]]).parts[1] == m[k];
    }
  }

  lemma PairRead(t: Type, slots: seq<Slot>)
    requires Compiles(t) && IsPair(t) && Conforms(t, WStruct(slots))
    ensures |t.fields| == 2 == |slots|
    ensures ConformsSlot(t.fields[0].ty, slots[0]) && ConformsSlot(t.fields[1].ty, slots[1])
    ensures var a, b := Meant(t.fields[0], slots[0]), Meant(t.fields[1], slots[1]);
            MeantBy(t, WStruct(slots)) == if a.Some? && b.Some? then Some(Tuple([a.value, b.value])) else None
  {
    var a, b := Meant(t.fields[0], slots[0]), Meant(t.fields[1], slots[1]);
    if a.Some? && b.Some? {
      assert MeantBy(t, WStruct(slots)).value.parts == [a.value, b.value];
    }
  }

  /** An element found in a map keeps or takes over each member by itself. */
  lemma PairKept(t: Type, stored: Value, a: Value, b: Value)
    requires Compiles(t) && IsPair(t) && HasType(t, stored) && HasType(t, Tuple([a, b]))
    ensures HasType(t.fields[0].ty, stored.parts[0]) && HasType(t.fields[1].ty, stored.parts[1])
    ensures HasType(t.fields[0].ty, a) && HasType(t.fields[1].ty, b)
    ensures Kept(t, stored, Tuple([a, b])) ==
            Tuple([Kept(t.fields[0].ty, stored.parts[0], a), Kept(t.fields[1].ty, stored.parts[1], b)])
  {
    var v := Tuple([a, b]);
    assert v.parts[0] == a && v.parts[1] == b;
  }

  /** Both members are constructed together, or both belong to an element that was there before. */
  method ReadPair(t: Type, slots: seq<Slot>, dest: Dest) returns (r: Option<Value>)
    requires Compiles(t) && IsPair(t) && Conforms(t, WStruct(slots)) && DestOk(t, dest)
    ensures r == Landed(t, MeantBy(t, WStruct(slots)), dest)
    decreases t, 1, 0
  {
    var first := ReadField(t.fields[0], slots[0], if dest.Clash? then Clash(dest.stored.parts[0]) else New);
    if first.None? {
      return None;
    }
    var second := ReadField(t.fields[1], slots[1], if dest.Clash? then Clash(dest.stored.parts[1]) else New);
    if second.None? {
      return None;
    }
    PairRead(t, slots);
    if dest.Clash? {
      PairKept(t, dest.stored, Meant(t.fields[0], slots[0]).value, Meant(t.fields[1], slots[1]).value);
    }
    r := Some(Tuple([first.value, second.value]));
  }

  /** Members from `index` on are read over the present ones. */
  method ReadOne(t: Type, slots: seq<Slot>, index: nat, current: Value) returns (r: Option<Value>)
    requires Compiles(t) && t.Record? && Conforms(t, WStruct(slots)) && HasType(t, current)
    requires index <= |t.fields|
    requires forall j :: 0 <= j < index ==> Meant(t.fields[j], slots[j]) == Some(current.parts[j])
    ensures r == MeantBy(t, WStruct(slots))
    decreases t, 1, |t.fields| - index
  {
    if index == |t.fields| {
      assert MeantBy(t, WStruct(slots)).value.parts == current.parts;
      return Some(current);
    }
    var x := ReadField(t.fields[index], slots[index], Over(current.parts[index]));
    if x.None? {
      return None;
    }
    r := ReadOne(t, slots, index + 1, Tuple(current.parts[index := x.value]));
  }
}
