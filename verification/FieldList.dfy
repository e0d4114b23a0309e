/**
The generator's table of the fields of one method (`FieldList` in gen.cpp): the
parameters in order, then the results that are not parameters too.
*/
module FieldList {
  import opened Base

  /** A field of the Params or Results struct, with its annotations. */
  datatype SchemaField = SchemaField(
    name: string,
    skip: bool,
    exception: string,             // "" when there is no exception annotation
    fieldCount: Option<nat>,       // count annotation of the field
    typeCount: Option<nat>,        // count annotation of its struct or interface type
    boxed: bool)                   // BoxedType
  {
    function Count(): nat {
      if fieldCount.Some? then fieldCount.value else if typeCount.Some? then typeCount.value else 1
    }
  }

  datatype Field = Field(
    param: Option<SchemaField>,
    result: Option<SchemaField>,
    args: nat,
    retval: bool,
    optional: bool,
    requested: bool,
    skip: bool,
    exception: string)

  const NEW_FIELD := Field(None, None, 0, false, false, false, false, "")

  datatype Table = Table(fields: seq<Field>, idx: map<string, nat>, hasResult: bool)

  const EMPTY := Table([], map[], false)

  function Cap(s: string): string {
    if s != [] && 'a' <= s[0] <= 'z' then [(s[0] as int - 32) as char] + s[1..] else s
  }

  function HasName(s: string): string { "has" + Cap(s) }

  function WantName(s: string): string { "want" + Cap(s) }

  /** The count of the field goes before that of its type; without either a field is one C++ parameter. */
  lemma CountIs(sf: SchemaField, n: nat)
    ensures sf.Count() == n <==>
            || sf.fieldCount == Some(n)
            || (sf.fieldCount.None? && (sf.typeCount == Some(n) || (sf.typeCount.None? && n == 1)))
  {
  }

  /** The first letter of a name is made a capital: the flags of optionalInt are hasOptionalInt and wantOptionalInt. */
  lemma FlagNames(c: char, rest: string)
    ensures HasName("optionalInt") == "hasOptionalInt" && WantName("optionalInt") == "wantOptionalInt"
    ensures 'a' <= c <= 'z' ==>
              |HasName([c] + rest)| == |rest| + 4
              && HasName([c] + rest)[3] as int - 'A' as int == c as int - 'a' as int
              && HasName([c] + rest)[4..] == rest && HasName([c] + rest)[..3] == "has"
    ensures !('a' <= c <= 'z') ==> HasName([c] + rest) == "has" + [c] + rest
    ensures WantName([c] + rest)[4..] == HasName([c] + rest)[3..] && WantName([c] + rest)[..4] == "want"
  {
    var s := [c] + rest;
    assert s[1..] == rest;
    assert "optionalInt"[1..] == "ptionalInt" && ['O'] + "ptionalInt" == "OptionalInt";
    assert HasName(s)[3..] == Cap(s) && WantName(s)[4..] == Cap(s);
  }

  /** One schema field is entered into the field of its name, a new one or an existing one. */
  function Entered(f: Field, isNew: bool, sf: SchemaField, param: bool, result: bool): Field {
    var retval := f.retval || (!param && sf.name == "result");
    var exception := if sf.exception != "" then sf.exception else f.exception;
    f.(param := if param then Some(sf) else f.param,
       result := if result then Some(sf) else f.result,
       retval := retval,
       skip := f.skip || sf.skip,
       exception := exception,
       args := if isNew && !retval && exception == "" then sf.Count() else f.args)
  }

  /** `addField`. */
  function Add(t: Table, sf: SchemaField, param: bool, result: bool): Table
    requires sf.name in t.idx ==> t.idx[sf.name] < |t.fields|
  {
    var hasResult := t.hasResult || (!param && sf.name == "result");
    if sf.name in t.idx then
      var i := t.idx[sf.name];
      Table(t.fields[i := Entered(t.fields[i], false, sf, param, result)], t.idx, hasResult)
    else
      Table(t.fields + [Entered(NEW_FIELD, true, sf, param, result)], t.idx[sf.name := |t.fields|], hasResult)
  }

  /** Names and positions correspond one to one. */
  ghost predicate Indexed(t: Table) {
    && (forall n | n in t.idx :: t.idx[n] < |t.fields|)
    && (forall n, m | n in t.idx && m in t.idx && n != m :: t.idx[n] != t.idx[m])
  }

  lemma AddIndexed(t: Table, sf: SchemaField, param: bool, result: bool)
    requires Indexed(t)
    ensures Indexed(Add(t, sf, param, result))
  {
  }

  /** Visiting name `n` marks the field at `i` as the has- or want-flag of `n`. */
  ghost predicate MarksSkip(t: Table, n: string, i: nat)
    requires Indexed(t) && i < |t.fields|
  {
    || (HasName(n) in t.idx && t.idx[HasName(n)] == i)
    || (WantName(n) in t.idx && t.idx[WantName(n)] == i && t.fields[i].param.Some?)
  }

  /** Visiting name `n` marks the field at `i`, which is that of `n`, as having a has-flag. */
  ghost predicate MarksOptional(t: Table, n: string, i: nat) {
    n in t.idx && t.idx[n] == i && HasName(n) in t.idx
  }

  ghost predicate MarksRequested(t: Table, n: string, i: nat)
    requires Indexed(t)
  {
    n in t.idx && t.idx[n] == i && WantName(n) in t.idx && t.fields[t.idx[WantName(n)]].param.Some?
  }

  ghost predicate IsFlag(t: Table, i: nat, names: set<string>)
    requires Indexed(t) && i < |t.fields|
  {
    exists n :: n in names && MarksSkip(t, n, i)
  }

  ghost predicate HasFlag(t: Table, i: nat, names: set<string>) {
    exists n :: n in names && MarksOptional(t, n, i)
  }

  ghost predicate WantFlag(t: Table, i: nat, names: set<string>)
    requires Indexed(t)
  {
    exists n :: n in names && MarksRequested(t, n, i)
  }

  /** The field at `i` once the names in `names` have been visited, in whatever order. */
  ghost function Flagged(t: Table, i: nat, names: set<string>): Field
    requires Indexed(t) && i < |t.fields|
  {
    Marked(t.fields[i], IsFlag(t, i, names), HasFlag(t, i, names), WantFlag(t, i, names))
  }

  function Marked(f: Field, skip: bool, optional: bool, requested: bool): Field {
    f.(skip := f.skip || skip, optional := f.optional || optional, requested := f.requested || requested)
  }

  /** What `mergeFields` makes of the field at position `i`. */
  ghost function Merged(t: Table, i: nat): Field
    requires Indexed(t) && i < |t.fields|
  {
    Flagged(t, i, t.idx.Keys)
  }

  class Builder {
    var fields: seq<Field>
    var idx: map<string, nat>
    var hasResult: bool

    ghost function View(): Table
      reads this
    {
      Table(fields, idx, hasResult)
    }

    constructor ()
      ensures View() == EMPTY
    {
      fields, idx, hasResult := [], map[], false;
    }

    method AddField(sf: SchemaField, param: bool, result: bool)
      requires Indexed(View())
      modifies this
      ensures View() == Add(old(View()), sf, param, result) && Indexed(View())
    {
      AddIndexed(View(), sf, param, result);
      var isNew := sf.name !in idx;
      if isNew {
        idx := idx[sf.name := |fields|];
        fields := fields + [NEW_FIELD];
      }
      var i := idx[sf.name];
      var field := Fill(fields[i], isNew, sf, param, result);
      if !param && sf.name == "result" {
        hasResult := true;
      }
      fields := fields[i := field];      // the source has a reference to the field
    }

    /** The assignments of `addField` to one field. */
    method Fill(begun: Field, isNew: bool, sf: SchemaField, param: bool, result: bool) returns (field: Field)
      ensures field == Entered(begun, isNew, sf, param, result)
    {
      field := begun;
      if param {
        field := field.(param := Some(sf));
      }
      if result {
        field := field.(result := Some(sf));
      }
      if !param && sf.name == "result" {
        field := field.(retval := true);
      }
      if sf.skip {
        field := field.(skip := true);
      }
      if sf.exception != "" {
        field := field.(exception := sf.exception);
      }
      if isNew && !field.retval && field.exception == "" {
        field := field.(args := sf.Count());
      }
    }

    /** The field at `flag` is left out of the generated code; the field at `i` has it as its has- or want-flag. */
    method Mark(flag: nat, i: nat, has: bool)
      requires flag < |fields| && i < |fields|
      modifies this`fields
      ensures |fields| == |old(fields)|
      ensures forall k | 0 <= k < |fields| ::
                fields[k] == Marked(old(fields)[k], k == flag, k == i && has, k == i && !has)
    {
      fields := fields[flag := fields[flag].(skip := true)];
      if has {
        fields := fields[i := fields[i].(optional := true)];
      } else {
        fields := fields[i := fields[i].(requested := true)];
      }
    }

    /** The body of the loop in `mergeFields` for the field named `n`. */
    method MergeName(n: string)
      requires Indexed(View()) && n in idx
      modifies this`fields
      ensures |fields| == |old(fields)|
      ensures forall i | 0 <= i < |fields| :: fields[i] == Visited(old(View()), n, i)
    {
      if HasName(n) in idx {
        Mark(idx[HasName(n)], idx[n], true);
      }
      if WantName(n) in idx && fields[idx[WantName(n)]].param.Some? {
        Mark(idx[WantName(n)], idx[n], false);
      }
    }

    /** `mergeFields`: the flags set do not depend on the order the names are visited in. */
    method MergeFields()
      requires Indexed(View())
      modifies this`fields
      ensures |fields| == |old(fields)|
      ensures forall i | 0 <= i < |fields| :: fields[i] == Merged(old(View()), i)
    {
      ghost var t := View();
      ghost var visited: set<string> := {};
      var left := idx.Keys;
      while left != {}
        invariant left <= idx.Keys && visited == idx.Keys - left && idx == t.idx
        invariant IsMerged(t, fields, visited)
        decreases left
      {
        var n :| n in left;
        ghost var u := View();
        MergeName(n);
        VisitStep(t, u, n, visited, fields);
        left := left - {n};
        visited := visited + {n};
      }
      assert visited == idx.Keys;
    }
  }

  /** The field at `i` after the visit of the name `n`. */
  ghost function Visited(t: Table, n: string, i: nat): Field
    requires Indexed(t) && i < |t.fields|
  {
    Marked(t.fields[i], MarksSkip(t, n, i), MarksOptional(t, n, i), MarksRequested(t, n, i))
  }

  /** The fields once the names in `names` have been visited. */
  ghost predicate IsMerged(t: Table, fields: seq<Field>, names: set<string>)
    requires Indexed(t)
  {
    |fields| == |t.fields| && forall i | 0 <= i < |fields| :: fields[i] == Flagged(t, i, names)
  }

  lemma VisitStep(t: Table, u: Table, n: string, names: set<string>, after: seq<Field>)
    requires Indexed(t) && n in t.idx && u.idx == t.idx && IsMerged(t, u.fields, names)
    requires |after| == |u.fields| && forall i | 0 <= i < |after| :: after[i] == Visited(u, n, i)
    ensures IsMerged(t, after, names + {n})
  {
    forall i | 0 <= i < |after| ensures after[i] == Flagged(t, i, names + {n}) {
      VisitOne(t, i, names, n);
      assert u.fields[i] == Flagged(t, i, names);
      assert WantName(n) in t.idx ==> u.fields[t.idx[WantName(n)]] == Flagged(t, t.idx[WantName(n)], names);
      assert after[i] == Visited(u, n, i);
    }
  }

  lemma VisitOne(t: Table, i: nat, names: set<string>, n: string)
    requires Indexed(t) && n in t.idx && i < |t.fields|
    ensures IsFlag(t, i, names + {n}) == (IsFlag(t, i, names) || MarksSkip(t, n, i))
    ensures HasFlag(t, i, names + {n}) == (HasFlag(t, i, names) || MarksOptional(t, n, i))
    ensures WantFlag(t, i, names + {n}) == (WantFlag(t, i, names) || MarksRequested(t, n, i))
  {
  }
}
