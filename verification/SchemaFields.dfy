/**
What the generator's table holds of a schema field, by its name: its kind, its
count, and whether it is left out.
*/
module SchemaFields {
  import opened FieldList
  import opened ArgumentNumbering
  import opened SchemaCalls

  datatype Annotation = Exception | Skip | Count(n: nat)

  predicate Annotated(sf: SchemaField, a: Annotation) {
    match a
    case Exception => sf.exception != ""
    case Skip => sf.skip
    case Count(n) => sf.Count() == n
  }

  /** One of the fields called `name` is annotated so. */
  ghost predicate Notes(sfs: seq<SchemaField>, name: string, a: Annotation) {
    exists i :: 0 <= i < |sfs| && sfs[i].name == name && Annotated(sfs[i], a)
  }

  lemma NotesMore(sfs: seq<SchemaField>, name: string, a: Annotation)
    requires sfs != []
    ensures var last := sfs[|sfs| - 1];
            Notes(sfs, name, a) <==> Notes(sfs[..|sfs| - 1], name, a) || (last.name == name && Annotated(last, a))
  {
    var n := |sfs| - 1;
    assert forall i | 0 <= i < n :: sfs[..n][i] == sfs[i];
  }

  // ----- One field of the table ------------------------------------------------------------------

  ghost predicate Throws(t: Table, i: nat) { i < |t.fields| && t.fields[i].exception != "" }

  ghost predicate Returns(t: Table, i: nat) { i < |t.fields| && t.fields[i].retval }

  ghost predicate Skips(t: Table, i: nat) { i < |t.fields| && t.fields[i].skip }

  /** What field `i` of table `u` has more than it had in `t`, now that `sfs` have been added. */
  ghost predicate Gained(t: Table, u: Table, sfs: seq<SchemaField>, param: bool, i: nat)
    requires i < |u.fields|
  {
    var f, name := u.fields[i], NameOf(u.fields[i]);
    && (Throws(u, i) <==> Throws(t, i) || Notes(sfs, name, Exception))
    && (Returns(u, i) <==> Returns(t, i) || (!param && name == "result" && InNames(sfs, name)))
    && (Skips(u, i) <==> Skips(t, i) || Notes(sfs, name, Skip))
    && (if i < |t.fields| then NameOf(t.fields[i]) == name && f.args == t.fields[i].args
        else f.exception == "" && !f.retval ==> Notes(sfs, name, Count(f.args)))
  }

  lemma AddGains(t: Table, sf: SchemaField, param: bool, i: nat)
    requires Indexed(t) && Named(t) && i < |Add(t, sf, param, !param).fields|
    requires Indexed(Add(t, sf, param, !param)) && NamedAt(Add(t, sf, param, !param), i)
    ensures var u := Add(t, sf, param, !param);
            var f, hit := u.fields[i], NameOf(u.fields[i]) == sf.name;
            && (Throws(u, i) <==> Throws(t, i) || (hit && sf.exception != ""))
            && (Returns(u, i) <==> Returns(t, i) || (hit && !param && sf.name == "result"))
            && (Skips(u, i) <==> Skips(t, i) || (hit && sf.skip))
            && (if i < |t.fields| then NameOf(t.fields[i]) == NameOf(f) && f.args == t.fields[i].args
                else hit && (f.exception == "" && !f.retval ==> f.args == sf.Count()))
  {
    assert i < |t.fields| ==> NamedAt(t, i);
  }

  lemma {:induction false} AllGain(t: Table, sfs: seq<SchemaField>, param: bool, i: nat)
    requires Indexed(t) && Named(t) && i < |AddAll(t, sfs, param).fields|
    ensures Gained(t, AddAll(t, sfs, param), sfs, param, i)
    decreases |sfs|
  {
    if sfs != [] {
      var front, sf := sfs[..|sfs| - 1], sfs[|sfs| - 1];
      var before, u := AddAll(t, front, param), AddAll(t, sfs, param);
      var name, args := NameOf(u.fields[i]), u.fields[i].args;
      AllNamed(t, front, param);
      AllNamed(t, sfs, param);
      assert NamedAt(u, i);
      AddGains(before, sf, param, i);
      InNamesMore(sfs, name);
      NotesMore(sfs, name, Exception);
      NotesMore(sfs, name, Skip);
      NotesMore(sfs, name, Count(args));
      if i < |before.fields| {
        AllGain(t, front, param, i);
      } else {
        Grows(t, front, param);
        InTable(t, front, param, name);
      }
    }
  }

  // ----- From the schema ---------------------------------------------------------------------------

  ghost predicate SchemaNotes(ps: seq<SchemaField>, rs: seq<SchemaField>, name: string, a: Annotation) {
    Notes(ps, name, a) || Notes(rs, name, a)
  }

  /** There is a field of which this is the name of the has-flag, or of the want-flag, which is a parameter. */
  ghost predicate IsFlagName(ps: seq<SchemaField>, rs: seq<SchemaField>, name: string) {
    exists n :: InSchema(ps, rs, n) && (HasName(n) == name || (WantName(n) == name && InNames(ps, name)))
  }

  lemma TableField(ps: seq<SchemaField>, rs: seq<SchemaField>, i: nat)
    requires i < |MethodTable(ps, rs).fields|
    ensures var f := MethodTable(ps, rs).fields[i];
            var name := NameOf(f);
            && (f.exception != "" <==> SchemaNotes(ps, rs, name, Exception))
            && (f.retval <==> name == "result" && InNames(rs, name))
            && (f.skip <==> SchemaNotes(ps, rs, name, Skip))
            && (f.exception == "" && !f.retval ==>
                  Notes(if InNames(ps, name) then ps else rs, name, Count(f.args)))
  {
    var params, t := AddAll(EMPTY, ps, true), MethodTable(ps, rs);
    var f, name := t.fields[i], NameOf(t.fields[i]);
    AllNamed(EMPTY, ps, true);
    AllGain(params, rs, false, i);
    if i < |params.fields| {
      AllGain(EMPTY, ps, true, i);
      InTable(EMPTY, ps, true, name);
      assert NamedAt(params, i);
    } else {
      NotParam(params, rs, i);
      InTable(EMPTY, ps, true, name);
    }
  }

  lemma FlagByName(ps: seq<SchemaField>, rs: seq<SchemaField>, fields: seq<Field>, i: nat)
    requires IsMerge(MethodTable(ps, rs), fields) && i < |fields|
    ensures var t := MethodTable(ps, rs);
            IsFlag(t, i, t.idx.Keys) <==> IsFlagName(ps, rs, NameOf(fields[i]))
  {
    var t, name := MethodTable(ps, rs), NameOf(fields[i]);
    AllNamed(EMPTY, ps, true);
    AllNamed(AddAll(EMPTY, ps, true), rs, false);
    assert NamedAt(t, i) && fields[i] == Merged(t, i);
    Directions(ps, rs, fields, i);
    forall n
      ensures n in t.idx <==> InSchema(ps, rs, n)
      ensures MarksSkip(t, n, i) <==> HasName(n) == name || (WantName(n) == name && InNames(ps, name))
    {
      InMethodTable(ps, rs, n);
    }
  }

  /**
  A field is an exception if one of its name is annotated as one, else a result if it is the result's `result`,
  else an argument with the count of the parameter of its name, or of the result if it is no parameter. It is left
  out exactly if one of its name is annotated so, or if it is the flag of another.
  */
  lemma FieldByName(ps: seq<SchemaField>, rs: seq<SchemaField>, fields: seq<Field>, i: nat)
    requires IsMerge(MethodTable(ps, rs), fields) && i < |fields|
    ensures var f := fields[i];
            var name := NameOf(f);
            && (KindOf(f).Exc? <==> SchemaNotes(ps, rs, name, Exception))
            && (KindOf(f).Ret? <==> !SchemaNotes(ps, rs, name, Exception) && name == "result" && InNames(rs, name))
            && (KindOf(f).Arg? ==> Notes(if InNames(ps, name) then ps else rs, name, Count(f.args)))
            && (f.skip <==> SchemaNotes(ps, rs, name, Skip) || IsFlagName(ps, rs, name))
  {
    assert fields[i] == Merged(MethodTable(ps, rs), i);
    TableField(ps, rs, i);
    FlagByName(ps, rs, fields, i);
  }
}
