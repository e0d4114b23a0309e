/**
Three places divide the C++ parameters of a method among its fields: the
generator, which numbers them with `argc`; the client, whose field objects split
the parameter type list one after the other; and the server, whose nested
handlers do. Types are represented by their position in the parameter list.
*/
module ArgumentNumbering {
  import opened Base
  import opened FieldList

  datatype Kind = Arg | Ret | Exc

  function KindOf(f: Field): Kind {
    if f.exception != "" then Exc else if f.retval then Ret else Arg
  }

  /** The fields code is generated for. */
  function Kept(fields: seq<Field>): seq<Field> {
    if fields == [] then []
    else (if fields[0].skip then [] else [fields[0]]) + Kept(fields[1..])
  }

  function Sum(ns: seq<nat>): nat {
    if ns == [] then 0 else ns[0] + Sum(ns[1..])
  }

  function ArgCounts(fs: seq<Field>): seq<nat> {
    seq(|fs|, i requires 0 <= i < |fs| => fs[i].args)
  }

  /** The number of values a client field object holds: none, the result, or the arguments. */
  function ValueCount(f: Field): nat {
    match KindOf(f)
    case Exc => 0
    case Ret => 1
    case Arg => f.args
  }

  function ValueCounts(fs: seq<Field>): seq<nat> {
    seq(|fs|, i requires 0 <= i < |fs| => ValueCount(fs[i]))
  }

  /** The positions lo, ..., hi - 1. */
  function Positions(lo: nat, hi: nat): (r: seq<nat>)
    requires lo <= hi
    ensures |r| == hi - lo
  {
    seq(hi - lo, i requires 0 <= i => lo + i)
  }

  // ----- The generator ---------------------------------------------------------------

  /** The positions each kept field gets when numbering starts at `argc`. */
  function Numbered(fs: seq<Field>, argc: nat): seq<seq<nat>> {
    if fs == [] then []
    else [Positions(argc, argc + fs[0].args)] + Numbered(fs[1..], argc + fs[0].args)
  }

  lemma NumberedCons(f: Field, fs: seq<Field>, argc: nat)
    ensures Numbered([f] + fs, argc) == [Positions(argc, argc + f.args)] + Numbered(fs, argc + f.args)
    ensures Sum(ArgCounts([f] + fs)) == f.args + Sum(ArgCounts(fs))
  {
    assert ([f] + fs)[1..] == fs;
    assert ArgCounts([f] + fs)[1..] == ArgCounts(fs);
  }

  /** The inner loop: one number for each C++ argument of the field. */
  method TakeNumbers(first: nat, args: nat) returns (mine: seq<nat>, argc: nat)
    ensures argc == first + args && mine == Positions(first, argc)
  {
    mine, argc := [], first;
    for i := 0 to args
      invariant argc == first + i && mine == Positions(first, argc)
    {
      mine := mine + [argc];
      argc := argc + 1;
    }
  }

  /** The loop of `Generate` over the fields of a method. */
  method NumberArguments(fields: seq<Field>) returns (numbers: seq<seq<nat>>, argc: nat)
    ensures numbers == Numbered(Kept(fields), 0)
    ensures argc == Sum(ArgCounts(Kept(fields)))
  {
    numbers, argc := [], 0;
    var left := fields;
    while left != []
      invariant numbers + Numbered(Kept(left), argc) == Numbered(Kept(fields), 0)
      invariant argc + Sum(ArgCounts(Kept(left))) == Sum(ArgCounts(Kept(fields)))
      decreases |left|
    {
      var field := left[0];
      ghost var rest := Kept(left[1..]);
      assert Kept(left) == if field.skip then rest else [field] + rest;
      if !field.skip {
        NumberedCons(field, rest, argc);
        var mine;
        mine, argc := TakeNumbers(argc, field.args);
        numbers := numbers + [mine];
      }
      left := left[1..];
    }
  }

  // ----- Split -------------------------------------------------------------------------

  /** The recursion of the template `Split`. */
  function Split<T>(index: nat, list: seq<T>, first: seq<T>): (seq<T>, seq<T>)
    requires index <= |list|
    decreases index
  {
    if index == 0 then (first, list) else Split(index - 1, list[1..], first + [list[0]])
  }

  lemma {:induction false} SplitTakes<T>(index: nat, list: seq<T>, first: seq<T>)
    requires index <= |list|
    ensures Split(index, list, first) == (first + list[..index], list[index..])
    decreases index
  {
    if index == 0 {
      assert first + list[..0] == first && list[0..] == list;
    } else {
      SplitTakes(index - 1, list[1..], first + [list[0]]);
      assert first + [list[0]] + list[1..][..index - 1] == first + list[..index];
    }
  }

  // ----- The client ----------------------------------------------------------------------

  /**
  `handleChain`: every field object but the last splits off its share of the
  types; the last one gets what is left. None when a Split does not exist.
  */
  function ClientChain(ns: seq<nat>, types: seq<nat>): Option<seq<seq<nat>>>
    requires ns != []
    decreases |ns|
  {
    if |ns| == 1 then Some([types])
    else if ns[0] > |types| then None
    else
      var (first, second) := Split(ns[0], types, []);
      var rest := (SplitTakes(ns[0], types, []); ClientChain(ns[1..], second));
      if rest.None? then None else Some([first] + rest.value)
  }

  /** The shares of the client's field objects; IterateFields, which takes none, starts the chain. */
  function ClientShares(fs: seq<Field>, types: seq<nat>): Option<seq<seq<nat>>> {
    var all := ClientChain([0] + ValueCounts(fs), types);
    if all.None? || all.value == [] then None else Some(all.value[1..])
  }

  // ----- The server ----------------------------------------------------------------------

  /** `ServerField`, `ServerRet`, `ServerExcept`, `ServerCall`: all but the first demand an empty list. */
  function ServerShares(fs: seq<Field>, types: seq<nat>): Option<seq<seq<nat>>> {
    if fs == [] then if types == [] then Some([]) else None
    else
      var n := if KindOf(fs[0]).Arg? then fs[0].args else 0;
      if n > |types| || (!KindOf(fs[0]).Arg? && types != []) then None
      else
        var (first, second) := Split(n, types, []);
        var rest := ServerShares(fs[1..], second);
        if rest.None? then None else Some([first] + rest.value)
  }

  // ----- Agreement -------------------------------------------------------------------------

  /** No result or exception has argument numbers: none shares its name with a parameter. */
  ghost predicate Clean(fs: seq<Field>) {
    forall i | 0 <= i < |fs| && !KindOf(fs[i]).Arg? :: fs[i].args == 0
  }

  /** Arguments come before the result and the exceptions. */
  ghost predicate ArgsFirst(fs: seq<Field>) {
    forall i, j | 0 <= i < j < |fs| && !KindOf(fs[i]).Arg? && KindOf(fs[j]).Arg? :: fs[j].args == 0
  }

  function Results(fs: seq<Field>): nat {
    if fs == [] then 0 else B2N(KindOf(fs[0]).Ret?) + Results(fs[1..])
  }

  /** A division gives every argument field the positions the generator numbered for it. */
  ghost predicate GivesNumbers(fs: seq<Field>, shares: Option<seq<seq<nat>>>) {
    && shares.Some? && |shares.value| == |fs|
    && forall i | 0 <= i < |fs| && KindOf(fs[i]).Arg? :: shares.value[i] == NumbersOf(fs, i)
  }

  function NumbersOf(fs: seq<Field>, i: nat): seq<nat>
    requires i < |fs|
  {
    Positions(Offset(ArgCounts(fs), i), Offset(ArgCounts(fs), i) + fs[i].args)
  }

  function Offset(ns: seq<nat>, i: nat): nat
    requires i <= |ns|
  {
    if i == 0 then 0 else ns[0] + Offset(ns[1..], i - 1)
  }

  lemma {:induction false} NumberedAt(fs: seq<Field>, argc: nat, i: nat)
    requires i < |fs|
    ensures |Numbered(fs, argc)| == |fs|
    ensures var at := argc + Offset(ArgCounts(fs), i);
            Numbered(fs, argc)[i] == Positions(at, at + fs[i].args)
    decreases fs
  {
    assert ArgCounts(fs)[1..] == ArgCounts(fs[1..]);
    if |fs| > 1 {
      NumberedAt(fs[1..], argc + fs[0].args, if i == 0 then 0 else i - 1);
    }
  }

  lemma {:induction false} OffsetTotal(ns: seq<nat>)
    ensures Offset(ns, |ns|) == Sum(ns)
  {
    if ns != [] {
      OffsetTotal(ns[1..]);
    }
  }

  lemma {:induction false} OffsetStep(ns: seq<nat>, i: nat)
    requires i < |ns|
    ensures Offset(ns, i + 1) == Offset(ns, i) + ns[i]
  {
    if i > 0 {
      OffsetStep(ns[1..], i - 1);
    }
  }

  /** The numbers form one contiguous partition: each field starts where the one before ended. */
  lemma NumbersPartition(fs: seq<Field>)
    ensures |Numbered(fs, 0)| == |fs|
    ensures forall i | 0 <= i < |fs| ::
              Numbered(fs, 0)[i] == NumbersOf(fs, i)
              && Offset(ArgCounts(fs), i + 1) == Offset(ArgCounts(fs), i) + fs[i].args
    ensures Offset(ArgCounts(fs), |fs|) == Sum(ArgCounts(fs))
  {
    NumberedLength(fs, 0);
    forall i | 0 <= i < |fs|
      ensures Numbered(fs, 0)[i] == NumbersOf(fs, i)
              && Offset(ArgCounts(fs), i + 1) == Offset(ArgCounts(fs), i) + fs[i].args
    {
      NumberedAt(fs, 0, i);
      OffsetStep(ArgCounts(fs), i);
    }
    OffsetTotal(ArgCounts(fs));
  }

  lemma {:induction false} NumberedLength(fs: seq<Field>, argc: nat)
    ensures |Numbered(fs, argc)| == |fs|
  {
    if fs != [] {
      NumberedLength(fs[1..], argc + fs[0].args);
    }
  }

  // ----- The client agrees -------------------------------------------------------------------

  lemma ChainStep(ns: seq<nat>, types: seq<nat>)
    requires |ns| > 1 && ns[0] <= |types|
    ensures var rest := ClientChain(ns[1..], types[ns[0]..]);
            ClientChain(ns, types) == if rest.None? then None else Some([types[..ns[0]]] + rest.value)
  {
    SplitTakes(ns[0], types, []);
    assert [] + types[..ns[0]] == types[..ns[0]];
  }

  lemma SliceOfRest(types: seq<nat>, n: nat, lo: nat, hi: nat)
    requires lo <= hi && n + hi <= |types|
    ensures types[n..][lo..hi] == types[n + lo..n + hi]
  {
  }

  /** Field object `i` gets the types from the sum of the shares before it on, the last one all of them. */
  lemma {:induction false} ChainShares(ns: seq<nat>, types: seq<nat>, i: nat)
    requires i < |ns| && Sum(ns) <= |types|
    ensures ClientChain(ns, types).Some? && |ClientChain(ns, types).value| == |ns|
    ensures Offset(ns, i) + ns[i] <= |types|
    ensures ClientChain(ns, types).value[i] ==
            types[Offset(ns, i)..if i == |ns| - 1 then |types| else Offset(ns, i) + ns[i]]
    decreases |ns|
  {
    assert Sum(ns) == ns[0] + Sum(ns[1..]);
    if |ns| == 1 {
      assert ns[1..] == [] && types[0..|types|] == types;
    } else {
      ChainStep(ns, types);
      ChainShares(ns[1..], types[ns[0]..], if i == 0 then 0 else i - 1);
      if i > 0 {
        var at := Offset(ns[1..], i - 1);
        var end := if i == |ns| - 1 then |types| - ns[0] else at + ns[i];
        SliceOfRest(types, ns[0], at, end);
      }
    }
  }

  /** Numbers given to fields that are no arguments. */
  function Waste(fs: seq<Field>): nat {
    if fs == [] then 0 else (if KindOf(fs[0]).Arg? then 0 else fs[0].args) + Waste(fs[1..])
  }

  lemma {:induction false} ValueOffsets(fs: seq<Field>, i: nat)
    requires i <= |fs|
    ensures Offset(ValueCounts(fs), i) + Waste(fs[..i]) == Offset(ArgCounts(fs), i) + Results(fs[..i])
    decreases i
  {
    if i > 0 {
      ValueOffsets(fs[1..], i - 1);
      assert ValueCounts(fs)[1..] == ValueCounts(fs[1..]) && ArgCounts(fs)[1..] == ArgCounts(fs[1..]);
      assert fs[..i][1..] == fs[1..][..i - 1];
    }
  }

  lemma {:induction false} NoResults(fs: seq<Field>)
    ensures Results(fs) == 0 <==> forall i | 0 <= i < |fs| :: !KindOf(fs[i]).Ret?
  {
    if fs != [] {
      NoResults(fs[1..]);
      assert fs == [fs[0]] + fs[1..];
    }
  }

  /** The positions of the method's parameters, and of its result if it has one. */
  function ClientTypes(fs: seq<Field>): seq<nat> {
    Positions(0, Sum(ArgCounts(fs)) + Results(fs))
  }

  function ServerTypes(fs: seq<Field>): seq<nat> {
    Positions(0, Sum(ArgCounts(fs)))
  }

  lemma ValueTotal(fs: seq<Field>)
    ensures Sum(ValueCounts(fs)) + Waste(fs) == Sum(ArgCounts(fs)) + Results(fs)
  {
    ValueOffsets(fs, |fs|);
    OffsetTotal(ValueCounts(fs));
    OffsetTotal(ArgCounts(fs));
    assert fs[..|fs|] == fs;
  }

  /** No numbers are wasted exactly if no result or exception has any. */
  lemma {:induction false} WasteIff(fs: seq<Field>)
    ensures Waste(fs) == 0 <==> Clean(fs)
  {
    if fs != [] {
      WasteIff(fs[1..]);
      assert forall i | 0 < i < |fs| :: fs[i] == fs[1..][i - 1];
      assert forall i | 0 <= i < |fs[1..]| :: fs[1..][i] == fs[i + 1];
    }
  }

  lemma PositionsSlice(n: nat, lo: nat, hi: nat)
    requires lo <= hi <= n
    ensures Positions(0, n)[lo..hi] == Positions(lo, hi)
  {
  }

  /** The first object in the chain takes nothing. */
  lemma ClientSlice(fs: seq<Field>, types: seq<nat>, i: nat)
    requires i < |fs| && Sum(ValueCounts(fs)) <= |types|
    ensures ClientShares(fs, types).Some? && |ClientShares(fs, types).value| == |fs|
    ensures Offset(ValueCounts(fs), i) + ValueCount(fs[i]) <= |types|
    ensures var at := Offset(ValueCounts(fs), i);
            ClientShares(fs, types).value[i] == types[at..if i == |fs| - 1 then |types| else at + ValueCount(fs[i])]
  {
    var ns := [0] + ValueCounts(fs);
    assert ns[1..] == ValueCounts(fs) && ns[i + 1] == ValueCount(fs[i]);
    var at := Offset(ValueCounts(fs), i);
    assert Offset(ns, i + 1) == at && Sum(ns) == Sum(ValueCounts(fs));
    ChainShares(ns, types, i + 1);
    assert ClientShares(fs, types).value[i] == ClientChain(ns, types).value[i + 1];
  }

  lemma ClientShareOf(fs: seq<Field>, i: nat)
    requires i < |fs|
    ensures var shares := ClientShares(fs, ClientTypes(fs));
            var at := Offset(ValueCounts(fs), i);
            var end := if i == |fs| - 1 then Sum(ArgCounts(fs)) + Results(fs) else at + ValueCount(fs[i]);
            at <= end && shares.Some? && |shares.value| == |fs| && shares.value[i] == Positions(at, end)
  {
    var total, at := Sum(ArgCounts(fs)) + Results(fs), Offset(ValueCounts(fs), i);
    ValueTotal(fs);
    ClientSlice(fs, Positions(0, total), i);
    var end := if i == |fs| - 1 then total else at + ValueCount(fs[i]);
    PositionsSlice(total, at, end);
  }

  lemma NoFields(fs: seq<Field>, types: seq<nat>)
    requires |fs| == 0
    ensures ClientShares(fs, types) == Some([])
  {
    var ns := [0] + ValueCounts(fs);
    assert |ns| == 1;
    assert ClientChain(ns, types) == Some([types]) && [types][1..] == [];
  }

  /** Arguments come before the result. */
  ghost predicate ArgsBeforeResult(fs: seq<Field>) {
    forall i, j | 0 <= i < j < |fs| && KindOf(fs[i]).Ret? && KindOf(fs[j]).Arg? :: fs[j].args == 0
  }

  ghost predicate ResultBefore(fs: seq<Field>, j: nat)
    requires j <= |fs|
  {
    exists i :: 0 <= i < j && KindOf(fs[i]).Ret?
  }

  lemma ResultsBefore(fs: seq<Field>, j: nat)
    requires j <= |fs|
    ensures Results(fs[..j]) == 0 <==> !ResultBefore(fs, j)
  {
    var front := fs[..j];
    NoResults(front);
    assert forall i | 0 <= i < j :: front[i] == fs[i];
  }

  /** Two ranges of positions are the same if they have the same length and, unless empty, the same start. */
  lemma SamePositions(a: nat, b: nat, c: nat, d: nat)
    requires a <= b && c <= d
    ensures Positions(a, b) == Positions(c, d) <==> b - a == d - c && (a == b || a == c)
  {
    if a < b && c < d {
      assert Positions(a, b)[0] == a && Positions(c, d)[0] == c;
    }
  }

  /**
  Before the arguments of field `i` there are as many results as wasted numbers; and the last field, which
  gets all that is left, gets nothing else.
  */
  ghost predicate Balanced(fs: seq<Field>, i: nat)
    requires i < |fs|
  {
    && (fs[i].args > 0 ==> Results(fs[..i]) == Waste(fs[..i]))
    && (i == |fs| - 1 ==> Waste(fs) == 0)
  }

  /** An argument field of the client gets its numbers. */
  ghost predicate ClientFits(fs: seq<Field>, j: nat)
    requires j < |fs|
  {
    var shares := ClientShares(fs, ClientTypes(fs));
    && shares.Some? && |shares.value| == |fs|
    && (KindOf(fs[j]).Arg? ==> shares.value[j] == NumbersOf(fs, j))
  }

  /** An argument field at the end counts neither as a result nor as waste. */
  lemma {:induction false} TotalsBeforeLast(fs: seq<Field>)
    requires fs != [] && KindOf(fs[|fs| - 1]).Arg?
    ensures Results(fs) == Results(fs[..|fs| - 1]) && Waste(fs) == Waste(fs[..|fs| - 1])
    ensures Sum(ArgCounts(fs)) == Offset(ArgCounts(fs), |fs| - 1) + fs[|fs| - 1].args
    decreases |fs|
  {
    if |fs| > 1 {
      TotalsBeforeLast(fs[1..]);
      assert fs[..|fs| - 1][1..] == fs[1..][..|fs| - 2];
      assert ArgCounts(fs)[1..] == ArgCounts(fs[1..]);
    }
  }

  lemma ClientFitsIff(fs: seq<Field>, j: nat)
    requires j < |fs|
    ensures ClientFits(fs, j) <==> (KindOf(fs[j]).Arg? ==> Balanced(fs, j))
  {
    ClientShareOf(fs, j);
    ValueOffsets(fs, j);
    if KindOf(fs[j]).Arg? {
      var at, from := Offset(ValueCounts(fs), j), Offset(ArgCounts(fs), j);
      if j == |fs| - 1 {
        TotalsBeforeLast(fs);
        SamePositions(at, Sum(ArgCounts(fs)) + Results(fs), from, from + fs[j].args);
      } else {
        SamePositions(at, at + fs[j].args, from, from + fs[j].args);
      }
    }
  }

  /**
  The client divides the types as numbered exactly if in front of every argument results and wasted numbers
  balance.
  */
  lemma ClientAgrees(fs: seq<Field>)
    ensures GivesNumbers(fs, ClientShares(fs, ClientTypes(fs))) <==>
            forall j | 0 <= j < |fs| && KindOf(fs[j]).Arg? :: Balanced(fs, j)
  {
    if fs == [] {
      NoFields(fs, ClientTypes(fs));
    } else {
      forall j | 0 <= j < |fs| ensures ClientFits(fs, j) <==> (KindOf(fs[j]).Arg? ==> Balanced(fs, j)) {
        ClientFitsIff(fs, j);
      }
      GivesNumbersIff(fs);
    }
  }

  lemma PrefixClean(fs: seq<Field>, j: nat)
    requires Clean(fs) && j <= |fs|
    ensures Waste(fs) == 0 && Waste(fs[..j]) == 0
  {
    assert forall i | 0 <= i < j :: fs[..j][i] == fs[i];
    WasteIff(fs[..j]);
    WasteIff(fs);
  }

  /** Where nothing is wasted that means that no argument follows the result. */
  lemma BalancedIffArgsBeforeResult(fs: seq<Field>)
    requires Clean(fs)
    ensures (forall j | 0 <= j < |fs| && KindOf(fs[j]).Arg? :: Balanced(fs, j)) <==> ArgsBeforeResult(fs)
  {
    forall j | 0 <= j < |fs| ensures Balanced(fs, j) <==> (ResultBefore(fs, j) ==> fs[j].args == 0) {
      PrefixClean(fs, j);
      ResultsBefore(fs, j);
    }
    ArgsBeforeResultIff(fs);
  }

  lemma GivesNumbersIff(fs: seq<Field>)
    requires fs != []
    ensures GivesNumbers(fs, ClientShares(fs, ClientTypes(fs))) <==> forall j | 0 <= j < |fs| :: ClientFits(fs, j)
  {
    if forall j | 0 <= j < |fs| :: ClientFits(fs, j) {
      assert ClientFits(fs, 0);
      forall j | 0 <= j < |fs| && KindOf(fs[j]).Arg?
        ensures ClientShares(fs, ClientTypes(fs)).value[j] == NumbersOf(fs, j)
      {
        assert ClientFits(fs, j);
      }
    }
  }

  lemma ArgsBeforeResultIff(fs: seq<Field>)
    ensures ArgsBeforeResult(fs) <==>
            forall j | 0 <= j < |fs| :: KindOf(fs[j]).Arg? && ResultBefore(fs, j) ==> fs[j].args == 0
  {
    if forall j | 0 <= j < |fs| :: KindOf(fs[j]).Arg? && ResultBefore(fs, j) ==> fs[j].args == 0 {
      forall i, j | 0 <= i < j < |fs| && KindOf(fs[i]).Ret? && KindOf(fs[j]).Arg? ensures fs[j].args == 0 {
        assert ResultBefore(fs, j);
      }
    }
  }

  // ----- The server agrees ---------------------------------------------------------------------

  lemma ServerStep(fs: seq<Field>, types: seq<nat>)
    requires fs != [] && (KindOf(fs[0]).Arg? || (fs[0].args == 0 && types == [])) && fs[0].args <= |types|
    ensures var n := fs[0].args;
            var rest := ServerShares(fs[1..], types[n..]);
            ServerShares(fs, types) == if rest.None? then None else Some([types[..n]] + rest.value)
  {
    SplitTakes(fs[0].args, types, []);
    assert [] + types[..fs[0].args] == types[..fs[0].args];
  }

  /** Handler `i` gets the types from the sum of the arguments before it on. */
  lemma {:induction false} ServerShareOf(fs: seq<Field>, types: seq<nat>, i: nat)
    requires Clean(fs) && ArgsFirst(fs) && |types| == Sum(ArgCounts(fs)) && i <= |fs|
    ensures ServerShares(fs, types).Some? && |ServerShares(fs, types).value| == |fs|
    ensures i < |fs| ==>
              var lo := Offset(ArgCounts(fs), i);
              lo + fs[i].args <= |types| && ServerShares(fs, types).value[i] == types[lo..lo + fs[i].args]
    decreases fs
  {
    if fs != [] {
      assert ArgCounts(fs)[1..] == ArgCounts(fs[1..]);
      if !KindOf(fs[0]).Arg? {
        assert forall j | 0 <= j < |fs[1..]| :: fs[1..][j] == fs[j + 1];
        NothingLeft(fs[1..]);
      }
      ServerStep(fs, types);
      ServerShareOf(fs[1..], types[fs[0].args..], if i == 0 then 0 else i - 1);
    }
  }

  lemma {:induction false} NothingLeft(fs: seq<Field>)
    requires forall i | 0 <= i < |fs| :: fs[i].args == 0
    ensures Sum(ArgCounts(fs)) == 0
  {
    if fs != [] {
      assert ArgCounts(fs)[1..] == ArgCounts(fs[1..]);
      NothingLeft(fs[1..]);
    }
  }

  lemma {:induction false} SomethingLeft(fs: seq<Field>, j: nat)
    requires j < |fs| && fs[j].args > 0
    ensures Sum(ArgCounts(fs)) > 0
  {
    assert ArgCounts(fs)[1..] == ArgCounts(fs[1..]);
    if j > 0 {
      SomethingLeft(fs[1..], j - 1);
    }
  }

  /** The arguments of the argument fields: what the server's handlers take in all. */
  function Taken(fs: seq<Field>): nat {
    if fs == [] then 0 else (if KindOf(fs[0]).Arg? then fs[0].args else 0) + Taken(fs[1..])
  }

  lemma {:induction false} TakenTotal(fs: seq<Field>)
    ensures Taken(fs) + Waste(fs) == Sum(ArgCounts(fs))
  {
    if fs != [] {
      assert ArgCounts(fs)[1..] == ArgCounts(fs[1..]);
      TakenTotal(fs[1..]);
    }
  }

  /** The handlers fit together only if the types are as many as the argument fields take. */
  lemma {:induction false} ServerTakesAll(fs: seq<Field>, types: seq<nat>)
    requires ServerShares(fs, types).Some?
    ensures |types| == Taken(fs)
    decreases fs
  {
    if fs != [] {
      var n := if KindOf(fs[0]).Arg? then fs[0].args else 0;
      SplitTakes(n, types, []);
      ServerTakesAll(fs[1..], types[n..]);
    }
  }

  /** With an argument after a result or an exception the server's handlers do not fit together. */
  lemma {:induction false} ServerRejects(fs: seq<Field>, types: seq<nat>, i: nat, j: nat)
    requires Clean(fs) && |types| == Sum(ArgCounts(fs))
    requires i < j < |fs| && !KindOf(fs[i]).Arg? && KindOf(fs[j]).Arg? && fs[j].args > 0
    ensures ServerShares(fs, types).None?
    decreases fs
  {
    assert ArgCounts(fs)[1..] == ArgCounts(fs[1..]);
    if i == 0 {
      SomethingLeft(fs, j);
    } else if KindOf(fs[0]).Arg? {
      SplitTakes(fs[0].args, types, []);
      ServerRejects(fs[1..], types[fs[0].args..], i - 1, j - 1);
    } else {
      SomethingLeft(fs, j);
    }
  }

  /** The server divides the types as numbered exactly if only arguments are numbered, and come first. */
  lemma ServerAgrees(fs: seq<Field>)
    ensures GivesNumbers(fs, ServerShares(fs, ServerTypes(fs))) <==> Clean(fs) && ArgsFirst(fs)
  {
    if !Clean(fs) {
      WasteIff(fs);
      TakenTotal(fs);
      if ServerShares(fs, ServerTypes(fs)).Some? {
        ServerTakesAll(fs, ServerTypes(fs));
      }
    } else if ArgsFirst(fs) {
      ServerShareOf(fs, ServerTypes(fs), 0);
      forall i | 0 <= i < |fs| ensures ServerShares(fs, ServerTypes(fs)).value[i] == NumbersOf(fs, i) {
        ServerShareOf(fs, ServerTypes(fs), i);
        PositionsSlice(|ServerTypes(fs)|, Offset(ArgCounts(fs), i), Offset(ArgCounts(fs), i) + fs[i].args);
      }
    } else {
      var i, j :| 0 <= i < j < |fs| && !KindOf(fs[i]).Arg? && KindOf(fs[j]).Arg? && fs[j].args != 0;
      ServerRejects(fs, ServerTypes(fs), i, j);
    }
  }

  // ----- The result ------------------------------------------------------------------------------

  /** A result object gets the position after all parameters (and after results before it). */
  ghost predicate ResultsPlaced(fs: seq<Field>, shares: Option<seq<seq<nat>>>) {
    && shares.Some? && |shares.value| == |fs|
    && forall i | 0 <= i < |fs| && KindOf(fs[i]).Ret? ::
         shares.value[i] == [Sum(ArgCounts(fs)) + Results(fs[..i])]
  }

  /** Nothing is numbered from field `i` on. */
  lemma {:induction false} OffsetReaches(fs: seq<Field>, i: nat)
    requires i <= |fs| && forall j | i <= j < |fs| :: fs[j].args == 0
    ensures Offset(ArgCounts(fs), i) == Sum(ArgCounts(fs))
    decreases i
  {
    if i == 0 {
      NothingLeft(fs);
    } else {
      assert ArgCounts(fs)[1..] == ArgCounts(fs[1..]);
      assert forall j | i - 1 <= j < |fs[1..]| :: fs[1..][j] == fs[j + 1];
      OffsetReaches(fs[1..], i - 1);
    }
  }

  lemma {:induction false} ResultsLast(fs: seq<Field>)
    requires fs != [] && KindOf(fs[|fs| - 1]).Ret?
    ensures Results(fs) == Results(fs[..|fs| - 1]) + 1
  {
    if |fs| > 1 {
      ResultsLast(fs[1..]);
      assert fs[..|fs| - 1][1..] == fs[1..][..|fs| - 2];
    }
  }

  lemma ResultShare(fs: seq<Field>, i: nat)
    requires Clean(fs) && ArgsFirst(fs) && i < |fs| && KindOf(fs[i]).Ret?
    ensures ClientShares(fs, ClientTypes(fs)).Some? && |ClientShares(fs, ClientTypes(fs)).value| == |fs|
    ensures ClientShares(fs, ClientTypes(fs)).value[i] == [Sum(ArgCounts(fs)) + Results(fs[..i])]
  {
    ClientShareOf(fs, i);
    ValueOffsets(fs, i);
    PrefixClean(fs, i);
    OffsetReaches(fs, i);
    if i == |fs| - 1 {
      ResultsLast(fs);
    }
    var at := Sum(ArgCounts(fs)) + Results(fs[..i]);
    assert Positions(at, at + 1) == [at];
  }

  /** Then the client's result object gets the result. */
  lemma ResultsArePlaced(fs: seq<Field>)
    requires Clean(fs) && ArgsFirst(fs)
    ensures ResultsPlaced(fs, ClientShares(fs, ClientTypes(fs)))
  {
    ClientAgrees(fs);
    BalancedIffArgsBeforeResult(fs);
    forall i | 0 <= i < |fs| && KindOf(fs[i]).Ret?
      ensures ClientShares(fs, ClientTypes(fs)).value[i] == [Sum(ArgCounts(fs)) + Results(fs[..i])]
    {
      ResultShare(fs, i);
    }
  }

  /** Client and server divide the parameters as the generator numbered them, and the client finds its result. */
  ghost predicate Agree(fs: seq<Field>) {
    && GivesNumbers(fs, ClientShares(fs, ClientTypes(fs)))
    && ResultsPlaced(fs, ClientShares(fs, ClientTypes(fs)))
    && GivesNumbers(fs, ServerShares(fs, ServerTypes(fs)))
  }

  /**
  Generator, client and server divide the parameters alike exactly if only
  arguments are numbered, and come before the result and the exceptions.
  */
  lemma EverybodyAgrees(fs: seq<Field>)
    ensures Agree(fs) <==> Clean(fs) && ArgsFirst(fs)
  {
    ServerAgrees(fs);
    ClientAgrees(fs);
    if Clean(fs) {
      BalancedIffArgsBeforeResult(fs);
      if ArgsFirst(fs) {
        ResultsArePlaced(fs);
      }
    }
  }

  // ----- Which schemas have clean fields ---------------------------------------------------------

  /** Fields added one after the other. */
  function AddAll(t: Table, sfs: seq<SchemaField>, param: bool): (r: Table)
    requires Indexed(t)
    ensures Indexed(r)
    decreases |sfs|
  {
    if sfs == [] then t
    else
      var before := AddAll(t, sfs[..|sfs| - 1], param);
      AddIndexed(before, sfs[|sfs| - 1], param, !param);
      Add(before, sfs[|sfs| - 1], param, !param)
  }

  /** A parameter with C++ arguments has the name of the result or of an exception. */
  ghost predicate NameShared(params: Table, r: SchemaField)
    requires Indexed(params)
  {
    r.name in params.idx && params.fields[params.idx[r.name]].args > 0 && (r.name == "result" || r.exception != "")
  }

  ghost predicate DistinctNames(sfs: seq<SchemaField>) {
    forall i, j | 0 <= i < j < |sfs| :: sfs[i].name != sfs[j].name
  }

  /** A name keeps its position and its number of arguments. */
  ghost predicate SameArgs(t: Table, u: Table, n: string)
    requires Indexed(t) && Indexed(u)
  {
    n in t.idx ==> n in u.idx && u.idx[n] == t.idx[n] && u.fields[u.idx[n]].args == t.fields[t.idx[n]].args
  }

  /** Adding results leaves the position and the argument count of a parameter alone. */
  lemma {:induction false} AddResultsKeeps(t: Table, rs: seq<SchemaField>, n: string)
    requires Indexed(t)
    ensures SameArgs(t, AddAll(t, rs, false), n)
    decreases |rs|
  {
    if rs != [] {
      var k := |rs| - 1;
      AddResultsKeeps(t, rs[..k], n);
      AddKeeps(AddAll(t, rs[..k], false), rs[k], n);
    }
  }

  lemma AddKeeps(t: Table, r: SchemaField, n: string)
    requires Indexed(t)
    ensures Indexed(Add(t, r, false, true)) && SameArgs(t, Add(t, r, false, true), n)
  {
    AddIndexed(t, r, false, true);
  }

  /** Names come from the table before or from the fields added. */
  lemma {:induction false} AddedName(t: Table, rs: seq<SchemaField>, param: bool, n: string) returns (i: nat)
    requires Indexed(t) && n in AddAll(t, rs, param).idx && n !in t.idx
    ensures i < |rs| && rs[i].name == n
    decreases |rs|
  {
    var k := |rs| - 1;
    if n in AddAll(t, rs[..k], param).idx {
      i := AddedName(t, rs[..k], param, n);
    } else {
      i := k;
    }
  }

  predicate Unclean(f: Field) {
    !KindOf(f).Arg? && f.args > 0
  }

  /** The parameter at position `k` has arguments and the name of the result or of an exception. */
  ghost predicate SharedAt(params: Table, rs: seq<SchemaField>, k: nat)
    requires Indexed(params)
  {
    exists i :: 0 <= i < |rs| && NameShared(params, rs[i]) && params.idx[rs[i].name] == k
  }

  lemma SharedAtMore(params: Table, rs: seq<SchemaField>, k: nat)
    requires Indexed(params) && rs != []
    ensures var n := |rs| - 1;
            SharedAt(params, rs, k) <==>
            SharedAt(params, rs[..n], k) || (NameShared(params, rs[n]) && params.idx[rs[n].name] == k)
  {
    var n := |rs| - 1;
    if i :| 0 <= i < n && NameShared(params, rs[..n][i]) && params.idx[rs[..n][i].name] == k {
      assert rs[i] == rs[..n][i];
    }
    if i :| 0 <= i < |rs| && NameShared(params, rs[i]) && params.idx[rs[i].name] == k {
      assert i < n ==> rs[..n][i] == rs[i];
    }
  }

  lemma SharedAtParam(params: Table, rs: seq<SchemaField>, k: nat)
    requires Indexed(params)
    ensures SharedAt(params, rs, k) ==> k < |params.fields|
  {
  }

  /** What entering one result does to the field at position `k`. */
  lemma AddResultAt(t: Table, r: SchemaField, k: nat)
    requires Indexed(t) && k < |Add(t, r, false, true).fields|
    ensures Unclean(Add(t, r, false, true).fields[k]) <==>
            k < |t.fields| && (Unclean(t.fields[k]) || (NameShared(t, r) && t.idx[r.name] == k))
  {
  }

  /** Whether a result meets a parameter does not depend on the results before it. */
  lemma SharedWithParams(params: Table, rs: seq<SchemaField>)
    requires Indexed(params) && rs != [] && DistinctNames(rs)
    ensures var n := |rs| - 1;
            var before := AddAll(params, rs[..n], false);
            && |params.fields| <= |before.fields|
            && (NameShared(before, rs[n]) <==> NameShared(params, rs[n]))
            && (NameShared(params, rs[n]) ==> before.idx[rs[n].name] == params.idx[rs[n].name])
  {
    var n := |rs| - 1;
    var before, name := AddAll(params, rs[..n], false), rs[n].name;
    AddAllGrows(params, rs[..n]);
    AddResultsKeeps(params, rs[..n], name);
    if name in before.idx && name !in params.idx {
      var i := AddedName(params, rs[..n], false, name);
      assert false;
    }
  }

  lemma {:induction false} AddAllGrows(params: Table, rs: seq<SchemaField>)
    requires Indexed(params)
    ensures |params.fields| <= |AddAll(params, rs, false).fields|
    decreases |rs|
  {
    if rs != [] {
      AddAllGrows(params, rs[..|rs| - 1]);
    }
  }

  /** One more result, given how those before it meet the parameters. */
  lemma UncleanStep(params: Table, before: Table, r: SchemaField, k: nat, shared: bool)
    requires Indexed(params) && Indexed(before) && |params.fields| <= |before.fields|
    requires NameShared(before, r) <==> NameShared(params, r)
    requires NameShared(params, r) ==> before.idx[r.name] == params.idx[r.name]
    requires k < |Add(before, r, false, true).fields|
    requires shared ==> k < |params.fields|
    requires k < |before.fields| ==> (Unclean(before.fields[k]) <==> shared)
    ensures Unclean(Add(before, r, false, true).fields[k]) <==>
            shared || (NameShared(params, r) && params.idx[r.name] == k)
  {
    AddResultAt(before, r, k);
  }

  lemma PrefixDistinct(rs: seq<SchemaField>)
    requires DistinctNames(rs) && rs != []
    ensures DistinctNames(rs[..|rs| - 1])
  {
  }

  /** A result or exception has argument numbers exactly if a parameter with arguments has its name. */
  lemma {:induction false} UncleanIffShared(params: Table, rs: seq<SchemaField>, k: nat)
    requires Indexed(params) && Clean(params.fields) && DistinctNames(rs)
    requires k < |AddAll(params, rs, false).fields|
    ensures Unclean(AddAll(params, rs, false).fields[k]) <==> SharedAt(params, rs, k)
    decreases |rs|
  {
    if rs != [] {
      var front, r := rs[..|rs| - 1], rs[|rs| - 1];
      var before := AddAll(params, front, false);
      PrefixDistinct(rs);
      SharedWithParams(params, rs);
      SharedAtMore(params, rs, k);
      SharedAtParam(params, front, k);
      if k < |before.fields| {
        UncleanIffShared(params, front, k);
      }
      UncleanStep(params, before, r, k, SharedAt(params, front, k));
    }
  }

  /**
  No result or exception has argument numbers exactly if none shares its name
  with a parameter that has C++ arguments.
  */
  lemma CleanUnlessNameShared(params: Table, rs: seq<SchemaField>)
    requires Indexed(params) && Clean(params.fields) && DistinctNames(rs)
    ensures Clean(AddAll(params, rs, false).fields) <==> forall i | 0 <= i < |rs| :: !NameShared(params, rs[i])
  {
    var fields := AddAll(params, rs, false).fields;
    AddAllGrows(params, rs);
    forall k | 0 <= k < |fields| ensures Unclean(fields[k]) <==> SharedAt(params, rs, k) {
      UncleanIffShared(params, rs, k);
    }
    if i :| 0 <= i < |rs| && NameShared(params, rs[i]) {
      assert SharedAt(params, rs, params.idx[rs[i].name]);
    }
  }

  /** Parameters alone are always clean. */
  lemma {:induction false} ParamsClean(ps: seq<SchemaField>)
    requires DistinctNames(ps)
    ensures Clean(AddAll(EMPTY, ps, true).fields)
    decreases |ps|
  {
    if ps != [] {
      var k := |ps| - 1;
      ParamsClean(ps[..k]);
      var before, u := AddAll(EMPTY, ps[..k], true), AddAll(EMPTY, ps, true);
      if ps[k].name in before.idx {
        var i := AddedName(EMPTY, ps[..k], true, ps[k].name);
        assert false;
      }
      assert forall j | 0 <= j < |before.fields| :: u.fields[j] == before.fields[j];
    }
  }

  ghost predicate UncleanLeftOut(fs: seq<Field>) {
    forall i | 0 <= i < |fs| && Unclean(fs[i]) :: fs[i].skip
  }

  lemma UncleanLeftOutCons(fs: seq<Field>)
    requires fs != []
    ensures UncleanLeftOut(fs) <==> (Unclean(fs[0]) ==> fs[0].skip) && UncleanLeftOut(fs[1..])
  {
    var rest := fs[1..];
    assert forall i | 0 <= i < |rest| :: rest[i] == fs[i + 1];
    assert forall i | 0 < i < |fs| :: fs[i] == rest[i - 1];
  }

  lemma CleanCons(f: Field, fs: seq<Field>)
    ensures Clean([f] + fs) <==> !Unclean(f) && Clean(fs)
  {
    assert forall i | 0 <= i < |fs| :: fs[i] == ([f] + fs)[i + 1];
    assert ([f] + fs)[0] == f;
  }

  /** The kept fields are clean exactly if every unclean field is left out. */
  lemma {:induction false} KeptClean(fs: seq<Field>)
    ensures Clean(Kept(fs)) <==> UncleanLeftOut(fs)
  {
    if fs != [] {
      KeptClean(fs[1..]);
      UncleanLeftOutCons(fs);
      CleanCons(fs[0], Kept(fs[1..]));
      assert [] + Kept(fs[1..]) == Kept(fs[1..]);
    }
  }

  /** The fields of a method before flags are merged: parameters, then results. */
  function MethodTable(ps: seq<SchemaField>, rs: seq<SchemaField>): (t: Table)
    ensures Indexed(t)
  {
    AddAll(AddAll(EMPTY, ps, true), rs, false)
  }

  /** `fields` is what `mergeFields` makes of the table. */
  ghost predicate IsMerge(t: Table, fields: seq<Field>)
    requires Indexed(t)
  {
    |fields| == |t.fields| && forall i | 0 <= i < |fields| :: fields[i] == Merged(t, i)
  }

  /** No field that code is generated for has the name of both a parameter with arguments and a result or exception. */
  ghost predicate NoNameShared(ps: seq<SchemaField>, rs: seq<SchemaField>, fields: seq<Field>)
    requires IsMerge(MethodTable(ps, rs), fields)
  {
    forall i | 0 <= i < |rs| && NameShared(AddAll(EMPTY, ps, true), rs[i]) :: LeftOut(ps, rs, fields, rs[i].name)
  }

  ghost predicate LeftOut(ps: seq<SchemaField>, rs: seq<SchemaField>, fields: seq<Field>, name: string)
    requires IsMerge(MethodTable(ps, rs), fields)
  {
    var t := MethodTable(ps, rs);
    name in t.idx ==> fields[t.idx[name]].skip
  }

  lemma MergedUnclean(t: Table, fields: seq<Field>, k: nat)
    requires Indexed(t) && IsMerge(t, fields) && k < |fields|
    ensures Unclean(fields[k]) <==> Unclean(t.fields[k])
  {
    assert fields[k] == Merged(t, k);
  }

  lemma NoNameSharedIff(ps: seq<SchemaField>, rs: seq<SchemaField>, fields: seq<Field>)
    requires DistinctNames(ps) && DistinctNames(rs) && IsMerge(MethodTable(ps, rs), fields)
    ensures NoNameShared(ps, rs, fields) <==> Clean(Kept(fields))
  {
    var params, t := AddAll(EMPTY, ps, true), MethodTable(ps, rs);
    ParamsClean(ps);
    KeptClean(fields);
    forall i | 0 <= i < |rs| && NameShared(params, rs[i])
      ensures rs[i].name in t.idx && t.idx[rs[i].name] == params.idx[rs[i].name]
    {
      AddResultsKeeps(params, rs, rs[i].name);
    }
    forall k | 0 <= k < |fields| ensures Unclean(fields[k]) <==> SharedAt(params, rs, k) {
      MergedUnclean(t, fields, k);
      UncleanIffShared(params, rs, k);
    }
    if Clean(Kept(fields)) {
      forall i | 0 <= i < |rs| && NameShared(params, rs[i]) ensures LeftOut(ps, rs, fields, rs[i].name) {
        assert SharedAt(params, rs, t.idx[rs[i].name]);
      }
    }
  }

  /**
  From the schema to the calls: the three divisions of a method's parameters agree exactly if, among the
  fields code is generated for, no parameter has the name of the result or of an exception, and arguments
  come first.
  */
  lemma SchemaAgrees(ps: seq<SchemaField>, rs: seq<SchemaField>, fields: seq<Field>)
    requires DistinctNames(ps) && DistinctNames(rs) && IsMerge(MethodTable(ps, rs), fields)
    ensures Agree(Kept(fields)) <==> NoNameShared(ps, rs, fields) && ArgsFirst(Kept(fields))
  {
    NoNameSharedIff(ps, rs, fields);
    EverybodyAgrees(Kept(fields));
  }

  /** For example a method with a parameter named `result`, and a result. */
  lemma ParameterNamedResult(fields: seq<Field>)
    requires var sf := SchemaField("result", false, "", None, None, false); IsMerge(MethodTable([sf], [sf]), fields)
    ensures !Agree(Kept(fields))
  {
    var sf := SchemaField("result", false, "", None, None, false);
    var params, t := AddAll(EMPTY, [sf], true), MethodTable([sf], [sf]);
    assert [sf][..0] == [];
    assert AddAll(EMPTY, [], true) == EMPTY && AddAll(params, [], false) == params;
    assert params == Add(EMPTY, sf, true, false) && t == Add(params, sf, false, true);
    assert t.idx == map["result" := 0] && |t.fields| == 1 && !t.fields[0].skip;
    assert HasName("result") != "result" && WantName("result") != "result";
    assert fields[0] == Merged(t, 0) && !IsFlag(t, 0, t.idx.Keys);
    assert NameShared(params, [sf][0]) && !LeftOut([sf], [sf], fields, "result");
    SchemaAgrees([sf], [sf], fields);
  }
}
