/**
`BuildPrimitive` and `CustomReadField` for integers and enums. Comparisons are
those of C++: operands of different types are converted to a common type first,
which changes the value of a negative operand when that type is unsigned.
*/
module Integers {
  import opened Base

  /** The integral types: a width in bits, and whether values can be negative. */
  datatype IntType = Bool | Int(width: Width, signed: bool)

  datatype Width = W8 | W16 | W32 | W64

  function Size(w: Width): int {
    match w
    case W8 => 0x100
    case W16 => 0x1_0000
    case W32 => 0x1_0000_0000
    case W64 => 0x1_0000_0000_0000_0000
  }

  function Min(t: IntType): int {
    match t
    case Bool => 0
    case Int(w, s) => if s then -(Size(w) / 2) else 0
  }

  function Max(t: IntType): int {
    match t
    case Bool => 1
    case Int(w, s) => if s then Size(w) / 2 - 1 else Size(w) - 1
  }

  predicate In(t: IntType, v: int) {
    Min(t) <= v <= Max(t)
  }

  /** What std::numeric_limits says. */
  lemma Limits()
    ensures forall v :: In(Bool, v) <==> v == 0 || v == 1
    ensures forall v :: In(Int(W8, true), v) <==> -128 <= v <= 127
    ensures forall v :: In(Int(W8, false), v) <==> 0 <= v <= 255
    ensures forall v :: In(Int(W16, true), v) <==> -32_768 <= v <= 32_767
    ensures forall v :: In(Int(W16, false), v) <==> 0 <= v <= 65_535
    ensures forall v :: In(Int(W32, true), v) <==> -2_147_483_648 <= v <= 2_147_483_647
    ensures forall v :: In(Int(W32, false), v) <==> 0 <= v <= 4_294_967_295
    ensures forall v :: In(Int(W64, true), v) <==> -9_223_372_036_854_775_808 <= v <= 9_223_372_036_854_775_807
    ensures forall v :: In(Int(W64, false), v) <==> 0 <= v <= 18_446_744_073_709_551_615
  {
  }

  // ----- Conversions and comparisons of C++ ----------------------------------------------

  const INT := Int(W32, true)

  /** Integral promotion: everything narrower than int becomes int. */
  function Promoted(t: IntType): IntType {
    if t.Bool? || t.width == W8 || t.width == W16 then INT else t
  }

  /** The usual arithmetic conversions, for promoted types. */
  function Common(a: IntType, b: IntType): IntType {
    var p, q := Promoted(a), Promoted(b);
    if p.Bool? || q.Bool? then INT                             // promoted types are never bool
    else if p.width == q.width then Int(p.width, p.signed && q.signed)
    else if p.width == W64 then p
    else q
  }

  /** The value of `v` converted to type `t`: unchanged if it fits, else modulo the size of `t`. */
  function Convert(t: IntType, v: int): int {
    if In(t, v) then v
    else match t
      case Bool => 1
      case Int(w, s) =>
        var m := v % Size(w);
        if s && m >= Size(w) / 2 then m - Size(w) else m
  }

  lemma ConvertFits(t: IntType, v: int)
    ensures In(t, Convert(t, v))
  {
  }

  /** A conversion to bool tells zero from the rest; any other changes the value by a multiple of 2^n for n bits. */
  lemma ConvertIs(t: IntType, v: int)
    ensures t.Bool? ==> Convert(t, v) == if v == 0 then 0 else 1
    ensures t.Int? ==> (Convert(t, v) - v) % (Max(t) - Min(t) + 1) == 0
  {
    if t.Int? && !In(t, v) {
      var n, q := Size(t.width), v / Size(t.width);
      Remainder(Convert(t, v) - v, if Convert(t, v) == v % n then -q else -q - 1, n, 0);
    }
  }

  predicate LessEqual(a: IntType, v: int, b: IntType, w: int) {
    Convert(Common(a, b), v) <= Convert(Common(a, b), w)
  }

  predicate Less(a: IntType, v: int, b: IntType, w: int) {
    Convert(Common(a, b), v) < Convert(Common(a, b), w)
  }

  // ----- The code --------------------------------------------------------------------------

  /** The two static assertions of `BuildPrimitive`, as the compiler evaluates them. */
  predicate BuildCompiles(local: IntType, wire: IntType) {
    LessEqual(wire, Min(wire), local, Min(local)) && LessEqual(local, Max(local), wire, Max(wire))
  }

  function Build(wire: IntType, v: int): int {
    Convert(wire, v)
  }

  /** `CustomReadField`: None is std::range_error. */
  function Read(local: IntType, wire: IntType, w: int): Option<int> {
    if Less(wire, w, local, Min(local)) || Less(local, Max(local), wire, w) then None
    else Some(Convert(local, w))
  }

  // ----- What it achieves -------------------------------------------------------------------

  /** Every local value arrives. */
  ghost predicate RoundTrips(local: IntType, wire: IntType) {
    forall v | In(local, v) :: Read(local, wire, Build(wire, v)) == Some(v)
  }

  /** A signed value travels in an unsigned field. */
  predicate LosesSign(local: IntType, wire: IntType) {
    local.Int? && local.signed && !(wire.Int? && wire.signed)
  }

  /** The largest values of two types fit in their common type. */
  lemma MaxFits(a: IntType, b: IntType)
    ensures In(Common(a, b), Max(a)) && In(Common(a, b), Max(b))
  {
  }

  /** The smallest values of signed types do. */
  lemma MinFits(a: IntType, b: IntType)
    requires a.Int? && a.signed && b.Int? && b.signed
    ensures In(Common(a, b), Min(a)) && In(Common(a, b), Min(b))
  {
  }

  lemma CompilesMeansContains(local: IntType, wire: IntType)
    requires BuildCompiles(local, wire) && !LosesSign(local, wire)
    ensures Min(wire) <= Min(local) && Max(local) <= Max(wire)
  {
    MaxFits(local, wire);
    if local.Int? && local.signed {
      MinFits(wire, local);
    }
  }

  /** Where the sign is kept, the common type has room for the values of both. */
  lemma CommonContains(local: IntType, wire: IntType)
    requires Min(wire) <= Min(local) && Max(local) <= Max(wire)
    ensures Common(local, wire) == Common(wire, local)
    ensures Min(Common(local, wire)) <= Min(wire) && Max(wire) <= Max(Common(local, wire))
  {
  }

  /** So comparing in the common type is comparing the values. */
  lemma CommonFits(local: IntType, wire: IntType, v: int)
    requires BuildCompiles(local, wire) && !LosesSign(local, wire)
    requires In(wire, v) || In(local, v)
    ensures Convert(Common(local, wire), v) == Convert(Common(wire, local), v) == v
  {
    CompilesMeansContains(local, wire);
    CommonContains(local, wire);
    assert In(Common(local, wire), v);
  }

  /** The range check on reading is exact: it rejects what the local type cannot hold, and nothing else. */
  lemma ReadIsExact(local: IntType, wire: IntType, w: int)
    requires BuildCompiles(local, wire) && !LosesSign(local, wire) && In(wire, w)
    ensures Read(local, wire, w) == if In(local, w) then Some(w) else None
  {
    CommonFits(local, wire, w);
    CommonFits(local, wire, Min(local));
    CommonFits(local, wire, Max(local));
    assert Less(wire, w, local, Min(local)) <==> w < Min(local);
    assert Less(local, Max(local), wire, w) <==> Max(local) < w;
  }

  /** A signed type accepted for an unsigned field: the common type is that of the field. */
  lemma LosingSignConverts(local: IntType, wire: IntType)
    requires BuildCompiles(local, wire) && LosesSign(local, wire)
    ensures wire.Int? && (wire.width == W32 || wire.width == W64)
    ensures Common(local, wire) == wire == Common(wire, local)
    ensures Size(local.width) <= Size(wire.width)
  {
  }

  /** Then no value at all gets through: reading throws whatever was built. */
  lemma LosingSignRejectsEverything(local: IntType, wire: IntType, v: int)
    requires BuildCompiles(local, wire) && LosesSign(local, wire) && In(local, v)
    ensures Read(local, wire, Build(wire, v)) == None
  {
    LosingSignConverts(local, wire);
    var n, half := Size(wire.width), Size(local.width) / 2;
    assert Convert(wire, Min(local)) == n - half by {
      assert Min(local) == -half;
      assert (-half) % n == n - half;
    }
    assert Convert(wire, Max(local)) == half - 1;
    if v < 0 {
      assert v % n == n + v;
      assert Build(wire, v) == n + v && Convert(wire, n + v) == n + v;
    } else {
      assert Build(wire, v) == v;
    }
  }

  /** Among the pairs of types the compiler accepts, values arrive exactly if the sign is kept. */
  lemma RoundTripIff(local: IntType, wire: IntType)
    requires BuildCompiles(local, wire)
    ensures RoundTrips(local, wire) <==> !LosesSign(local, wire)
  {
    if LosesSign(local, wire) {
      LosingSignRejectsEverything(local, wire, 0);
    } else {
      CompilesMeansContains(local, wire);
      forall v | In(local, v) ensures Read(local, wire, Build(wire, v)) == Some(v) {
        ReadIsExact(local, wire, v);
      }
    }
  }

  /** The compiler does accept such pairs, for example an int in a UInt32 field. */
  lemma SignCanBeLost()
    ensures BuildCompiles(Int(W32, true), Int(W32, false)) && !RoundTrips(Int(W32, true), Int(W32, false))
  {
    RoundTripIff(Int(W32, true), Int(W32, false));
  }

  // ----- Enums --------------------------------------------------------------------------------

  /** The static assertion compares the unsigned versions of both types. */
  predicate EnumCompiles(underlying: IntType, wire: IntType) {
    underlying.Int? && wire.Int? && Max(Int(wire.width, false)) >= Max(Int(underlying.width, false))
  }

  lemma SizeDivides(n: Width, m: Width)
    requires Size(n) <= Size(m)
    ensures Size(m) % Size(n) == 0
  {
  }

  lemma Remainder(a: int, q: int, n: int, r: int)
    requires 0 <= r < n && a == q * n + r
    ensures a % n == r
  {
    var d := q - a / n;
    assert d * n == a % n - r;
    assert d >= 1 ==> d * n >= n;
    assert d <= -1 ==> d * n <= -n;
  }

  /** A negative number wraps to the top of the larger range, and from there to the top of the smaller. */
  lemma WrapTwice(v: int, n: int, m: int)
    requires -n <= v < 0 < n <= m && m % n == 0
    ensures v % m == m + v && (m + v) % n == n + v
  {
    Remainder(m + v, m / n - 1, n, n + v);
    Remainder(v, -1, m, m + v);
  }

  /** Both directions are plain casts, and every value arrives whatever the signs. */
  lemma EnumRoundTrips(underlying: IntType, wire: IntType, v: int)
    requires EnumCompiles(underlying, wire) && In(underlying, v)
    ensures Convert(underlying, Convert(wire, v)) == v
  {
    var n, m := Size(underlying.width), Size(wire.width);
    SizeDivides(underlying.width, wire.width);
    if v < 0 {
      WrapTwice(v, n, m);
    } else if !In(wire, v) {
      assert n == m;
      Remainder(v, 0, m, v);
      Remainder(v - m, -1, m, v);
    }
  }
}
