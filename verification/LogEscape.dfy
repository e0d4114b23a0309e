/** `LogEscape`: message contents made printable, and cut off when they get long. */
module LogEscape {
  import opened Base

  type Byte = b: int | 0 <= b < 256

  const BACKSLASH: Byte := 0x5c
  const DOTS: seq<Byte> := [0x2e, 0x2e, 0x2e]

  predicate Printable(c: Byte) {
    0x20 <= c <= 0x7e
  }

  /** A digit of "%02x". */
  function Hex(d: int): Byte
    requires 0 <= d < 16
  {
    if d < 10 then 0x30 + d else 0x61 + d - 10
  }

  function Digit(c: Byte): (d: Option<int>)
    ensures d.Some? ==> 0 <= d.value < 16 && Hex(d.value) == c
  {
    if 0x30 <= c <= 0x39 then Some(c - 0x30) else if 0x61 <= c <= 0x66 then Some(c - 0x61 + 10) else None
  }

  function Escape(c: Byte): seq<Byte> {
    if c == BACKSLASH then [BACKSLASH, BACKSLASH]
    else if Printable(c) then [c]
    else [BACKSLASH, Hex(c / 16), Hex(c % 16)]
  }

  function Escaped(s: seq<Byte>): seq<Byte> {
    if s == [] then [] else Escape(s[0]) + Escaped(s[1..])
  }

  function Joined(pieces: seq<seq<Byte>>): seq<Byte> {
    if pieces == [] then [] else pieces[0] + Joined(pieces[1..])
  }

  /** The shortest prefix whose escaped form is longer than `max`, or everything. */
  function Cut(s: seq<Byte>, max: nat): (n: nat)
    ensures n <= |s|
    ensures |Escaped(s[..n])| > max ==> n > 0
    ensures |Escaped(s[..n])| <= max ==> n == |s|
    ensures forall k :: 0 <= k < n ==> |Escaped(s[..k])| <= max
  {
    CutFrom(s, max, 0)
  }

  function CutFrom(s: seq<Byte>, max: nat, from: nat): (n: nat)
    requires from <= |s| && forall k :: 0 <= k < from ==> |Escaped(s[..k])| <= max
    ensures from <= n <= |s|
    ensures |Escaped(s[..n])| <= max ==> n == |s|
    ensures forall k :: 0 <= k < n ==> |Escaped(s[..k])| <= max
    decreases |s| - from
  {
    if |Escaped(s[..from])| > max || from == |s| then from else CutFrom(s, max, from + 1)
  }

  /** The escaped prefix, with dots if the limit was passed. */
  function Limited(s: seq<Byte>, max: nat): seq<Byte> {
    var e := Escaped(s[..Cut(s, max)]);
    if |e| > max then e + DOTS else e
  }

  // ----- The loops -----------------------------------------------------------------------------

  lemma Associative(a: seq<Byte>, b: seq<Byte>, c: seq<Byte>)
    ensures a + (b + c) == a + b + c
  {
  }

  lemma {:induction false} EscapedAppend(s: seq<Byte>, t: seq<Byte>)
    ensures Escaped(s + t) == Escaped(s) + Escaped(t)
  {
    if s == [] {
      assert s + t == t;
    } else {
      EscapedAppend(s[1..], t);
      assert (s + t)[0] == s[0] && (s + t)[1..] == s[1..] + t;
      assert Escaped(s + t) == Escape(s[0]) + Escaped(s[1..] + t);
      Associative(Escape(s[0]), Escaped(s[1..]), Escaped(t));
    }
  }

  lemma EscapedOneMore(s: seq<Byte>, k: nat)
    requires k < |s|
    ensures Escaped(s[..k + 1]) == Escaped(s[..k]) + Escape(s[k])
  {
    assert s[..k + 1] == s[..k] + [s[k]];
    EscapedAppend(s[..k], [s[k]]);
    assert Escaped([s[k]]) == Escape(s[k]);
  }

  /** Nothing passes the limit twice. */
  lemma CutIs(s: seq<Byte>, max: nat, n: nat)
    requires n <= |s| && (|Escaped(s[..n])| <= max ==> n == |s|)
    requires forall k :: 0 <= k < n ==> |Escaped(s[..k])| <= max
    ensures Cut(s, max) == n
  {
    var c := Cut(s, max);
    assert |Escaped(s[..c])| <= max || c >= n;
  }

  /** The state of the loops after `done` of the bytes. */
  ghost predicate SoFar(all: seq<Byte>, done: nat, max: nat, result: seq<Byte>) {
    if |result| > max then result == Limited(all, max) && |Limited(all, max)| > max
    else done <= |all| && result == Escaped(all[..done]) && forall k :: 0 <= k < done ==> |Escaped(all[..k])| <= max
  }

  lemma Step(all: seq<Byte>, done: nat, max: nat, result: seq<Byte>)
    requires done < |all| && SoFar(all, done, max, result) && |result| <= max
    ensures var more := result + Escape(all[done]);
            SoFar(all, done + 1, max, if |more| > max then more + DOTS else more)
  {
    EscapedOneMore(all, done);
    var more := result + Escape(all[done]);
    if |more| > max {
      CutIs(all, max, done + 1);
    }
  }

  method EscapePiece(piece: seq<Byte>, max: nat, begun: seq<Byte>, ghost all: seq<Byte>, ghost start: nat)
    returns (result: seq<Byte>)
    requires start + |piece| <= |all| && all[start..start + |piece|] == piece
    requires SoFar(all, start, max, begun)
    ensures SoFar(all, start + |piece|, max, result)
  {
    result := begun;
    if |result| > max {
      return;
    }
    for i := 0 to |piece|
      invariant |result| <= max && SoFar(all, start + i, max, result)
    {
      assert piece[i] == all[start + i];
      Step(all, start + i, max, result);
      result := result + Escape(piece[i]);
      if |result| > max {
        result := result + DOTS;
        break;
      }
    }
  }

  lemma {:induction false} JoinedAppend(pieces: seq<seq<Byte>>, k: nat)
    requires k < |pieces|
    ensures Joined(pieces[..k + 1]) == Joined(pieces[..k]) + pieces[k]
    ensures |Joined(pieces[..k + 1])| <= |Joined(pieces)|
    ensures Joined(pieces[..k + 1]) == Joined(pieces)[..|Joined(pieces[..k + 1])|]
  {
    var front := pieces[..k + 1];
    if k == 0 {
      assert front == [pieces[0]] && front[1..] == [] && pieces[..0] == [];
      assert Joined(front) == pieces[0] + Joined([]);
    } else {
      JoinedAppend(pieces[1..], k - 1);
      assert pieces[1..][..k] == front[1..] && pieces[1..][..k - 1] == pieces[..k][1..];
    }
  }

  /** The result depends on the concatenation of the pieces alone. */
  method LogEscape(pieces: seq<seq<Byte>>, max: nat) returns (result: seq<Byte>)
    ensures result == Limited(Joined(pieces), max)
  {
    ghost var all := Joined(pieces);
    result := [];
    for i := 0 to |pieces|
      invariant |Joined(pieces[..i])| <= |all|
      invariant SoFar(all, |Joined(pieces[..i])|, max, result)
    {
      JoinedAppend(pieces, i);
      result := EscapePiece(pieces[i], max, result, all, |Joined(pieces[..i])|);
    }
    assert pieces[..|pieces|] == pieces;
    if |result| <= max {
      CutIs(all, max, |all|);
    }
  }

  // ----- What a reader of the log can rely on -----------------------------------------------------

  ghost predicate AllPrintable(s: seq<Byte>) {
    forall i :: 0 <= i < |s| ==> Printable(s[i])
  }

  lemma {:induction false} EscapedPrintable(s: seq<Byte>)
    ensures AllPrintable(Escaped(s))
  {
    if s != [] {
      EscapedPrintable(s[1..]);
    }
  }

  /** The escape of a byte: itself, two backslashes, or a backslash and two lower-case hexadecimal digits. */
  lemma EscapeIs(c: Byte)
    ensures Escape(c) ==
            if c == '\\' as int then ['\\' as int, '\\' as int]
            else if ' ' as int <= c <= '~' as int then [c]
            else ['\\' as int, "0123456789abcdef"[c / 16] as int, "0123456789abcdef"[c % 16] as int]
  {
    assert "0123456789abcdef"[..10] == "0123456789" && "0123456789abcdef"[10..] == "abcdef";
    assert Hex(c / 16) == "0123456789abcdef"[c / 16] as int && Hex(c % 16) == "0123456789abcdef"[c % 16] as int;
  }

  /** Printable ASCII, and at most six bytes over the limit. */
  lemma LimitedFits(s: seq<Byte>, max: nat)
    ensures forall i :: 0 <= i < |Limited(s, max)| ==> 0x20 <= Limited(s, max)[i] <= 0x7e
    ensures |Limited(s, max)| <= max + 6
  {
    var n := Cut(s, max);
    EscapedPrintable(s[..n]);
    if n > 0 {
      EscapedOneMore(s, n - 1);
    }
  }

  /** The inverse of the escape, which accepts nothing else. */
  function Unescape(e: seq<Byte>): Option<seq<Byte>> {
    if e == [] then Some([])
    else if e[0] != BACKSLASH then
      if Printable(e[0]) then Prepend(e[0], Unescape(e[1..])) else None
    else if |e| >= 2 && e[1] == BACKSLASH then Prepend(BACKSLASH, Unescape(e[2..]))
    else if |e| >= 3 && Digit(e[1]).Some? && Digit(e[2]).Some? then
      var c := Digit(e[1]).value * 16 + Digit(e[2]).value;
      if Printable(c) then None else Prepend(c, Unescape(e[3..]))
    else None
  }

  function Prepend(c: Byte, r: Option<seq<Byte>>): Option<seq<Byte>> {
    if r.None? then None else Some([c] + r.value)
  }

  lemma UnescapeOne(c: Byte, e: seq<Byte>)
    ensures Unescape(Escape(c) + e) == Prepend(c, Unescape(e))
  {
    var x := Escape(c) + e;
    if c == BACKSLASH {
      assert x[2..] == e;
    } else if Printable(c) {
      assert x[1..] == e;
    } else {
      assert x[3..] == e;
      assert Digit(x[1]) == Some(c / 16) && Digit(x[2]) == Some(c % 16);
    }
  }

  lemma {:induction false} EscapedDecodes(s: seq<Byte>)
    ensures Unescape(Escaped(s)) == Some(s)
  {
    if s != [] {
      EscapedDecodes(s[1..]);
      UnescapeOne(s[0], Escaped(s[1..]));
      assert [s[0]] + s[1..] == s;
    }
  }

  /** The first byte of a decoded text comes from its own escape. */
  lemma FirstEscape(e: seq<Byte>) returns (c: Byte, rest: seq<Byte>)
    requires e != [] && Unescape(e).Some?
    ensures e == Escape(c) + rest && Unescape(e) == Prepend(c, Unescape(rest))
  {
    if e[0] != BACKSLASH {
      c, rest := e[0], e[1..];
    } else if e[1] == BACKSLASH {
      c, rest := BACKSLASH, e[2..];
    } else {
      c, rest := Digit(e[1]).value * 16 + Digit(e[2]).value, e[3..];
    }
    assert e == Escape(c) + rest;
    UnescapeOne(c, rest);
  }

  lemma {:induction false} DecodedIsEscaped(e: seq<Byte>)
    requires Unescape(e).Some?
    ensures Escaped(Unescape(e).value) == e
    decreases |e|
  {
    if e != [] {
      var c, rest := FirstEscape(e);
      DecodedIsEscaped(rest);
      var s := Unescape(e).value;
      assert s[0] == c && s[1..] == Unescape(rest).value;
    }
  }

  /** Every text has one escaped form, which stands for no other. */
  lemma UniquelyDecodable(e: seq<Byte>, s: seq<Byte>)
    ensures Unescape(e) == Some(s) <==> e == Escaped(s)
  {
    EscapedDecodes(s);
    if Unescape(e).Some? {
      DecodedIsEscaped(e);
    }
  }

  /** What is dropped is what exceeds the limit. */
  lemma LimitedIff(s: seq<Byte>, max: nat)
    ensures |Escaped(s[..Cut(s, max)])| <= max <==> |Escaped(s)| <= max
  {
    var n := Cut(s, max);
    EscapedAppend(s[..n], s[n..]);
    assert s == s[..n] + s[n..];
    assert s[..|s|] == s;
  }

  /** What a line in the log says: all of the input if it is within the limit, else a prefix, then dots. */
  lemma LimitedDecodes(s: seq<Byte>, max: nat)
    ensures var r := Limited(s, max);
            if |Escaped(s)| <= max then |r| <= max && Unescape(r) == Some(s)
            else |r| > max + 3 && r[|r| - 3..] == [0x2e, 0x2e, 0x2e] && Unescape(r[..|r| - 3]) == Some(s[..Cut(s, max)])
  {
    var n := Cut(s, max);
    LimitedIff(s, max);
    EscapedDecodes(s[..n]);
    if |Escaped(s)| <= max {
      assert s[..n] == s;
    } else {
      var e := Escaped(s[..n]);
      assert Limited(s, max) == e + DOTS && (e + DOTS)[..|e|] == e;
    }
  }
}
