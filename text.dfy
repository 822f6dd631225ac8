/** Decimal rendering of natural numbers and of shape tuples, as Python's
    f-strings write them into the error messages of the simulator. */
module Text {

  function Digit(d: nat): (c: char)
    requires d < 10
    ensures '0' <= c <= '9'
  {
    ('0' as int + d) as char
  }

  function DigitValue(c: char): (d: nat)
    ensures '0' <= c <= '9' ==> d < 10
  {
    if '0' <= c <= '9' then c as int - '0' as int else 0
  }

  /** `str(n)`: the decimal digits of `n`, without leading zeros. */
  function NatToString(n: nat): (s: string)
    ensures |s| > 0
    ensures forall i :: 0 <= i < |s| ==> '0' <= s[i] <= '9'
    ensures s[0] == '0' ==> n == 0 && |s| == 1
    decreases n
  {
    if n < 10 then [Digit(n)] else NatToString(n / 10) + [Digit(n % 10)]
  }

  /** Reads a string of decimal digits back as a number. */
  function ParseNat(s: string): nat
    decreases |s|
  {
    if s == [] then 0 else ParseNat(s[..|s| - 1]) * 10 + DigitValue(s[|s| - 1])
  }

  /** The decimal rendering loses nothing: the number can be read back from it. */
  lemma {:induction false} ParseNatToString(n: nat)
    ensures ParseNat(NatToString(n)) == n
  {
    var s := NatToString(n);
    if n < 10 {
      assert s[..|s| - 1] == [];
    } else {
      ParseNatToString(n / 10);
      assert s[..|s| - 1] == NatToString(n / 10);
    }
  }

  function JoinNats(ns: seq<nat>): string
    requires |ns| > 0
    decreases |ns|
  {
    if |ns| == 1 then NatToString(ns[0])
    else JoinNats(ns[..|ns| - 1]) + ", " + NatToString(ns[|ns| - 1])
  }

  /** `str(t)` for a tuple of naturals: `()`, `(5,)`, `(1, 5)`. */
  function TupleToString(ns: seq<nat>): (s: string)
    ensures |s| >= 2 && s[0] == '(' && s[|s| - 1] == ')'
  {
    if |ns| == 0 then "()"
    else if |ns| == 1 then "(" + NatToString(ns[0]) + ",)"
    else "(" + JoinNats(ns) + ")"
  }

  predicate IsDigit(c: char)
  {
    '0' <= c <= '9'
  }

  predicate AllDigits(s: string)
  {
    forall i :: 0 <= i < |s| ==> IsDigit(s[i])
  }

  /** The length of the longest run of digits that ends `s`. */
  function DigitSuffixLength(s: string): (d: nat)
    ensures d <= |s|
    decreases |s|
  {
    if s == [] || !IsDigit(s[|s| - 1]) then 0 else DigitSuffixLength(s[..|s| - 1]) + 1
  }

  /** Reads `JoinNats` back: the numbers between the separators ", ". */
  function ParseJoin(s: string): seq<nat>
    decreases |s|
  {
    var d := DigitSuffixLength(s);
    if d + 2 > |s| then [ParseNat(s)]
    else ParseJoin(s[..|s| - d - 2]) + [ParseNat(s[|s| - d..])]
  }

  /** Reads `TupleToString` back. */
  function ParseTuple(s: string): seq<nat>
  {
    var inner := if |s| >= 2 then s[1..|s| - 1] else [];
    if inner == [] then []
    else if inner[|inner| - 1] == ',' then [ParseNat(inner[..|inner| - 1])]
    else ParseJoin(inner)
  }

  lemma {:induction false} DigitSuffixOfDigits(a: string, d: string)
    requires AllDigits(d) && (a == [] || !IsDigit(a[|a| - 1]))
    ensures DigitSuffixLength(a + d) == |d|
    decreases |d|
  {
    if d != [] {
      assert (a + d)[..|a + d| - 1] == a + d[..|d| - 1];
      DigitSuffixOfDigits(a, d[..|d| - 1]);
    } else {
      assert a + d == a;
    }
  }

  /** One separator more: the last number is split off at the last ", ". */
  lemma ParseJoinStep(init: string, last: string)
    requires AllDigits(last)
    ensures ParseJoin(init + ", " + last) == ParseJoin(init) + [ParseNat(last)]
  {
    var s := init + ", " + last;
    assert s == (init + ", ") + last;
    DigitSuffixOfDigits(init + ", ", last);
    assert s[..|s| - |last| - 2] == init;
    assert s[|s| - |last|..] == last;
  }

  lemma ParseJoinSingle(last: string)
    requires AllDigits(last)
    ensures ParseJoin(last) == [ParseNat(last)]
  {
    DigitSuffixOfDigits([], last);
    assert [] + last == last;
  }

  lemma {:induction false} ParseJoinNats(ns: seq<nat>)
    requires |ns| > 0
    ensures ParseJoin(JoinNats(ns)) == ns
    decreases |ns|
  {
    var n := ns[|ns| - 1];
    var last := NatToString(n);
    ParseNatToString(n);
    if |ns| == 1 {
      ParseJoinSingle(last);
      assert ns == [n];
    } else {
      var init := ns[..|ns| - 1];
      var joined := JoinNats(init);
      assert JoinNats(ns) == joined + ", " + last;
      ParseJoinStep(joined, last);
      ParseJoinNats(init);
      assert init + [n] == ns;
    }
  }

  /** The rendering of a tuple loses nothing: parsing it gives the tuple back. */
  lemma ParseTupleToString(ns: seq<nat>)
    ensures ParseTuple(TupleToString(ns)) == ns
  {
    var s := TupleToString(ns);
    var inner := s[1..|s| - 1];
    if |ns| == 1 {
      assert inner == NatToString(ns[0]) + [','];
      assert inner[..|inner| - 1] == NatToString(ns[0]);
      ParseNatToString(ns[0]);
    } else if |ns| > 1 {
      assert inner == JoinNats(ns);
      JoinNatsEndsInDigit(ns);
      ParseJoinNats(ns);
    }
  }

  lemma JoinNatsEndsInDigit(ns: seq<nat>)
    requires |ns| > 0
    ensures |JoinNats(ns)| > 0 && IsDigit(JoinNats(ns)[|JoinNats(ns)| - 1])
  {
    var last := NatToString(ns[|ns| - 1]);
    if |ns| > 1 {
      assert JoinNats(ns)[|JoinNats(ns)| - 1] == last[|last| - 1];
    }
  }
}
