/**
 * The parts of `java.lang.String` and `java.lang.Integer` the readers and the launcher rely on:
 * `Integer.parseInt`, `String.split` with a one-character separator, `String.equalsIgnoreCase`
 * and the whitespace test of `java.util.Scanner`, on ASCII text.
 */
module JavaText {
  import opened Wrappers

  const INT_MIN: int := -0x8000_0000
  const INT_MAX: int := 0x7FFF_FFFF

  /** A mathematical integer wrapped into a Java `int`, as `int` arithmetic does on overflow. */
  function Int32(x: int): (r: int)
    ensures INT_MIN <= r <= INT_MAX
    ensures (x - r) % 0x1_0000_0000 == 0
    ensures INT_MIN <= x <= INT_MAX ==> r == x
  {
    (x - INT_MIN) % 0x1_0000_0000 + INT_MIN
  }

  predicate IsDigit(c: char)
  {
    '0' <= c <= '9'
  }

  predicate AllDigits(s: string)
  {
    forall i :: 0 <= i < |s| ==> IsDigit(s[i])
  }

  /** The value of a string of decimal digits, most significant first. */
  function DigitsValue(s: string): nat
    requires AllDigits(s)
  {
    if s == [] then 0 else DigitsValue(s[..|s| - 1]) * 10 + (s[|s| - 1] - '0') as int
  }

  /**
   * `Integer.parseInt(s)`: an optional sign followed by at least one digit, whose value is a Java
   * `int`; `None` where Java throws `NumberFormatException`.
   */
  function ParseInt(s: string): (r: Option<int>)
    ensures r.Some? ==> INT_MIN <= r.value <= INT_MAX
  {
    if s == [] then None
    else
      var digits := if s[0] == '-' || s[0] == '+' then s[1..] else s;
      if digits == [] || !AllDigits(digits) then None
      else
        var v: int := if s[0] == '-' then -(DigitsValue(digits) as int) else DigitsValue(digits);
        if INT_MIN <= v <= INT_MAX then Some(v) else None
  }

  /** The decimal digits of `n`, without leading zeros. */
  function NatToString(n: nat): (s: string)
    decreases n
  {
    if n < 10 then ['0' + n as char] else NatToString(n / 10) + ['0' + (n % 10) as char]
  }

  /** `Integer.toString(n)`: a minus sign for negative values, then the digits. */
  function IntToString(n: int): string
  {
    if n < 0 then "-" + NatToString(-n) else NatToString(n)
  }

  /** The digits printed for `n` are digits, at least one, and read back as `n`. */
  lemma {:induction false} NatToStringDigits(n: nat)
    ensures NatToString(n) != [] && AllDigits(NatToString(n))
    ensures DigitsValue(NatToString(n)) == n
    decreases n
  {
    var s := NatToString(n);
    if n >= 10 {
      NatToStringDigits(n / 10);
      assert s[..|s| - 1] == NatToString(n / 10);
    }
  }

  /** Every Java `int` printed in decimal parses back to itself. */
  lemma ParseIntToString(n: int)
    requires INT_MIN <= n <= INT_MAX
    ensures ParseInt(IntToString(n)) == Some(n)
  {
    if n < 0 {
      NatToStringDigits(-n);
      assert IntToString(n)[1..] == NatToString(-n);
    } else {
      NatToStringDigits(n);
    }
  }

  /** A successful parse starts with a sign or a digit and has a digit after the sign. */
  lemma ParseIntShape(s: string)
    requires ParseInt(s).Some?
    ensures |s| >= 1 && (IsDigit(s[0]) || (|s| >= 2 && (s[0] == '-' || s[0] == '+') && IsDigit(s[1])))
  {
  }

  /** Empty text, a lone sign and text with a non-digit after the sign do not parse. */
  lemma ParseIntRejects(s: string, i: int)
    requires 0 <= i < |s| && !IsDigit(s[i]) && (i > 0 || (s[0] != '-' && s[0] != '+') || |s| == 1)
    ensures ParseInt(s) == None
  {
    if i > 0 && (s[0] == '-' || s[0] == '+') {
      assert !IsDigit(s[1..][i - 1]);
    }
  }

  /** The pieces of `s` between occurrences of `sep`, trailing empty pieces included. */
  function Pieces(s: string, sep: char): (p: seq<string>)
    ensures |p| >= 1
    ensures forall i :: 0 <= i < |p| ==> sep !in p[i]
    decreases |s|
  {
    if s == [] then [[]]
    else
      var rest := Pieces(s[1..], sep);
      if s[0] == sep then [[]] + rest else [[s[0]] + rest[0]] + rest[1..]
  }

  /** The list without its trailing empty strings. */
  function DropTrailingEmpty(p: seq<string>): (r: seq<string>)
    ensures |r| <= |p| && r == p[..|r|]
    ensures r != [] ==> r[|r| - 1] != []
    ensures forall k :: |r| <= k < |p| ==> p[k] == []
  {
    if p != [] && p[|p| - 1] == [] then DropTrailingEmpty(p[..|p| - 1]) else p
  }

  /**
   * `s.split(sep)` for a separator that is not a regular-expression metacharacter: the text itself
   * when `sep` does not occur, otherwise the pieces without the trailing empty ones.
   */
  function Split(s: string, sep: char): (r: seq<string>)
    ensures forall i :: 0 <= i < |r| ==> sep !in r[i]
    ensures sep !in s ==> r == [s]
  {
    if sep !in s then [s] else DropTrailingEmpty(Pieces(s, sep))
  }

  /** Text free of the separator is one piece. */
  lemma {:induction false} PiecesWhole(a: string, sep: char)
    requires sep !in a
    ensures Pieces(a, sep) == [a]
    decreases |a|
  {
    if a != [] {
      PiecesWhole(a[1..], sep);
      assert [a[0]] + a[1..] == a;
    }
  }

  /** A separator-free prefix before a separator is the first piece. */
  lemma {:induction false} PiecesJoin(a: string, sep: char, b: string)
    requires sep !in a
    ensures Pieces(a + [sep] + b, sep) == [a] + Pieces(b, sep)
    decreases |a|
  {
    var s := a + [sep] + b;
    if a == [] {
      assert s[1..] == b;
    } else {
      assert s[1..] == a[1..] + [sep] + b;
      PiecesJoin(a[1..], sep, b);
      assert [a[0]] + a[1..] == a;
    }
  }

  /** `key=value` with neither part holding `=` and a non-empty value splits into the two parts. */
  lemma SplitPair(a: string, sep: char, b: string)
    requires sep !in a && sep !in b && b != []
    ensures Split(a + [sep] + b, sep) == [a, b]
  {
    assert (a + [sep] + b)[|a|] == sep;
    PiecesJoin(a, sep, b);
    PiecesWhole(b, sep);
  }

  /** Text followed only by a separator splits into that text alone, or into nothing when it is empty. */
  lemma SplitTrailing(a: string, sep: char)
    requires sep !in a
    ensures Split(a + [sep], sep) == if a == [] then [] else [a]
  {
    assert (a + [sep])[|a|] == sep;
    PiecesJoin(a, sep, []);
    assert a + [sep] + [] == a + [sep];
    assert Pieces([], sep) == [[]];
    var p := [a] + [[]];
    assert p[..|p| - 1] == [a];
    assert DropTrailingEmpty(p) == DropTrailingEmpty([a]);
    if a == [] {
      assert [a][..0] == [];
    }
  }

  /** The lower-case form of an ASCII letter; every other character is itself. */
  function ToLower(c: char): char
  {
    if 'A' <= c <= 'Z' then c - 'A' + 'a' else c
  }

  /** `a.equalsIgnoreCase(b)`: the same length and the same characters up to case. */
  predicate EqualsIgnoreCase(a: string, b: string)
  {
    |a| == |b| && forall i :: 0 <= i < |a| ==> ToLower(a[i]) == ToLower(b[i])
  }

  /** Ignoring case is an equivalence that identifies a text with its lower-case form. */
  lemma EqualsIgnoreCaseEquivalence(a: string, b: string, c: string)
    ensures EqualsIgnoreCase(a, a)
    ensures EqualsIgnoreCase(a, b) ==> EqualsIgnoreCase(b, a)
    ensures EqualsIgnoreCase(a, b) && EqualsIgnoreCase(b, c) ==> EqualsIgnoreCase(a, c)
    ensures EqualsIgnoreCase(a, seq(|a|, i requires 0 <= i < |a| => ToLower(a[i])))
  {
  }

  /** The characters `java.util.Scanner` skips between tokens by default (ASCII whitespace). */
  predicate IsWhitespace(c: char)
  {
    c == ' ' || c == '\t' || c == '\n' || c == '\r' || c == '\U{B}' || c == '\U{C}' || '\U{1C}' <= c <= '\U{1F}'
  }
}
