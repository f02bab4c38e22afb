/**
 * The few Python string operations the build script relies on: `str.lower`,
 * `startswith`/`endswith`, `<=` on strings (the order `sorted` uses), `str(int)`,
 * `replace` of a single character, `split`/`join` on one separator and `rstrip`.
 */
module Strings {

  // ---------------------------------------------------------------- lower()

  predicate IsUpper(c: char) {
    'A' <= c <= 'Z'
  }

  function LowerChar(c: char): (d: char)
    ensures !IsUpper(d)
    ensures !IsUpper(c) ==> d == c
    ensures IsUpper(c) ==> d as int == c as int + 32
  {
    if IsUpper(c) then (c as int - 'A' as int + 'a' as int) as char else c
  }

  /** `s.lower()`, on the ASCII letters only. */
  function Lower(s: string): (r: string)
    ensures |r| == |s|
    ensures forall i :: 0 <= i < |s| ==> !IsUpper(r[i]) && (IsUpper(s[i]) || r[i] == s[i])
    ensures forall i :: 0 <= i < |s| && IsUpper(s[i]) ==> r[i] as int == s[i] as int + 32
  {
    if s == [] then [] else [LowerChar(s[0])] + Lower(s[1..])
  }

  /** `lower` works character by character. */
  lemma {:induction false} LowerAt(s: string, i: nat)
    requires i < |s|
    ensures Lower(s)[i] == LowerChar(s[i])
  {
    if i > 0 {
      LowerAt(s[1..], i - 1);
    }
  }

  // ---------------------------------------------------- startswith/endswith

  predicate StartsWith(s: string, p: string) {
    |p| <= |s| && s[..|p|] == p
  }

  predicate EndsWith(s: string, x: string) {
    |x| <= |s| && s[|s| - |x|..] == x
  }

  // ------------------------------------------------------ string ordering

  /** Python's `a <= b` on strings: lexicographic by code point, a proper prefix first. */
  predicate StrLe(a: string, b: string) {
    if a == [] then true
    else if b == [] then false
    else if a[0] != b[0] then a[0] < b[0]
    else StrLe(a[1..], b[1..])
  }

  lemma {:induction false} StrLeTotal(a: string, b: string)
    ensures StrLe(a, b) || StrLe(b, a)
  {
    if a != [] && b != [] && a[0] == b[0] {
      StrLeTotal(a[1..], b[1..]);
    }
  }

  lemma {:induction false} StrLeTransitive(a: string, b: string, c: string)
    requires StrLe(a, b) && StrLe(b, c)
    ensures StrLe(a, c)
  {
    if a != [] && b != [] && c != [] && a[0] == b[0] == c[0] {
      StrLeTransitive(a[1..], b[1..], c[1..]);
    }
  }

  lemma {:induction false} StrLeAntisymmetric(a: string, b: string)
    requires StrLe(a, b) && StrLe(b, a)
    ensures a == b
  {
    if a != [] && b != [] {
      StrLeAntisymmetric(a[1..], b[1..]);
      assert a == [a[0]] + a[1..] && b == [b[0]] + b[1..];
    }
  }

  // --------------------------------------------------------------- str(int)

  function Digit(d: nat): char
    requires d < 10
  {
    "0123456789"[d]
  }

  function DigitValue(c: char): int {
    c as int - '0' as int
  }

  /** `str(n)` for a non-negative integer: its decimal digits, no leading zeros. */
  function NatToString(n: nat): (r: string)
    ensures r != []
    ensures forall i :: 0 <= i < |r| ==> '0' <= r[i] <= '9'
  {
    if n < 10 then [Digit(n)] else NatToString(n / 10) + [Digit(n % 10)]
  }

  /** `str(n)` for any integer. */
  function IntToString(n: int): (r: string)
    ensures r != []
  {
    if n < 0 then "-" + NatToString(-n) else NatToString(n)
  }

  /** The value of a string of decimal digits: the inverse of NatToString. */
  function DecimalValue(s: string): int {
    if s == [] then 0 else DecimalValue(s[..|s| - 1]) * 10 + DigitValue(s[|s| - 1])
  }

  lemma {:induction false} DecimalValueOfNatToString(n: nat)
    ensures DecimalValue(NatToString(n)) == n
  {
    var r := NatToString(n);
    if n >= 10 {
      DecimalValueOfNatToString(n / 10);
      assert r[..|r| - 1] == NatToString(n / 10);
    }
  }

  lemma NatToStringInjective(a: nat, b: nat)
    requires NatToString(a) == NatToString(b)
    ensures a == b
  {
    DecimalValueOfNatToString(a);
    DecimalValueOfNatToString(b);
  }

  lemma IntToStringSign(n: int)
    ensures IntToString(n)[0] == '-' <==> n < 0
  {
    if n >= 0 {
      assert '0' <= NatToString(n)[0];
    }
  }

  lemma IntToStringInjective(a: int, b: int)
    requires IntToString(a) == IntToString(b)
    ensures a == b
  {
    IntToStringSign(a);
    IntToStringSign(b);
    if a < 0 && b < 0 {
      NegativeInjective(a, b);
    } else if a >= 0 && b >= 0 {
      NatToStringInjective(a, b);
    }
  }

  /** Two negative numbers with the same text: after the sign, both are their magnitudes. */
  lemma NegativeInjective(a: int, b: int)
    requires a < 0 && b < 0 && IntToString(a) == IntToString(b)
    ensures a == b
  {
    assert NatToString(-a) == NatToString(-b) by {
      var sa, sb := "-" + NatToString(-a), "-" + NatToString(-b);
      assert sa[1..] == NatToString(-a) && sb[1..] == NatToString(-b);
    }
    NatToStringInjective(-a, -b);
  }

  // ------------------------------------------------------- replace(c, t)

  function Count(s: string, c: char): (n: nat)
    ensures n <= |s|
  {
    if s == [] then 0 else (if s[0] == c then 1 else 0) + Count(s[1..], c)
  }

  /** `s.replace(c, t)` for a one-character pattern `c`. */
  function ReplaceChar(s: string, c: char, t: string): (r: string)
    ensures |r| == |s| + Count(s, c) * (|t| - 1)
  {
    if s == [] then [] else (if s[0] == c then t else [s[0]]) + ReplaceChar(s[1..], c, t)
  }

  lemma {:induction false} ReplaceCharConcat(a: string, b: string, c: char, t: string)
    ensures ReplaceChar(a + b, c, t) == ReplaceChar(a, c, t) + ReplaceChar(b, c, t)
  {
    if a != [] {
      ReplaceCharConcat(a[1..], b, c, t);
      assert (a + b)[1..] == a[1..] + b;
    } else {
      assert a + b == b;
    }
  }

  lemma {:induction false} ReplaceCharAbsent(s: string, c: char, t: string)
    requires c !in s
    ensures ReplaceChar(s, c, t) == s
  {
    if s != [] {
      ReplaceCharAbsent(s[1..], c, t);
      assert s == [s[0]] + s[1..];
    }
  }

  lemma {:induction false} ReplaceCharEmpty(s: string, c: char, t: string)
    requires t != []
    ensures ReplaceChar(s, c, t) == [] <==> s == []
  {
    if s != [] {
      assert |ReplaceChar(s, c, t)| >= 1;
    }
  }

  // ------------------------------------------------------- split / join

  /** `s.split(sep)` for a one-character separator: always at least one part. */
  function Split(s: string, sep: char): (parts: seq<string>)
    ensures |parts| == Count(s, sep) + 1
    ensures forall i :: 0 <= i < |parts| ==> sep !in parts[i]
  {
    if s == [] then [[]]
    else
      var rest := Split(s[1..], sep);
      if s[0] == sep then [[]] + rest else [[s[0]] + rest[0]] + rest[1..]
  }

  /** `joiner.join(parts)`. */
  function Join(joiner: string, parts: seq<string>): string {
    if |parts| == 0 then []
    else if |parts| == 1 then parts[0]
    else parts[0] + joiner + Join(joiner, parts[1..])
  }

  /** Joining the parts of a split puts `joiner` exactly where each separator was. */
  lemma {:induction false} JoinSplit(s: string, sep: char, joiner: string)
    ensures Join(joiner, Split(s, sep)) == ReplaceChar(s, sep, joiner)
  {
    if s != [] {
      var rest := Split(s[1..], sep);
      JoinSplit(s[1..], sep, joiner);
      if s[0] == sep {
        JoinEmptyFirst(joiner, rest);
      } else {
        JoinExtendFirst(joiner, s[0], rest);
      }
    }
  }

  /** An empty first part contributes only the joiner before the rest. */
  lemma JoinEmptyFirst(joiner: string, parts: seq<string>)
    requires parts != []
    ensures Join(joiner, [[]] + parts) == joiner + Join(joiner, parts)
  {
    assert ([[]] + parts)[1..] == parts;
  }

  /** A character put in front of the first part comes out in front of the join. */
  lemma JoinExtendFirst(joiner: string, c: char, parts: seq<string>)
    requires parts != []
    ensures Join(joiner, [[c] + parts[0]] + parts[1..]) == [c] + Join(joiner, parts)
  {
    var ps := [[c] + parts[0]] + parts[1..];
    if |parts| > 1 {
      assert ps[1..] == parts[1..];
    }
  }

  /** Splitting and joining on the same separator gives the string back. */
  lemma SplitJoinRoundTrip(s: string, sep: char)
    ensures Join([sep], Split(s, sep)) == s
  {
    JoinSplit(s, sep, [sep]);
    ReplaceCharSame(s, sep);
  }

  lemma {:induction false} ReplaceCharSame(s: string, c: char)
    ensures ReplaceChar(s, c, [c]) == s
  {
    if s != [] {
      ReplaceCharSame(s[1..], c);
      assert s == [s[0]] + s[1..];
    }
  }

  // ---------------------------------------------------------------- rstrip

  /** `s.rstrip(chars)`: drops the longest suffix made only of characters in `chars`. */
  function RStrip(s: string, chars: set<char>): (r: string)
    ensures |r| <= |s| && r == s[..|r|]
    ensures r == [] || r[|r| - 1] !in chars
    ensures forall i :: |r| <= i < |s| ==> s[i] in chars
  {
    if s != [] && s[|s| - 1] in chars then RStrip(s[..|s| - 1], chars) else s
  }

  /** Stripping stops at a kept character: a head that ends outside `chars` is never touched. */
  lemma {:induction false} RStripKeepsHead(x: string, y: string, chars: set<char>)
    requires x != [] && x[|x| - 1] !in chars
    ensures RStrip(x + y, chars) == x + RStrip(y, chars)
  {
    if y != [] && y[|y| - 1] in chars {
      assert (x + y)[..|x + y| - 1] == x + y[..|y| - 1];
      RStripKeepsHead(x, y[..|y| - 1], chars);
    } else if y == [] {
      assert x + y == x;
    }
  }
}
