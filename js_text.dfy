/**
 * The string operations of JavaScript that the JXON code relies on:
 * `String.prototype.trim`, `split` by one character, `indexOf(p) === 0`, the
 * decimal form of an index that `for ... in` yields over strings and arrays,
 * and the sign of the number a string converts to when it is compared.
 */
module JsText {
  import opened Wrappers

  /** The WhiteSpace and LineTerminator code points of ECMAScript: what `trim` removes. */
  predicate IsJsSpace(c: char)
  {
    c == '\t' || c == '\n' || c == '\U{000B}' || c == '\U{000C}' || c == '\r' || c == ' '
    || c == '\U{00A0}' || c == '\U{1680}' || ('\U{2000}' <= c <= '\U{200A}')
    || c == '\U{2028}' || c == '\U{2029}' || c == '\U{202F}' || c == '\U{205F}'
    || c == '\U{3000}' || c == '\U{FEFF}'
  }

  /** Every character of `s` is white space (vacuously true of ""). */
  predicate Blank(s: string)
  {
    forall i :: 0 <= i < |s| ==> IsJsSpace(s[i])
  }

  /** Length of the longest blank prefix. */
  function LeadingSpaces(s: string): (n: nat)
    ensures n <= |s|
    ensures Blank(s[..n])
    ensures n < |s| ==> !IsJsSpace(s[n])
  {
    if s == [] || !IsJsSpace(s[0]) then 0
    else
      var n := 1 + LeadingSpaces(s[1..]);
      assert forall i :: 1 <= i < n ==> s[..n][i] == s[1..][..n - 1][i - 1];
      n
  }

  /** Start of the longest blank suffix. */
  function TrailingStart(s: string): (m: nat)
    ensures m <= |s|
    ensures Blank(s[m..])
    ensures 0 < m ==> !IsJsSpace(s[m - 1])
  {
    if s == [] || !IsJsSpace(s[|s| - 1]) then |s|
    else
      var m := TrailingStart(s[..|s| - 1]);
      assert forall i :: m <= i < |s| - 1 ==> s[i] == s[..|s| - 1][i];
      m
  }

  /**
   * `s.trim()`: `s` without its blank prefix and blank suffix. It is empty
   * exactly when `s` is blank, and otherwise begins and ends with a
   * non-blank character.
   */
  function Trim(s: string): (r: string)
    ensures r == "" <==> Blank(s)
    ensures r != "" ==> !IsJsSpace(r[0]) && !IsJsSpace(r[|r| - 1])
    ensures LeadingSpaces(s) + |r| <= |s|
    ensures r == s[LeadingSpaces(s)..LeadingSpaces(s) + |r|]
    ensures Blank(s[..LeadingSpaces(s)]) && Blank(s[LeadingSpaces(s) + |r|..])
  {
    var a := LeadingSpaces(s);
    if a == |s| then
      assert s[..a] == s;
      ""
    else
      var b := TrailingStart(s);
      s[a..b]
  }

  /** Trimming twice is trimming once. */
  lemma TrimIdempotent(s: string)
    ensures Trim(Trim(s)) == Trim(s)
  {
    var r := Trim(s);
    if r != "" {
      assert LeadingSpaces(r) == 0;
      assert TrailingStart(r) == |r|;
      assert r[0..|r|] == r;
    }
  }

  /** `s.indexOf(p) === 0`. */
  predicate StartsWith(s: string, p: string)
  {
    |p| <= |s| && s[..|p|] == p
  }

  /** A string that starts with `p` starts with the first character of `p`. */
  lemma StartsWithHead(s: string, p: string)
    requires |p| > 0 && StartsWith(s, p)
    ensures |s| > 0 && s[0] == p[0]
  {
    assert s[..|p|][0] == s[0];
  }

  /** A string does not start with a prefix whose first character differs from its own. */
  lemma NotStartsWith(s: string, p: string)
    requires |s| > 0 && |p| > 0 && s[0] != p[0]
    ensures !StartsWith(s, p)
  {
    if |p| <= |s| {
      assert s[..|p|][0] == s[0];
    }
  }

  /** Position of the first `c` in `s`, or `|s|`. */
  function IndexOf(s: string, c: char): (i: nat)
    ensures i <= |s|
    ensures i < |s| ==> s[i] == c
    ensures forall j :: 0 <= j < i ==> s[j] != c
  {
    if s == [] then 0
    else if s[0] == c then 0
    else 1 + IndexOf(s[1..], c)
  }

  /** `s.split(c)` for a one-character separator: the pieces between separators, in order. */
  function Split(s: string, c: char): (parts: seq<string>)
    ensures |parts| >= 1
    ensures forall i :: 0 <= i < |parts| ==> c !in parts[i]
    ensures parts[0] == s[..IndexOf(s, c)]
    decreases |s|
  {
    var i := IndexOf(s, c);
    if i == |s| then
      assert s == s[..i];
      [s]
    else
      assert c !in s[..i] by {
        forall j | 0 <= j < i ensures s[..i][j] != c { assert s[..i][j] == s[j]; }
      }
      [s[..i]] + Split(s[i + 1..], c)
  }

  /** `parts[n]`, which is `undefined` past the end. */
  function Part(parts: seq<string>, n: nat): Option<string>
  {
    if n < |parts| then Some(parts[n]) else None
  }

  /** A string without the separator is split into itself alone. */
  lemma SplitWithout(s: string, c: char)
    requires c !in s
    ensures Split(s, c) == [s]
  {
  }

  /** Splitting at the first separator gives the text before it, then the pieces of the rest. */
  lemma SplitFirst(a: string, c: char, b: string)
    requires c !in a
    ensures Split(a + [c] + b, c) == [a] + Split(b, c)
  {
    var s := a + [c] + b;
    var i := IndexOf(s, c);
    assert s[|a|] == c;
    assert i == |a|;
    assert s[..i] == a;
    assert s[i + 1..] == b;
  }

  /** The decimal digits of `n`, as `for ... in` names the indices of a string or an array. */
  function DecimalString(n: nat): (r: string)
    ensures r != ""
    ensures '0' <= r[0] <= '9'
  {
    var digit := [(48 + n % 10) as char];
    if n < 10 then digit else DecimalString(n / 10) + digit
  }

  /** A digit of a numeric literal in the given radix (2, 8, 10 or 16). */
  predicate IsDigit(c: char, radix: nat)
  {
    if radix == 16 then '0' <= c <= '9' || 'a' <= c <= 'f' || 'A' <= c <= 'F'
    else '0' <= c && (c as int) < 48 + radix
  }

  /** Every character of `s` is a digit of the radix (vacuously true of ""). */
  predicate AllDigits(s: string, radix: nat)
  {
    forall i :: 0 <= i < |s| ==> IsDigit(s[i], radix)
  }

  /** Some character of `s` is neither '0' nor '.': a numeral holding one does not denote zero. */
  predicate NonZero(s: string)
  {
    exists i :: 0 <= i < |s| && s[i] != '0' && s[i] != '.'
  }

  /** Where the exponent of a decimal literal starts: the first 'e' or 'E', or `|s|`. */
  function ExponentStart(s: string): (e: nat)
    ensures e <= |s|
  {
    if IndexOf(s, 'e') <= IndexOf(s, 'E') then IndexOf(s, 'e') else IndexOf(s, 'E')
  }

  /** Digits with at most one '.', and at least one digit. */
  predicate Mantissa(m: string)
  {
    var d := IndexOf(m, '.');
    if d == |m| then m != [] && AllDigits(m, 10)
    else |m| > 1 && AllDigits(m[..d], 10) && AllDigits(m[d + 1..], 10)
  }

  /** Empty, or 'e'/'E' followed by decimal digits with an optional sign. */
  predicate Exponent(x: string)
  {
    if x == [] then true
    else
      var r := x[1..];
      (r != [] && AllDigits(r, 10)) || (|r| > 1 && (r[0] == '+' || r[0] == '-') && AllDigits(r[1..], 10))
  }

  /** An unsigned decimal literal other than "Infinity" whose value is not zero. */
  predicate PositiveDecimal(s: string)
  {
    var e := ExponentStart(s);
    Mantissa(s[..e]) && Exponent(s[e..]) && NonZero(s[..e])
  }

  /**
   * `0 < t` for a string `t` already trimmed by the string-to-number
   * conversion: "" is 0; a '-' makes the number negative, zero or NaN; a '+'
   * may precede "Infinity" or a decimal literal; "0x", "0o" and "0b" prefix
   * the other radixes, without a sign; anything else is NaN, which no
   * comparison holds for.
   */
  predicate NumberPositive(t: string)
  {
    if t == [] then false
    else if t[0] == '-' then false
    else if t[0] == '+' then t[1..] == "Infinity" || PositiveDecimal(t[1..])
    else if |t| > 2 && t[0] == '0' && t[1] in "xXoObB" then
      var radix := if t[1] in "xX" then 16 else if t[1] in "oO" then 8 else 2;
      AllDigits(t[2..], radix) && NonZero(t[2..])
    else t == "Infinity" || PositiveDecimal(t)
  }

  /** The decimal form of an index is made of decimal digits, and holds one other than '0' exactly when the index is not 0. */
  lemma {:induction false} DecimalDigits(n: nat)
    ensures AllDigits(DecimalString(n), 10)
    ensures NonZero(DecimalString(n)) <==> n > 0
  {
    var digit := [(48 + n % 10) as char];
    if n >= 10 {
      DecimalDigits(n / 10);
      var r := DecimalString(n);
      assert r == DecimalString(n / 10) + digit;
      assert NonZero(DecimalString(n / 10));
      var i :| 0 <= i < |DecimalString(n / 10)| && DecimalString(n / 10)[i] != '0' && DecimalString(n / 10)[i] != '.';
      assert r[i] == DecimalString(n / 10)[i];
    }
  }

  /** A natural number written in decimal converts to a positive number exactly when it is not 0. */
  lemma DecimalPositive(n: nat)
    ensures NumberPositive(DecimalString(n)) <==> n > 0
  {
    var t := DecimalString(n);
    DecimalDigits(n);
    assert IndexOf(t, 'e') == |t| && IndexOf(t, 'E') == |t| && IndexOf(t, '.') == |t| by {
      assert forall i :: 0 <= i < |t| ==> t[i] != 'e' && t[i] != 'E' && t[i] != '.';
    }
    assert t[..|t|] == t;
    assert t != "Infinity" by { assert IsDigit(t[0], 10); }
    if |t| > 1 { assert IsDigit(t[1], 10); }
  }
}
