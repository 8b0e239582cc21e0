/** The string operations the tracker relies on: `toLowerCase`, `trim`,
    `includes`, `toString().padStart(2, "0")` and the ordering used to sort
    "HH:MM" strings. */
module Text {

  // ---------------------------------------------------------------- case

  function ToLowerChar(c: char): char
  {
    if 'A' <= c <= 'Z' then (c as int + 32) as char else c
  }

  /** `toLowerCase` on the ASCII letters. */
  function ToLower(s: string): (r: string)
    ensures |r| == |s|
  {
    if s == [] then [] else [ToLowerChar(s[0])] + ToLower(s[1..])
  }

  /** Lower-casing maps each character on its own and leaves no upper-case
      ASCII letter. */
  lemma {:induction false} ToLowerSpec(s: string)
    ensures forall i :: 0 <= i < |s| ==> ToLower(s)[i] == ToLowerChar(s[i])
    ensures forall i :: 0 <= i < |s| ==> !('A' <= ToLower(s)[i] <= 'Z')
  {
    if s != [] {
      ToLowerSpec(s[1..]);
      assert ToLower(s) == [ToLowerChar(s[0])] + ToLower(s[1..]);
    }
  }

  lemma {:induction false} ToLowerIdempotent(s: string)
    ensures ToLower(ToLower(s)) == ToLower(s)
  {
    ToLowerSpec(s);
    ToLowerSpec(ToLower(s));
  }

  // ---------------------------------------------------------------- trim

  /** The characters `String.prototype.trim` removes: the ECMAScript white
      space (tab, vertical tab, form feed, no-break space, byte-order mark
      and the space separators of Unicode category Zs) and the line
      terminators. */
  const Whitespace: set<char> := {
    '\t', '\U{B}', '\U{C}', ' ', '\U{A0}', '\U{FEFF}',
    '\U{1680}', '\U{2000}', '\U{2001}', '\U{2002}', '\U{2003}', '\U{2004}', '\U{2005}',
    '\U{2006}', '\U{2007}', '\U{2008}', '\U{2009}', '\U{200A}', '\U{202F}', '\U{205F}', '\U{3000}',
    '\n', '\r', '\U{2028}', '\U{2029}'
  }

  predicate IsWhitespace(c: char)
  {
    c in Whitespace
  }

  predicate IsBlank(s: string)
  {
    forall i :: 0 <= i < |s| ==> IsWhitespace(s[i])
  }

  function TrimStart(s: string): (r: string)
    ensures |r| <= |s| && r == s[|s| - |r|..]
    ensures r != [] ==> !IsWhitespace(r[0])
    ensures r == [] <==> IsBlank(s)
  {
    if s != [] && IsWhitespace(s[0]) then
      var r := TrimStart(s[1..]);
      DropFirst(s, |r|);
      r
    else
      assert s != [] ==> !IsBlank(s);
      s
  }

  /** Past a leading white-space character, `s` is blank exactly when its
      tail is, and the tail's suffixes are the suffixes of `s`. */
  lemma {:induction false} DropFirst(s: string, k: nat)
    requires s != [] && IsWhitespace(s[0]) && k < |s|
    ensures IsBlank(s) <==> IsBlank(s[1..])
    ensures s[1..][|s| - 1 - k..] == s[|s| - k..]
  {
    if IsBlank(s[1..]) {
      forall i | 1 <= i < |s| ensures IsWhitespace(s[i]) {
        assert s[i] == s[1..][i - 1];
      }
    }
  }

  function TrimEnd(s: string): (r: string)
    ensures |r| <= |s| && r == s[..|r|]
    ensures r != [] ==> !IsWhitespace(r[|r| - 1])
    ensures r == [] <==> IsBlank(s)
  {
    if s != [] && IsWhitespace(s[|s| - 1]) then
      var r := TrimEnd(s[..|s| - 1]);
      DropLast(s, |r|);
      r
    else
      assert s != [] ==> !IsBlank(s);
      s
  }

  /** Before a trailing white-space character, `s` is blank exactly when
      the rest is, and the rest's prefixes are the prefixes of `s`. */
  lemma {:induction false} DropLast(s: string, k: nat)
    requires s != [] && IsWhitespace(s[|s| - 1]) && k < |s|
    ensures IsBlank(s) <==> IsBlank(s[..|s| - 1])
    ensures s[..|s| - 1][..k] == s[..k]
  {
    if IsBlank(s[..|s| - 1]) {
      forall i | 0 <= i < |s| - 1 ensures IsWhitespace(s[i]) {
        assert s[i] == s[..|s| - 1][i];
      }
    }
  }

  /** Every character of `s` at a position in [lo, hi) is white space. */
  predicate WhitespaceBetween(s: string, lo: int, hi: int)
  {
    forall i :: lo <= i < hi && 0 <= i < |s| ==> IsWhitespace(s[i])
  }

  /** `TrimStart` drops only white space. */
  lemma {:induction false} TrimStartDropsBlank(s: string)
    ensures WhitespaceBetween(s, 0, |s| - |TrimStart(s)|)
  {
    if s != [] && IsWhitespace(s[0]) {
      var rest := s[1..];
      TrimStartDropsBlank(rest);
      forall i | 1 <= i < |s| - |TrimStart(s)| ensures IsWhitespace(s[i]) {
        assert s[i] == rest[i - 1];
      }
    }
  }

  /** `TrimEnd` drops only white space. */
  lemma {:induction false} TrimEndDropsBlank(s: string)
    ensures WhitespaceBetween(s, |TrimEnd(s)|, |s|)
  {
    if s != [] && IsWhitespace(s[|s| - 1]) {
      var init := s[..|s| - 1];
      TrimEndDropsBlank(init);
      forall i | |TrimEnd(s)| <= i < |s| - 1 ensures IsWhitespace(s[i]) {
        assert s[i] == init[i];
      }
    }
  }

  /** White space at the end of a suffix `t` of `s` is white space at the
      same place in `s`. */
  lemma {:induction false} SuffixWhitespace(s: string, t: string, lo: int)
    requires |t| <= |s| && t == s[|s| - |t|..] && 0 <= lo
    requires WhitespaceBetween(t, lo, |t|)
    ensures WhitespaceBetween(s, |s| - |t| + lo, |s|)
  {
    var a := |s| - |t|;
    forall i | a + lo <= i < |s| && 0 <= i ensures IsWhitespace(s[i]) {
      assert s[i] == t[i - a];
    }
  }

  /** `s.trim()`: the slice of `s` left after dropping white space at both
      ends; it is empty exactly when `s` is blank. */
  function Trim(s: string): (r: string)
    ensures r != [] ==> !IsWhitespace(r[0]) && !IsWhitespace(r[|r| - 1])
    ensures exists k :: OccursAt(s, r, k)
    ensures r == [] <==> IsBlank(s)
  {
    var t := TrimStart(s);
    var r := TrimEnd(t);
    SuffixThenPrefix(s, t, r);
    assert t != [] ==> !IsBlank(t);
    r
  }

  /** A prefix `r` of a suffix `t` of `s` sits in `s` where `t` starts. */
  lemma {:induction false} SuffixThenPrefix(s: string, t: string, r: string)
    requires |t| <= |s| && t == s[|s| - |t|..]
    requires |r| <= |t| && r == t[..|r|]
    ensures OccursAt(s, r, |s| - |t|)
  {
    var a := |s| - |t|;
    assert r == s[a..][..|r|] == s[a..a + |r|];
  }

  /** Trimming cuts white space from the two ends and nothing else: every
      character before and after the trimmed string in `s` is white space. */
  lemma {:induction false} TrimCutsOnlyWhitespace(s: string)
    ensures exists a :: OccursAt(s, Trim(s), a) && WhitespaceBetween(s, 0, a)
                        && WhitespaceBetween(s, a + |Trim(s)|, |s|)
  {
    var t := TrimStart(s);
    var r := TrimEnd(t);
    var a := |s| - |t|;
    assert Trim(s) == r;
    TrimStartDropsBlank(s);
    TrimEndDropsBlank(t);
    SuffixWhitespace(s, t, |r|);
    SuffixThenPrefix(s, t, r);
  }

  // ---------------------------------------------------------------- search

  /** `k` occurs in `s` starting at position `i`. */
  predicate OccursAt(s: string, k: string, i: int)
  {
    0 <= i <= |s| - |k| && s[i..i + |k|] == k
  }

  /** `s.includes(k)`. */
  predicate Contains(s: string, k: string)
  {
    exists i | 0 <= i <= |s| - |k| :: OccursAt(s, k, i)
  }

  // ---------------------------------------------------------------- numbers

  function Digit(d: nat): char
    requires d < 10
  {
    "0123456789"[d]
  }

  /** The decimal value of a character, if it is a digit. */
  function DigitValue(c: char): (r: int)
    ensures -1 <= r < 10
    ensures r >= 0 ==> Digit(r) == c
  {
    if '0' <= c <= '9' then c as int - '0' as int else -1
  }

  /** Reading back a written digit gives the digit. */
  lemma {:induction false} DigitRoundTrip(d: nat)
    requires d < 10
    ensures DigitValue(Digit(d)) == d
  {
    assert "0123456789"[d] as int == '0' as int + d;
  }

  /** `n.toString()` for a non-negative integer. */
  function DecimalString(n: nat): (r: string)
    ensures 1 <= |r|
    ensures forall i :: 0 <= i < |r| ==> '0' <= r[i] <= '9'
    ensures n < 10 ==> r == [Digit(n)]
    ensures 10 <= n < 100 ==> r == [Digit(n / 10), Digit(n % 10)]
  {
    if n < 10 then [Digit(n)] else DecimalString(n / 10) + [Digit(n % 10)]
  }

  /** `s.padStart(width, fill)`. */
  function PadStart(s: string, width: nat, fill: char): (r: string)
    ensures |r| == if |s| >= width then |s| else width
    ensures r[|r| - |s|..] == s
    ensures forall i :: 0 <= i < |r| - |s| ==> r[i] == fill
  {
    if |s| >= width then s else seq(width - |s|, _ => fill) + s
  }

  /** `n.toString().padStart(2, "0")`, written digit by digit: below 100,
      the tens and then the units; from 100 on, all the digits. */
  function TwoDigits(n: nat): (r: string)
    ensures |r| >= 2
    ensures n < 100 ==> |r| == 2
  {
    if n < 100 then [Digit(n / 10), Digit(n % 10)] else DecimalString(n)
  }

  /** The digit-by-digit definition is the padded decimal string. */
  lemma {:induction false} TwoDigitsIsPadded(n: nat)
    ensures TwoDigits(n) == PadStart(DecimalString(n), 2, '0')
  {
    if n < 10 {
      assert n / 10 == 0 && n % 10 == n;
      assert PadStart(DecimalString(n), 2, '0') == ['0'] + [Digit(n)];
    } else if n >= 100 {
      assert |DecimalString(n)| >= 2;
    }
  }

  /** Below 100, the two digits read back as `n`. */
  lemma {:induction false} TwoDigitsRoundTrip(n: nat)
    requires n < 100
    ensures var r := TwoDigits(n);
            DigitValue(r[0]) >= 0 && DigitValue(r[1]) >= 0
            && 10 * DigitValue(r[0]) + DigitValue(r[1]) == n
  {
    var tens, units := n / 10, n % 10;
    assert tens < 10 && 10 * tens + units == n;
    DigitRoundTrip(tens);
    DigitRoundTrip(units);
  }

  // ---------------------------------------------------------------- order

  /** Code-point lexicographic order on strings. */
  predicate LexLeq(a: string, b: string)
  {
    if a == [] then true
    else if b == [] then false
    else if a[0] != b[0] then a[0] < b[0]
    else LexLeq(a[1..], b[1..])
  }

  lemma {:induction false} LexTotal(a: string, b: string)
    ensures LexLeq(a, b) || LexLeq(b, a)
  {
    if a != [] && b != [] && a[0] == b[0] {
      LexTotal(a[1..], b[1..]);
    }
  }

  lemma {:induction false} LexTransitive(a: string, b: string, c: string)
    requires LexLeq(a, b) && LexLeq(b, c)
    ensures LexLeq(a, c)
  {
    if a != [] && b != [] && c != [] && a[0] == b[0] && b[0] == c[0] {
      LexTransitive(a[1..], b[1..], c[1..]);
    }
  }
}
