/**
 * The few JavaScript string operations the application relies on, written
 * out: `includes`, the default (code-unit) string order, `String(n)` for
 * integers, `parseInt` on decimal text and `split(sep)[0]`.
 */
module Strings {

  import opened Types

  predicate IsPrefix(p: string, s: string)
  {
    |p| <= |s| && s[..|p|] == p
  }

  /** `sep` occurs in `s` starting at index `i`. */
  predicate OccursAt(s: string, sep: string, i: int)
  {
    0 <= i && i + |sep| <= |s| && s[i..i + |sep|] == sep
  }

  /** JavaScript's `s.includes(sub)`. */
  predicate Contains(s: string, sub: string)
    decreases |s|
  {
    IsPrefix(sub, s) || (|s| > 0 && Contains(s[1..], sub))
  }

  /** `includes` holds exactly when the text occurs at some index. */
  lemma {:induction false} ContainsIff(s: string, sub: string)
    ensures Contains(s, sub) <==> exists i :: OccursAt(s, sub, i)
    decreases |s|
  {
    if IsPrefix(sub, s) {
      assert OccursAt(s, sub, 0);
    } else if |s| == 0 {
    } else {
      ContainsIff(s[1..], sub);
      if Contains(s[1..], sub) {
        var i :| OccursAt(s[1..], sub, i);
        assert s[i + 1..i + 1 + |sub|] == s[1..][i..i + |sub|];
        assert OccursAt(s, sub, i + 1);
      }
      if i :| OccursAt(s, sub, i) {
        assert i != 0;
        assert s[1..][i - 1..i - 1 + |sub|] == s[i..i + |sub|];
        assert OccursAt(s[1..], sub, i - 1);
      }
    }
  }

  // ---------------------------------------------------------------------------
  // The default order of `Array.prototype.sort` comparators built on strings:
  // lexicographic by character code.

  predicate StrLe(a: string, b: string)
    decreases |a|
  {
    if |a| == 0 then true
    else if |b| == 0 then false
    else if a[0] != b[0] then a[0] < b[0]
    else StrLe(a[1..], b[1..])
  }

  lemma {:induction false} StrLeTotal(a: string, b: string)
    ensures StrLe(a, b) || StrLe(b, a)
    decreases |a|
  {
    if |a| > 0 && |b| > 0 && a[0] == b[0] {
      StrLeTotal(a[1..], b[1..]);
    }
  }

  lemma {:induction false} StrLeTransitive(a: string, b: string, c: string)
    requires StrLe(a, b) && StrLe(b, c)
    ensures StrLe(a, c)
    decreases |a|
  {
    if |a| > 0 && |b| > 0 && |c| > 0 && a[0] == b[0] && b[0] == c[0] {
      StrLeTransitive(a[1..], b[1..], c[1..]);
    }
  }

  lemma {:induction false} StrLeAntisymmetric(a: string, b: string)
    requires StrLe(a, b) && StrLe(b, a)
    ensures a == b
    decreases |a|
  {
    if |a| > 0 && |b| > 0 {
      StrLeAntisymmetric(a[1..], b[1..]);
      assert a == [a[0]] + a[1..] && b == [b[0]] + b[1..];
    }
  }

  // ---------------------------------------------------------------------------
  // Decimal text: `String(n)` for an integer and `parseInt(text)`.

  predicate IsDigit(c: char)
  {
    '0' <= c <= '9'
  }

  predicate AllDigits(s: string)
  {
    forall i :: 0 <= i < |s| ==> IsDigit(s[i])
  }

  function DigitChar(d: nat): (c: char)
    requires d < 10
  {
    ('0' as int + d) as char
  }

  /** `String(n)` for a non-negative integer: its decimal digits, most significant first. */
  function NatToDecimal(n: nat): (s: string)
    ensures |s| > 0 && AllDigits(s)
    decreases n
  {
    if n < 10 then [DigitChar(n)] else NatToDecimal(n / 10) + [DigitChar(n % 10)]
  }

  /** `String(i)` for an integer. */
  function IntToString(i: int): (s: string)
  {
    if i < 0 then "-" + NatToDecimal(-i) else NatToDecimal(i)
  }

  /** The value of a run of decimal digits. */
  function DigitsValue(d: string): nat
    requires AllDigits(d)
    decreases |d|
  {
    if |d| == 0 then 0 else DigitsValue(d[..|d| - 1]) * 10 + (d[|d| - 1] as int - '0' as int)
  }

  /** The length of the longest run of digits at the start of `s`. */
  function DigitPrefixLength(s: string): (n: nat)
    ensures n <= |s| && AllDigits(s[..n])
    ensures n < |s| ==> !IsDigit(s[n])
    decreases |s|
  {
    if |s| > 0 && IsDigit(s[0]) then 1 + DigitPrefixLength(s[1..]) else 0
  }

  /** White space that `parseInt` skips (the forms a text field can hold). */
  predicate IsSpace(c: char)
  {
    c == ' ' || c == '\t' || c == '\n' || c == '\r'
  }

  function TrimStart(s: string): (t: string)
    decreases |s|
  {
    if |s| > 0 && IsSpace(s[0]) then TrimStart(s[1..]) else s
  }

  /**
   * `parseInt(s)` with the default radix on decimal text: skip leading white
   * space, read an optional sign and the longest run of digits after it;
   * `None` stands for NaN (no digit there).
   */
  function ParseInt(s: string): Option<int>
  {
    var t := TrimStart(s);
    var negative := |t| > 0 && t[0] == '-';
    var u := if |t| > 0 && (t[0] == '-' || t[0] == '+') then t[1..] else t;
    var n := DigitPrefixLength(u);
    if n == 0 then None
    else
      var v: int := DigitsValue(u[..n]);
      Some(if negative then -v else v)
  }

  lemma {:induction false} DecimalValue(n: nat)
    ensures DigitsValue(NatToDecimal(n)) == n
    decreases n
  {
    if n >= 10 {
      var d := NatToDecimal(n);
      DecimalValue(n / 10);
      assert d[..|d| - 1] == NatToDecimal(n / 10);
    }
  }

  lemma {:induction false} DigitPrefixOfDigits(s: string)
    requires AllDigits(s)
    ensures DigitPrefixLength(s) == |s|
    decreases |s|
  {
    if |s| > 0 {
      DigitPrefixOfDigits(s[1..]);
    }
  }

  /** `parseInt(String(i)) === i` for every integer: the text form of a number reads back as that number. */
  lemma ParseIntRoundTrip(i: int)
    ensures ParseInt(IntToString(i)) == Some(i)
  {
    var m: nat := if i < 0 then -i else i;
    var d := NatToDecimal(m);
    DecimalValue(m);
    DigitPrefixOfDigits(d);
    assert d[..|d|] == d;
    if i < 0 {
      var s := "-" + d;
      assert TrimStart(s) == s;
      assert s[1..] == d;
    } else {
      assert TrimStart(d) == d;
    }
  }

  /** Different numbers have different text forms. */
  lemma IntToStringInjective(i: int, j: int)
    requires IntToString(i) == IntToString(j)
    ensures i == j
  {
    ParseIntRoundTrip(i);
    ParseIntRoundTrip(j);
  }

  // ---------------------------------------------------------------------------
  // `s.split(sep)[0]`: the text before the first occurrence of `sep`.

  function BeforeFirst(s: string, sep: string): (r: string)
    requires |sep| > 0
    ensures IsPrefix(r, s)
    decreases |s|
  {
    if IsPrefix(sep, s) then ""
    else if |s| == 0 then ""
    else
      var rest := BeforeFirst(s[1..], sep);
      assert s == [s[0]] + s[1..];
      [s[0]] + rest
  }

  /**
   * The piece before the first separator: no separator starts inside it,
   * one starts right after it when there is any, and without one the whole
   * text is the piece.
   */
  lemma {:induction false} BeforeFirstSpec(s: string, sep: string)
    requires |sep| > 0
    ensures forall i :: 0 <= i < |BeforeFirst(s, sep)| ==> !OccursAt(s, sep, i)
    ensures (exists i :: OccursAt(s, sep, i)) ==> OccursAt(s, sep, |BeforeFirst(s, sep)|)
    ensures (forall i :: !OccursAt(s, sep, i)) ==> BeforeFirst(s, sep) == s
    decreases |s|
  {
    if IsPrefix(sep, s) {
      assert OccursAt(s, sep, 0);
    } else if |s| > 0 {
      BeforeFirstSpec(s[1..], sep);
      ShiftOccurrence(s, sep);
      assert !OccursAt(s, sep, 0);
      var r := BeforeFirst(s, sep);
      var rest := BeforeFirst(s[1..], sep);
      assert r == [s[0]] + rest;
      if exists i :: OccursAt(s, sep, i) {
        var i :| OccursAt(s, sep, i);
        assert OccursAt(s[1..], sep, i - 1);
      }
      if forall i :: !OccursAt(s, sep, i) {
        assert forall j :: 0 <= j ==> !OccursAt(s[1..], sep, j);
        assert forall j :: !OccursAt(s[1..], sep, j);
        assert s == [s[0]] + s[1..];
      }
    }
  }

  /** An occurrence at index i > 0 is an occurrence at i - 1 in the tail, and back. */
  lemma ShiftOccurrence(s: string, sep: string)
    requires |s| > 0
    ensures forall i :: 1 <= i ==> (OccursAt(s, sep, i) <==> OccursAt(s[1..], sep, i - 1))
    ensures forall j :: 0 <= j ==> (OccursAt(s[1..], sep, j) <==> OccursAt(s, sep, j + 1))
  {
    forall j | 0 <= j
      ensures OccursAt(s[1..], sep, j) <==> OccursAt(s, sep, j + 1)
    {
      if j + 1 + |sep| <= |s| {
        assert s[1..][j..j + |sep|] == s[j + 1..j + 1 + |sep|];
      }
    }
    forall i | 1 <= i
      ensures OccursAt(s, sep, i) <==> OccursAt(s[1..], sep, i - 1)
    {
      assert i - 1 + 1 == i;
    }
  }

  /** A stem that lacks the separator's first character, followed by the separator, splits back into that stem. */
  lemma BeforeFirstOfSuffixed(stem: string, sep: string)
    requires |sep| > 0
    requires forall i :: 0 <= i < |stem| ==> stem[i] != sep[0]
    ensures BeforeFirst(stem + sep, sep) == stem
  {
    var s := stem + sep;
    var r := BeforeFirst(s, sep);
    BeforeFirstSpec(s, sep);
    assert OccursAt(s, sep, |stem|) by {
      assert s[|stem|..|stem| + |sep|] == sep;
    }
    assert |r| <= |stem|;
    assert OccursAt(s, sep, |r|);
    assert s[|r|] == sep[0] by {
      assert s[|r|..|r| + |sep|][0] == s[|r|];
    }
    assert |r| == |stem|;
    assert s[..|stem|] == stem;
  }
}
