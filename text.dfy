/** String helpers shared by the modelled Python and PHP code.
    Strings are sequences of characters; case mapping covers ASCII only. */
module Text {

  predicate IsDigit(c: char) { '0' <= c <= '9' }

  predicate AllDigits(s: string) { forall i :: 0 <= i < |s| ==> IsDigit(s[i]) }

  /** Python's `s.replace(c, r)` for a one-character pattern `c`. */
  function ReplaceChar(s: string, c: char, r: string): (t: string)
    ensures c !in s ==> t == s
  {
    if s == [] then [] else (if s[0] == c then r else [s[0]]) + ReplaceChar(s[1..], c, r)
  }

  /** After the replacement `c` is gone (unless `r` holds it), and nothing
      but characters of `s` and `r` is left. */
  lemma {:induction false} ReplaceCharChars(s: string, c: char, r: string)
    ensures c !in r ==> c !in ReplaceChar(s, c, r)
    ensures forall x :: x in ReplaceChar(s, c, r) ==> x in s || x in r
    ensures |r| == 1 ==> |ReplaceChar(s, c, r)| == |s|
    decreases |s|
  {
    if s != [] {
      ReplaceCharChars(s[1..], c, r);
    }
  }

  lemma {:induction false} ReplaceCharConcat(a: string, b: string, c: char, r: string)
    ensures ReplaceChar(a + b, c, r) == ReplaceChar(a, c, r) + ReplaceChar(b, c, r)
    decreases |a|
  {
    if a == [] {
      assert a + b == b;
    } else {
      assert (a + b)[0] == a[0] && (a + b)[1..] == a[1..] + b;
      ReplaceCharConcat(a[1..], b, c, r);
    }
  }

  /** A single occurrence of `c` is the only thing replaced. */
  lemma ReplaceCharOnce(a: string, b: string, c: char, r: string)
    requires c !in a && c !in b
    ensures ReplaceChar(a + [c] + b, c, r) == a + r + b
  {
    var t := [c] + b;
    assert a + [c] + b == a + t;
    assert ReplaceChar(t, c, r) == r + b by {
      assert t[0] == c && t[1..] == b;
    }
    ReplaceCharConcat(a, t, c, r);
    assert a + (r + b) == a + r + b;
  }

  /** Two occurrences of `c` are the only things replaced. */
  lemma ReplaceCharTwice(a: string, b: string, d: string, c: char, r: string)
    requires c !in a && c !in b && c !in d
    ensures ReplaceChar(a + [c] + b + [c] + d, c, r) == a + r + b + r + d
  {
    var x, y := a + [c] + b, [c] + d;
    assert a + [c] + b + [c] + d == x + y;
    ReplaceCharConcat(x, y, c, r);
    ReplaceCharOnce(a, b, c, r);
    assert ReplaceChar(y, c, r) == r + d by {
      assert y[0] == c && y[1..] == d;
    }
  }

  /** A string of digits holds no other character. */
  lemma DigitsLack(s: string, c: char)
    requires AllDigits(s) && !IsDigit(c)
    ensures c !in s
  {
  }

  /** Length of the run of digits at the start of `s`. */
  function DigitRun(s: string): (n: nat)
    ensures n <= |s|
    ensures forall i :: 0 <= i < n ==> IsDigit(s[i])
    ensures n < |s| ==> !IsDigit(s[n])
  {
    if s != [] && IsDigit(s[0]) then 1 + DigitRun(s[1..]) else 0
  }

  /** No `.` in `t` is directly followed by a digit: the regular expression
      `\.\d+` has no match in `t`. */
  predicate NoFraction(t: string) {
    forall i :: 0 <= i < |t| ==> !FractionAt(t, i)
  }

  /** A `.` at position `i` of `t` directly followed by a digit. */
  predicate FractionAt(t: string, i: int) {
    0 <= i < |t| - 1 && t[i] == '.' && IsDigit(t[i + 1])
  }

  /** A fraction in `[x] + t` after the first position is one of `t`. */
  lemma FractionAtCons(x: char, t: string, i: int)
    requires i >= 1
    ensures FractionAt([x] + t, i) == FractionAt(t, i - 1)
  {
    if 1 <= i < |t| {
      assert ([x] + t)[i] == t[i - 1] && ([x] + t)[i + 1] == t[i];
    }
  }

  /** Python's `re.sub(r'\.\d+', '', s)`: every `.` followed by one or more
      digits is removed together with the whole (greedy) run of digits. */
  function StripFractions(s: string): (t: string)
    ensures (s == [] || !IsDigit(s[0])) ==> (t == [] || !IsDigit(t[0]))
    ensures NoFraction(t)
    decreases |s|
  {
    if s == [] then []
    else if |s| >= 2 && s[0] == '.' && IsDigit(s[1]) then StripFractions(s[1 + DigitRun(s[1..])..])
    else
      var t' := StripFractions(s[1..]);
      assert forall i :: i >= 1 ==> FractionAt([s[0]] + t', i) == FractionAt(t', i - 1) by {
        forall i | i >= 1 ensures FractionAt([s[0]] + t', i) == FractionAt(t', i - 1) {
          FractionAtCons(s[0], t', i);
        }
      }
      [s[0]] + t'
  }

  /** Stripping only removes characters. */
  lemma {:induction false} StripFractionsChars(s: string)
    ensures |StripFractions(s)| <= |s|
    ensures forall x :: x in StripFractions(s) ==> x in s
    decreases |s|
  {
    if s == [] {
    } else if |s| >= 2 && s[0] == '.' && IsDigit(s[1]) {
      StripFractionsChars(s[1 + DigitRun(s[1..])..]);
    } else {
      StripFractionsChars(s[1..]);
    }
  }

  lemma {:induction false} DigitRunAll(s: string)
    requires AllDigits(s)
    ensures DigitRun(s) == |s|
    decreases |s|
  {
    if s != [] {
      DigitRunAll(s[1..]);
    }
  }

  /** A `.` followed by digits only disappears completely. */
  lemma StripFractionsFraction(frac: string)
    requires frac != [] && AllDigits(frac)
    ensures StripFractions("." + frac) == []
  {
    DigitRunAll(frac);
    assert ("." + frac)[1..] == frac;
  }

  lemma NoFractionTail(s: string)
    requires s != [] && NoFraction(s)
    ensures NoFraction(s[1..])
  {
    assert s == [s[0]] + s[1..];
    forall i | 0 <= i < |s[1..]| ensures !FractionAt(s[1..], i) {
      FractionAtCons(s[0], s[1..], i + 1);
    }
  }

  /** A string without a `.digits` fragment is left alone; in particular
      stripping twice is the same as stripping once. */
  lemma {:induction false} StripFractionsFixesClean(s: string)
    requires NoFraction(s)
    ensures StripFractions(s) == s
    decreases |s|
  {
    if s != [] {
      assert !FractionAt(s, 0);
      NoFractionTail(s);
      StripFractionsFixesClean(s[1..]);
    }
  }

  /** A first character that does not start a fraction is kept. */
  lemma StripFractionsCons(s: string)
    requires s != [] && !(|s| >= 2 && s[0] == '.' && IsDigit(s[1]))
    ensures StripFractions(s) == [s[0]] + StripFractions(s[1..])
  {
  }

  /** A clean part that does not end in `.` is kept as it is, whatever follows. */
  lemma {:induction false} StripFractionsClean(a: string, b: string)
    requires NoFraction(a) && (a == [] || a[|a| - 1] != '.')
    ensures StripFractions(a + b) == a + StripFractions(b)
    decreases |a|
  {
    if a == [] {
      assert a + b == b;
    } else {
      var s := a + b;
      assert s[0] == a[0] && s[1..] == a[1..] + b;
      if a[0] == '.' {
        assert |a| >= 2 && s[1] == a[1] && !FractionAt(a, 0);
      }
      StripFractionsCons(s);
      NoFractionTail(a);
      assert a[1..] == [] || a[1..][|a[1..]| - 1] == a[|a| - 1];
      StripFractionsClean(a[1..], b);
      assert [a[0]] + (a[1..] + StripFractions(b)) == a + StripFractions(b);
    }
  }

  lemma StripFractionsIdempotent(s: string)
    ensures StripFractions(StripFractions(s)) == StripFractions(s)
  {
    StripFractionsFixesClean(StripFractions(s));
  }

  /** `p` is a prefix of `s`. */
  predicate StartsWith(s: string, p: string) { |p| <= |s| && s[..|p|] == p }

  /** `p` occurs in `s` starting at position `i`. */
  predicate OccursAt(s: string, p: string, i: int) {
    0 <= i && i + |p| <= |s| && s[i..i + |p|] == p
  }

  /** `p` occurs somewhere in `s` (Python's `s.find(p) > -1`). */
  predicate HasInfix(s: string, p: string) {
    exists i :: 0 <= i <= |s| && OccursAt(s, p, i)
  }

  /** `p` cannot occur where one of its characters does not. */
  lemma NoInfixWithout(s: string, p: string, k: nat)
    requires k < |p| && p[k] !in s
    ensures !HasInfix(s, p)
  {
  }

  /** An occurrence of `p` cannot start inside a prefix that lacks `p`'s
      first character. */
  lemma InfixAfter(a: string, b: string, p: string)
    requires p != [] && p[0] !in a
    ensures HasInfix(a + b, p) <==> HasInfix(b, p)
  {
    var s := a + b;
    forall i | 0 <= i <= |s| && OccursAt(s, p, i) ensures OccursAt(b, p, i - |a|) {
      assert b[i - |a|..i - |a| + |p|] == s[i..i + |p|];
    }
    forall j | 0 <= j <= |b| && OccursAt(b, p, j) ensures OccursAt(s, p, j + |a|) {
      assert s[j + |a|..j + |a| + |p|] == b[j..j + |p|];
    }
  }

  /** The part of `s` before the first occurrence of `pat`, or all of `s`
      when `pat` does not occur: the first element of PHP's
      `explode(pat, s)` and of Python's `s.split(pat)`. */
  function Before(s: string, pat: string): (r: string)
    requires pat != []
    ensures r <= s
    ensures r == s || StartsWith(s[|r|..], pat)
    ensures forall i :: 0 <= i < |r| ==> !StartsWith(s[i..], pat)
    decreases |s|
  {
    if s == [] || StartsWith(s, pat) then []
    else
      var r' := Before(s[1..], pat);
      assert forall i :: 1 <= i <= |s| ==> s[1..][i - 1..] == s[i..];
      [s[0]] + r'
  }

  /** `Before` cuts exactly when `pat` occurs, and what it keeps holds no `pat`. */
  lemma BeforeFound(s: string, pat: string)
    requires pat != []
    ensures !HasInfix(Before(s, pat), pat)
    ensures HasInfix(s, pat) <==> Before(s, pat) != s
  {
    var r := Before(s, pat);
    forall i | 0 <= i && i + |pat| <= |r| ensures !OccursAt(r, pat, i) {
      assert s[i..][..|pat|] == r[i..i + |pat|];
    }
    if HasInfix(s, pat) {
      var i :| 0 <= i <= |s| && OccursAt(s, pat, i);
      assert s[i..][..|pat|] == s[i..i + |pat|];
      assert StartsWith(s[i..], pat) && i < |s|;
    }
    if r != s {
      assert s[|r|..][..|pat|] == s[|r|..|r| + |pat|];
      assert OccursAt(s, pat, |r|);
    }
  }

  /** With a one-character separator, `Before` stops at the first `c`. */
  lemma BeforeChar(a: string, c: char, b: string)
    requires c !in a
    ensures Before(a + [c] + b, [c]) == a
  {
    var s := a + [c] + b;
    var r := Before(s, [c]);
    assert s[|a|..][..1] == [c];
    assert r == s[..|r|];
  }

  /** With a one-character separator, what `Before` keeps holds no `c`,
      and it stops at a `c` when there is one. */
  lemma BeforeCharSpec(s: string, c: char)
    ensures c !in Before(s, [c])
    ensures c in s ==> |Before(s, [c])| < |s| && s[|Before(s, [c])|] == c
  {
    var r := Before(s, [c]);
    forall i | 0 <= i < |r| ensures r[i] != c {
      assert s[i..][..1] == [s[i]];
    }
    if c in s {
      var i :| 0 <= i < |s| && s[i] == c;
      assert s[i..][..1] == [c];
      assert r != s;
      assert s[|r|..][..1] == [s[|r|]];
    }
  }

  /** Without the separator, `Before` is the whole string. */
  lemma {:induction false} BeforeNoChar(s: string, c: char)
    requires c !in s
    ensures Before(s, [c]) == s
    decreases |s|
  {
    if s != [] {
      assert s[..1] == [s[0]] && s[0] in s;
      assert forall x :: x in s[1..] ==> x in s;
      BeforeNoChar(s[1..], c);
    }
  }

  /** The part of `s` after the last occurrence of the character `c`, or all
      of `s`: the last element of PHP's `explode(c, s)` and of Python's
      `s.split(c)`. */
  function AfterLast(s: string, c: char): (r: string)
    ensures |r| <= |s|
    decreases |s|
  {
    if s == [] || s[|s| - 1] == c then [] else AfterLast(s[..|s| - 1], c) + [s[|s| - 1]]
  }

  /** `AfterLast` holds no `c`. */
  lemma {:induction false} AfterLastNoSep(s: string, c: char)
    ensures c !in AfterLast(s, c)
    decreases |s|
  {
    if s != [] && s[|s| - 1] != c {
      AfterLastNoSep(s[..|s| - 1], c);
    }
  }

  /** `AfterLast` is a suffix of `s`, and it is all of `s` or preceded by
      a `c`. */
  lemma {:induction false} AfterLastSuffix(s: string, c: char)
    ensures forall i :: 0 <= i < |AfterLast(s, c)| ==> AfterLast(s, c)[i] == s[|s| - |AfterLast(s, c)| + i]
    ensures |AfterLast(s, c)| < |s| ==> s[|s| - |AfterLast(s, c)| - 1] == c
    decreases |s|
  {
    if s != [] && s[|s| - 1] != c {
      AfterLastSuffix(s[..|s| - 1], c);
    }
  }

  /** Python's `s.rstrip(c)` for one character: every trailing `c` goes. */
  function RStrip(s: string, c: char): (r: string)
    ensures r <= s
    ensures r == [] || r[|r| - 1] != c
    ensures forall i :: |r| <= i < |s| ==> s[i] == c
    decreases |s|
  {
    if s != [] && s[|s| - 1] == c then RStrip(s[..|s| - 1], c) else s
  }

  function DigitChar(d: nat): (c: char)
    requires d < 10
    ensures IsDigit(c)
  {
    "0123456789"[d]
  }

  /** Decimal notation of a natural number, as Python's `str` and PHP's
      string conversion write it. */
  function NatToString(n: nat): (s: string)
    ensures s != [] && AllDigits(s)
    ensures n < 10 ==> |s| == 1
    ensures n >= 10 ==> |s| >= 2
  {
    if n < 10 then [DigitChar(n)] else NatToString(n / 10) + [DigitChar(n % 10)]
  }

  /** Decimal notation of an integer, with a leading `-` when negative. */
  function IntToString(i: int): (s: string)
    ensures s != []
    ensures s[0] == '-' <==> i < 0
  {
    if i < 0 then "-" + NatToString(-i) else NatToString(i)
  }

  /** The number a run of decimal digits denotes (leading zeros allowed). */
  function DigitsValue(s: string): (n: nat)
    requires AllDigits(s)
  {
    if s == [] then 0 else DigitsValue(s[..|s| - 1]) * 10 + (s[|s| - 1] as int - '0' as int)
  }

  /** Reading back what `NatToString` writes gives the number again. */
  lemma {:induction false} DigitsValueNatToString(n: nat)
    ensures DigitsValue(NatToString(n)) == n
  {
    var s := NatToString(n);
    if n >= 10 {
      DigitsValueNatToString(n / 10);
      assert s[..|s| - 1] == NatToString(n / 10);
    }
  }

  /** ASCII lower-casing of one character. */
  function LowerChar(c: char): (d: char)
    ensures !('A' <= d <= 'Z')
  {
    if 'A' <= c <= 'Z' then (c as int - 'A' as int + 'a' as int) as char else c
  }

  function Lower(s: string): (t: string)
    ensures |t| == |s|
    ensures forall i :: 0 <= i < |s| ==> t[i] == LowerChar(s[i])
  {
    if s == [] then [] else [LowerChar(s[0])] + Lower(s[1..])
  }

  lemma LowerConcat(a: string, b: string)
    ensures Lower(a + b) == Lower(a) + Lower(b)
  {
  }

  /** Python's ordering of strings: lexicographic by code point. */
  predicate LexLe(a: string, b: string)
    decreases |a|
  {
    a == [] || (b != [] && (a[0] < b[0] || (a[0] == b[0] && LexLe(a[1..], b[1..]))))
  }

  lemma {:induction false} LexLeTotal(a: string, b: string)
    ensures LexLe(a, b) || LexLe(b, a)
    decreases |a|
  {
    if a != [] && b != [] && a[0] == b[0] {
      LexLeTotal(a[1..], b[1..]);
    }
  }

  lemma {:induction false} LexLeTransitive(a: string, b: string, c: string)
    requires LexLe(a, b) && LexLe(b, c)
    ensures LexLe(a, c)
    decreases |a|
  {
    if a != [] && b != [] && c != [] && a[0] == b[0] && b[0] == c[0] {
      LexLeTransitive(a[1..], b[1..], c[1..]);
    }
  }
}
