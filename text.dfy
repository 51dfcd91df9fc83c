/** Character classes, case folding and the small scanners that the regular
    expressions of the dosing engine are built from. Strings are sequences of
    characters; only ASCII letters are case-folded and only ASCII digits are
    digits. */
module Text {
  import opened Wrappers

  predicate IsDigit(c: char) { '0' <= c <= '9' }

  /** The ASCII characters Python's `\s` matches in a text pattern: the six
      of `[ \t\n\r\f\v]` and the four separators 0x1C to 0x1F. */
  predicate IsSpace(c: char)
  {
    || c == ' ' || c == '\t' || c == '\n' || c == '\r' || c == '\U{000B}' || c == '\U{000C}'
    || '\U{001C}' <= c <= '\U{001F}'
  }

  predicate IsUpper(c: char) { 'A' <= c <= 'Z' }

  predicate NoDigit(s: string) { forall i :: 0 <= i < |s| ==> !IsDigit(s[i]) }

  predicate AllDigits(s: string) { forall i :: 0 <= i < |s| ==> IsDigit(s[i]) }

  function DigitOf(c: char): (d: nat)
    requires IsDigit(c)
    ensures d <= 9
  {
    (c as int - '0' as int) as nat
  }

  function LowerChar(c: char): (r: char)
    ensures !IsUpper(r)
    ensures !IsUpper(c) ==> r == c
  {
    if IsUpper(c) then (c as int + 32) as char else c
  }

  /** `str.lower()` restricted to ASCII letters. */
  function Lower(s: string): (r: string)
    ensures |r| == |s|
    ensures forall i :: 0 <= i < |s| ==> r[i] == LowerChar(s[i])
    ensures forall i :: 0 <= i < |r| ==> !IsUpper(r[i])
  {
    seq(|s|, i requires 0 <= i < |s| => LowerChar(s[i]))
  }

  /** Python's `pat in s`. */
  predicate Contains(s: string, pat: string)
    decreases |s|
  {
    pat <= s || (s != [] && Contains(s[1..], pat))
  }

  lemma {:induction false} ContainsAt(s: string, pat: string, k: nat)
    requires k + |pat| <= |s| && s[k..k + |pat|] == pat
    ensures Contains(s, pat)
    decreases k
  {
    if k > 0 {
      assert s[1..][k - 1..k - 1 + |pat|] == s[k..k + |pat|];
      ContainsAt(s[1..], pat, k - 1);
    }
  }

  predicate IsSuffix(r: string, s: string)
  {
    |r| <= |s| && r == s[|s| - |r|..]
  }

  /** Length of the leading run of digits (a greedy `\d*`). */
  function DigitPrefix(s: string): (n: nat)
    ensures n <= |s|
    ensures AllDigits(s[..n])
    ensures n < |s| ==> !IsDigit(s[n])
  {
    if s != [] && IsDigit(s[0]) then
      var n := 1 + DigitPrefix(s[1..]);
      assert s[..n] == [s[0]] + s[1..][..n - 1];
      n
    else 0
  }

  /** Length of the decimal token `\d+\.?\d*` that starts `s`; the regular
      expression needs no backtracking because what follows the token is
      never a digit. */
  function DecimalLength(s: string): (n: nat)
    requires s != [] && IsDigit(s[0])
    ensures 0 < n <= |s|
  {
    var a := DigitPrefix(s);
    if a < |s| && s[a] == '.' then a + 1 + DigitPrefix(s[a + 1..]) else a
  }

  /** The integer a string of decimal digits spells (Python's `int`). */
  function DigitsValue(d: string): (v: nat)
    requires AllDigits(d)
  {
    if d == [] then 0 else 10 * DigitsValue(d[..|d| - 1]) + DigitOf(d[|d| - 1])
  }

  /** The value of the digits after a decimal point. */
  function FractionValue(d: string): (v: real)
    requires AllDigits(d)
    ensures 0.0 <= v < 1.0
  {
    if d == [] then 0.0 else (DigitOf(d[0]) as real + FractionValue(d[1..])) / 10.0
  }

  /** A string Python's `float` accepts among those built of digits and
      points: at most one point and at least one digit. */
  predicate IsFloatLiteral(run: string)
  {
    var a := DigitPrefix(run);
    || (a == |run| && a > 0)
    || (a < |run| && run[a] == '.' && AllDigits(run[a + 1..]) && (a > 0 || a + 1 < |run|))
  }

  /** Python's `float` on a literal of the shape above. */
  function FloatValue(run: string): (v: real)
    requires IsFloatLiteral(run)
    ensures v >= 0.0
  {
    var a := DigitPrefix(run);
    DigitsValue(run[..a]) as real + (if a < |run| then FractionValue(run[a + 1..]) else 0.0)
  }

  /** `[float(n) for n in re.findall(r"\d+\.?\d*", s)]`. */
  function Numbers(s: string): (r: seq<real>)
    ensures forall i :: 0 <= i < |r| ==> r[i] >= 0.0
    decreases |s|
  {
    if s == [] then []
    else if !IsDigit(s[0]) then Numbers(s[1..])
    else
      var n := DecimalLength(s);
      assert IsFloatLiteral(s[..n]) by { DecimalTokenIsFloat(s); }
      [FloatValue(s[..n])] + Numbers(s[n..])
  }

  lemma DecimalTokenIsFloat(s: string)
    requires s != [] && IsDigit(s[0])
    ensures IsFloatLiteral(s[..DecimalLength(s)])
  {
    var a := DigitPrefix(s);
    var t := s[..DecimalLength(s)];
    assert t[..a] == s[..a];
    if a < |s| && s[a] == '.' {
      var b := DigitPrefix(s[a + 1..]);
      assert t[a + 1..] == s[a + 1..][..b];
    }
  }

  /** `[int(n) for n in re.findall(r"\d+", s)]`. */
  function DigitRuns(s: string): (r: seq<nat>)
    ensures r == [] <==> NoDigit(s)
    decreases |s|
  {
    if s == [] then []
    else if !IsDigit(s[0]) then DigitRuns(s[1..])
    else
      var n := DigitPrefix(s);
      [DigitsValue(s[..n])] + DigitRuns(s[n..])
  }

  /** Python's `s.split(sep)` for a one-character separator. */
  function Split(s: string, sep: char): (parts: seq<string>)
    ensures |parts| >= 1
    ensures forall i :: 0 <= i < |parts| ==> sep !in parts[i]
    decreases |s|
  {
    if s == [] then [[]]
    else
      var rest := Split(s[1..], sep);
      if s[0] == sep then [[]] + rest else [[s[0]] + rest[0]] + rest[1..]
  }

  /** Python's `sep.join(parts)`. */
  function Join(parts: seq<string>, sep: char): string
    requires |parts| >= 1
  {
    if |parts| == 1 then parts[0] else parts[0] + [sep] + Join(parts[1..], sep)
  }

  /** Text without digits contributes no number. */
  lemma {:induction false} NumbersSkipGap(s: string, k: nat)
    requires k <= |s| && NoDigit(s[..k])
    ensures Numbers(s) == Numbers(s[k..])
    decreases k
  {
    if k > 0 {
      assert !IsDigit(s[..k][0]);
      assert s[1..][..k - 1] == s[1..k];
      assert s[1..][k - 1..] == s[k..];
      NumbersSkipGap(s[1..], k - 1);
    }
  }

  /** Every character of a contained pattern occurs in the text. */
  lemma {:induction false} ContainsHasChars(s: string, pat: string, i: nat)
    requires Contains(s, pat) && i < |pat|
    ensures pat[i] in s
    decreases |s|
  {
    if pat <= s {
      assert s[i] == pat[i];
    } else {
      ContainsHasChars(s[1..], pat, i);
      assert pat[i] in s[1..];
    }
  }

  /** A text that starts with a digit contributes the value of its leading
      token, then the numbers of the rest. */
  lemma NumbersAtToken(s: string)
    requires s != [] && IsDigit(s[0])
    ensures IsFloatLiteral(s[..DecimalLength(s)])
    ensures Numbers(s) == [FloatValue(s[..DecimalLength(s)])] + Numbers(s[DecimalLength(s)..])
  {
    DecimalTokenIsFloat(s);
  }

  /** Length of the leading run of characters satisfying `p` (a greedy `[...]*`). */
  function RunLength(s: string, p: char -> bool): (n: nat)
    ensures n <= |s|
    ensures forall i :: 0 <= i < n ==> p(s[i])
    ensures n < |s| ==> !p(s[n])
  {
    if s != [] && p(s[0]) then 1 + RunLength(s[1..], p) else 0
  }

  /** The suffix left after a greedy `\s*`. */
  function SkipSpaces(s: string): (r: string)
    ensures IsSuffix(r, s)
  {
    s[RunLength(s, IsSpace)..]
  }

  lemma {:induction false} NumbersEmptyIffNoDigit(s: string)
    ensures Numbers(s) == [] <==> NoDigit(s)
    decreases |s|
  {
    if s != [] && !IsDigit(s[0]) {
      NumbersEmptyIffNoDigit(s[1..]);
      assert NoDigit(s[1..]) ==> NoDigit(s) by {
        if NoDigit(s[1..]) {
          forall i | 0 <= i < |s| ensures !IsDigit(s[i]) {
            if i > 0 { assert s[i] == s[1..][i - 1]; }
          }
        }
      }
    }
  }

  lemma LowerKeepsLowerCase(s: string)
    requires forall i :: 0 <= i < |s| ==> !IsUpper(s[i])
    ensures Lower(s) == s
  {
  }

  /** Splitting and joining again gives back the text. */
  lemma {:induction false} JoinSplit(s: string, sep: char)
    ensures Join(Split(s, sep), sep) == s
    decreases |s|
  {
    if s != [] {
      JoinSplit(s[1..], sep);
      var rest := Split(s[1..], sep);
      if s[0] != sep {
        if |rest| == 1 {
          assert Split(s, sep) == [[s[0]] + rest[0]];
        } else {
          assert Split(s, sep)[1..] == rest[1..];
          assert Join(rest, sep) == rest[0] + [sep] + Join(rest[1..], sep);
        }
      }
    }
  }

  /** Where the first separator stands, the split cuts off the first part. */
  lemma {:induction false} SplitAtFirst(s: string, sep: char, k: nat)
    requires k < |s| && s[k] == sep && sep !in s[..k]
    ensures Split(s, sep) == [s[..k]] + Split(s[k + 1..], sep)
    decreases k
  {
    if k > 0 {
      assert s[1..][..k - 1] == s[1..k];
      assert s[1..][k..] == s[k + 1..];
      SplitAtFirst(s[1..], sep, k - 1);
      assert [s[0]] + s[1..k] == s[..k];
    }
  }

  /** A text without the separator is one part. */
  lemma {:induction false} SplitWithoutSeparator(s: string, sep: char)
    requires sep !in s
    ensures Split(s, sep) == [s]
    decreases |s|
  {
    if s != [] {
      assert sep !in s[1..] by {
        forall i | 0 <= i < |s[1..]| ensures s[1..][i] != sep { assert s[1..][i] == s[i + 1]; }
      }
      SplitWithoutSeparator(s[1..], sep);
      assert [s[0]] + s[1..] == s;
    }
  }

  lemma {:induction false} DigitPrefixAt(s: string, n: nat)
    requires n <= |s| && AllDigits(s[..n]) && (n == |s| || !IsDigit(s[n]))
    ensures DigitPrefix(s) == n
    decreases n
  {
    if n > 0 {
      assert IsDigit(s[..n][0]);
      assert s[1..][..n - 1] == s[1..n];
      DigitPrefixAt(s[1..], n - 1);
    }
  }

  /** After a digit-free gap, an integer token not followed by a point
      contributes its value. */
  lemma NumbersIntegerToken(s: string, g: nat, n: nat)
    requires g < g + n <= |s| && NoDigit(s[..g]) && AllDigits(s[g..g + n])
    requires g + n == |s| || (!IsDigit(s[g + n]) && s[g + n] != '.')
    ensures Numbers(s) == [DigitsValue(s[g..g + n]) as real] + Numbers(s[g + n..])
  {
    NumbersSkipGap(s, g);
    var u := s[g..];
    assert u[..n] == s[g..g + n];
    DigitPrefixAt(u, n);
    NumbersAtToken(u);
    DigitPrefixAt(u[..n], n);
    assert u[..n][..n] == u[..n];
    assert u[n..] == s[g + n..];
  }

  lemma TwoDigits(d: string)
    requires |d| == 2 && AllDigits(d)
    ensures DigitsValue(d) == 10 * DigitOf(d[0]) + DigitOf(d[1])
  {
    var first := d[..|d| - 1];
    assert first == [d[0]];
    assert first[..|first| - 1] == [];
    assert DigitsValue(first) == DigitOf(d[0]);
  }

  /** A digit-free gap, an integer token, and a rest that cannot extend the
      token. */
  lemma NumbersOfPieces(g: string, t: string, r: string)
    requires NoDigit(g) && t != [] && AllDigits(t)
    requires r == [] || (!IsDigit(r[0]) && r[0] != '.')
    ensures Numbers(g + t + r) == [DigitsValue(t) as real] + Numbers(r)
  {
    var s := g + t + r;
    assert s[..|g|] == g && s[|g|..|g| + |t|] == t && s[|g| + |t|..] == r;
    NumbersIntegerToken(s, |g|, |t|);
  }
}
