/** The handful of Python 2 string and integer operations the generator
    relies on, written out over `seq<char>`: `str.replace`, `str.find`,
    `lower`, `capitalize`, slicing `s[:-n]`, `int()` and `'%d' % n`. */
module PyStr {

  datatype Option<T> = None | Some(value: T)

  /** `s[j:j+len(pat)] == pat`, with the slice inside `s`. */
  predicate MatchAt(s: string, pat: string, j: int)
  {
    0 <= j && j + |pat| <= |s| && s[j..j + |pat|] == pat
  }

  /** `s.replace(pat, r)` for a non-empty pattern: scan from the left and
      replace every occurrence that does not overlap an earlier one. */
  function ReplaceAll(s: string, pat: string, r: string): string
    requires |pat| > 0
    decreases |s|
  {
    if |s| < |pat| then s
    else if s[..|pat|] == pat then r + ReplaceAll(s[|pat|..], pat, r)
    else [s[0]] + ReplaceAll(s[1..], pat, r)
  }

  /** `s.find(pat, i)`: the first position at or after `i` where `pat` starts, or -1. */
  function FindFrom(s: string, pat: string, i: nat): (r: int)
    decreases |s| - i
    ensures r == -1 || (i <= r && MatchAt(s, pat, r))
    ensures forall j :: i <= j && (r == -1 || j < r) ==> !MatchAt(s, pat, j)
  {
    if i + |pat| > |s| then -1
    else if s[i..i + |pat|] == pat then i
    else FindFrom(s, pat, i + 1)
  }

  /** `s.find(pat)`. */
  function Find(s: string, pat: string): (r: int)
    ensures r == -1 <==> forall j :: !MatchAt(s, pat, j)
    ensures r != -1 ==> MatchAt(s, pat, r) && forall j :: j < r ==> !MatchAt(s, pat, j)
  {
    FindFrom(s, pat, 0)
  }

  /** `s[:-n]` for n > 0: everything but the last n characters, or '' when `s` is shorter. */
  function DropLast(s: string, n: nat): string
  {
    if |s| <= n then [] else s[..|s| - n]
  }

  function LowerChar(c: char): char
  {
    if 'A' <= c <= 'Z' then (c as int + 32) as char else c
  }

  function UpperChar(c: char): char
  {
    if 'a' <= c <= 'z' then (c as int - 32) as char else c
  }

  /** `s.lower()` on ASCII letters. */
  function Lower(s: string): string
  {
    seq(|s|, i requires 0 <= i < |s| => LowerChar(s[i]))
  }

  /** `s.capitalize()`: the first character upper-cased, the rest lower-cased. */
  function Capitalize(s: string): string
  {
    if s == [] then [] else [UpperChar(s[0])] + Lower(s[1..])
  }

  predicate IsDigit(c: char)
  {
    '0' <= c <= '9'
  }

  predicate AllDigits(s: string)
  {
    forall i :: 0 <= i < |s| ==> IsDigit(s[i])
  }

  function DigitChar(d: nat): char
    requires d < 10
  {
    ('0' as int + d) as char
  }

  /** The value of a string of decimal digits. */
  function DigitsValue(s: string): nat
    requires AllDigits(s)
  {
    if s == [] then 0
    else DigitsValue(s[..|s| - 1]) * 10 + (s[|s| - 1] as int - '0' as int)
  }

  /** `'%d' % n` for a natural number. */
  function NatToString(n: nat): (r: string)
    ensures |r| > 0 && AllDigits(r)
  {
    if n < 10 then [DigitChar(n)] else NatToString(n / 10) + [DigitChar(n % 10)]
  }

  /** `'%d' % n` and `'%s' % n` for an integer. */
  function IntToString(n: int): string
  {
    if n < 0 then "-" + NatToString(-n) else NatToString(n)
  }

  /** `int(s)` restricted to an optional sign followed by at least one digit;
      None stands for the ValueError Python raises on anything else. */
  function ParseInt(s: string): Option<int>
  {
    if |s| > 1 && (s[0] == '-' || s[0] == '+') && AllDigits(s[1..]) then
      Some(if s[0] == '-' then -(DigitsValue(s[1..]) as int) else DigitsValue(s[1..]))
    else if |s| > 0 && AllDigits(s) then Some(DigitsValue(s))
    else None
  }

  // ---------------------------------------------------------------------
  // Lemmas about the helpers

  lemma {:induction false} DigitsValueOfNat(n: nat)
    ensures DigitsValue(NatToString(n)) == n
  {
    if n >= 10 {
      var s := NatToString(n / 10);
      DigitsValueOfNat(n / 10);
      assert (s + [DigitChar(n % 10)])[..|s|] == s;
    }
  }

  /** `int('%d' % n) == n`: rendering an integer and parsing it back is the identity. */
  lemma ParseIntOfIntToString(n: int)
    ensures ParseInt(IntToString(n)) == Some(n)
  {
    if n < 0 {
      var d := NatToString(-n);
      var s := "-" + d;
      assert s == IntToString(n);
      assert s[1..] == d;
      DigitsValueOfNat(-n);
      assert ParseInt(s) == Some(-(DigitsValue(d) as int));
    } else {
      var d := NatToString(n);
      DigitsValueOfNat(n);
      assert d[0] != '-' && d[0] != '+' by { assert IsDigit(d[0]); }
      assert ParseInt(d) == Some(DigitsValue(d));
    }
  }

  /** A prefix without the pattern's first character is copied unchanged. */
  lemma {:induction false} ReplaceAllSkip(x: string, s: string, pat: string, r: string)
    requires |pat| > 0 && pat[0] !in x
    ensures ReplaceAll(x + s, pat, r) == x + ReplaceAll(s, pat, r)
    decreases |x|
  {
    if x != [] {
      var t := x + s;
      assert t[0] == x[0];
      if |t| >= |pat| {
        assert t[..|pat|] != pat;
        assert t[1..] == x[1..] + s;
        ReplaceAllSkip(x[1..], s, pat, r);
      } else {
        assert x + s == [x[0]] + (x[1..] + s);
        ReplaceAllSkip(x[1..], s, pat, r);
      }
    } else {
      assert x + s == s;
    }
  }

  /** A string without the pattern's first character is left as it is. */
  lemma ReplaceAllAbsent(s: string, pat: string, r: string)
    requires |pat| > 0 && pat[0] !in s
    ensures ReplaceAll(s, pat, r) == s
  {
    ReplaceAllSkip(s, [], pat, r);
    assert s + [] == s;
  }

  /** When the character at position k of the pattern (its first occurrence
      in the pattern) does not occur in x, the first match in x + pat + y is
      the pattern placed after x. */
  lemma {:induction false} ReplaceAllFirst(x: string, pat: string, y: string, r: string, k: nat)
    requires k < |pat| && pat[k] !in x
    requires forall m :: 0 <= m < k ==> pat[m] != pat[k]
    ensures ReplaceAll(x + pat + y, pat, r) == x + r + ReplaceAll(y, pat, r)
    decreases |x|
  {
    var t := x + pat + y;
    if x == [] {
      assert t == pat + y;
      assert t[..|pat|] == pat;
      assert t[|pat|..] == y;
    } else {
      var u := x[1..] + pat + y;
      assert t[..|pat|] != pat by {
        if k < |x| {
          assert t[k] == x[k];
        } else {
          assert t[k] == pat[k - |x|];
        }
        assert t[..|pat|][k] == t[k] != pat[k];
      }
      assert t[1..] == u;
      assert ReplaceAll(t, pat, r) == [x[0]] + ReplaceAll(u, pat, r);
      ReplaceAllFirst(x[1..], pat, y, r, k);
      var ry := ReplaceAll(y, pat, r);
      ConcatAssoc([x[0]], x[1..] + r, ry);
      ConcatAssoc([x[0]], x[1..], r);
      assert [x[0]] + x[1..] == x;
    }
  }

  /** A scan that finds no match anywhere copies the string. */
  lemma {:induction false} ReplaceAllNoMatch(s: string, pat: string, r: string)
    requires |pat| > 0
    requires forall j :: !MatchAt(s, pat, j)
    ensures ReplaceAll(s, pat, r) == s
    decreases |s|
  {
    if |s| >= |pat| {
      assert !MatchAt(s, pat, 0);
      forall j ensures !MatchAt(s[1..], pat, j) {
        if 0 <= j && j + |pat| <= |s| - 1 {
          assert s[1..][j..j + |pat|] == s[j + 1..j + 1 + |pat|];
          assert !MatchAt(s, pat, j + 1);
        }
      }
      ReplaceAllNoMatch(s[1..], pat, r);
    }
  }

  /** A prefix at which no occurrence of the pattern starts is copied unchanged. */
  lemma {:induction false} ReplaceAllNoMatchPrefix(x: string, z: string, pat: string, r: string)
    requires |pat| > 0
    requires forall j :: 0 <= j < |x| ==> !MatchAt(x + z, pat, j)
    ensures ReplaceAll(x + z, pat, r) == x + ReplaceAll(z, pat, r)
    decreases |x|
  {
    if x == [] {
      assert x + z == z;
    } else {
      var t := x + z;
      assert t[1..] == x[1..] + z;
      forall j | 0 <= j < |x| - 1 ensures !MatchAt(x[1..] + z, pat, j) {
        assert !MatchAt(t, pat, j + 1);
        if j + |pat| <= |x[1..] + z| {
          assert (x[1..] + z)[j..j + |pat|] == t[j + 1..j + 1 + |pat|];
        }
      }
      ReplaceAllNoMatchPrefix(x[1..], z, pat, r);
      if |t| >= |pat| {
        assert !MatchAt(t, pat, 0);
        assert ReplaceAll(t, pat, r) == [x[0]] + ReplaceAll(x[1..] + z, pat, r);
        ConcatAssoc([x[0]], x[1..], ReplaceAll(z, pat, r));
        assert [x[0]] + x[1..] == x;
      }
    }
  }

  /** Replacing with text that lacks a character never introduces that character. */
  lemma {:induction false} ReplaceAllKeepsOut(s: string, pat: string, r: string, c: char)
    requires |pat| > 0 && c !in s && c !in r
    ensures c !in ReplaceAll(s, pat, r)
    decreases |s|
  {
    if |s| >= |pat| {
      if s[..|pat|] == pat {
        ReplaceAllKeepsOut(s[|pat|..], pat, r, c);
      } else {
        ReplaceAllKeepsOut(s[1..], pat, r, c);
      }
    }
  }

  /** `lower` and `capitalize` never produce a character that is not a letter
      unless it was already in the input. */
  lemma CapitalizeKeepsOut(s: string, c: char)
    requires c !in s && !('a' <= c <= 'z') && !('A' <= c <= 'Z')
    ensures c !in Capitalize(s)
  {
    if s != [] {
      var t := Capitalize(s);
      forall i | 0 <= i < |t| ensures t[i] != c {
        if i > 0 {
          assert t[i] == LowerChar(s[i]);
        }
      }
    }
  }

  /** Replacing a single character replaces it at every position and keeps
      every other character where it was. */
  lemma {:induction false} ReplaceCharAt(s: string, c: char, d: char)
    ensures |ReplaceAll(s, [c], [d])| == |s|
    ensures forall i :: 0 <= i < |s| ==> ReplaceAll(s, [c], [d])[i] == if s[i] == c then d else s[i]
    decreases |s|
  {
    if s != [] {
      ReplaceCharAt(s[1..], c, d);
      var rest := ReplaceAll(s[1..], [c], [d]);
      assert s[..1] == [s[0]];
      assert ReplaceAll(s, [c], [d]) == [if s[0] == c then d else s[0]] + rest;
    }
  }

  /** Capitalising keeps the length and the positions of the spaces. */
  lemma CapitalizeSpaces(s: string)
    ensures |Capitalize(s)| == |s|
    ensures forall i :: 0 <= i < |s| ==> (Capitalize(s)[i] == ' ' <==> s[i] == ' ')
  {
    if s != [] {
      var t := Capitalize(s);
      forall i | 0 <= i < |s| ensures t[i] == ' ' <==> s[i] == ' ' {
        if i > 0 {
          assert t[i] == LowerChar(s[i]);
        }
      }
    }
  }

  lemma DoubleSpaceAt(s: string, j: int)
    ensures MatchAt(s, "  ", j) <==> 0 <= j && j + 1 < |s| && s[j] == ' ' && s[j + 1] == ' '
  {
    if 0 <= j && j + 2 <= |s| {
      assert s[j..j + 2] == [s[j], s[j + 1]];
    }
  }

  /** A capitalised name has a double space exactly where the name has one. */
  lemma CapitalizeDoubleSpace(s: string)
    ensures forall j :: MatchAt(Capitalize(s), "  ", j) <==> MatchAt(s, "  ", j)
  {
    CapitalizeSpaces(s);
    forall j ensures MatchAt(Capitalize(s), "  ", j) <==> MatchAt(s, "  ", j) {
      DoubleSpaceAt(s, j);
      DoubleSpaceAt(Capitalize(s), j);
    }
  }

  /** Concatenation regrouped; the loops below use it to extend an
      accumulated string by one piece. */
  lemma ConcatAssoc(x: string, y: string, z: string)
    ensures x + (y + z) == (x + y) + z
  {
  }

  /** The empty string is a left unit of concatenation. */
  lemma ConcatEmpty(x: string)
    ensures "" + x == x
  {
  }
}
