/** The Python string operations the orchestration scripts rely on
    (`split`, `join`, `in`, `find`, `endswith`, `replace`, slicing, `str(int)`,
    `int(str)`), written over `string` = seq<char> with their Python meaning. */
module Strings {
  import opened Wrappers

  function Min(a: int, b: int): int { if a <= b then a else b }

  // ---------------------------------------------------------------------------
  // split / join on a one-character separator

  /** Python `s.split(c)`: the pieces between the occurrences of `c`, always
      at least one (`"".split("_") == [""]`). */
  function Split(s: string, c: char): (parts: seq<string>)
    ensures |parts| >= 1
  {
    if |s| == 0 then [""]
    else
      var rest := Split(s[1..], c);
      if s[0] == c then [""] + rest else [[s[0]] + rest[0]] + rest[1..]
  }

  /** Python `c.join(parts)`. */
  function Join(parts: seq<string>, c: char): string
  {
    if |parts| == 0 then ""
    else if |parts| == 1 then parts[0]
    else parts[0] + [c] + Join(parts[1..], c)
  }

  /** Joining the pieces of a split gives back the original text. */
  lemma {:induction false} SplitJoin(s: string, c: char)
    ensures Join(Split(s, c), c) == s
  {
    if |s| > 0 {
      var rest := Split(s[1..], c);
      SplitJoin(s[1..], c);
      if s[0] == c {
        assert ([""] + rest)[1..] == rest;
        assert Join([""] + rest, c) == "" + [c] + Join(rest, c);
        assert [c] + s[1..] == s;
      } else {
        var parts := [[s[0]] + rest[0]] + rest[1..];
        if |rest| == 1 {
          assert Join(parts, c) == [s[0]] + rest[0];
        } else {
          assert parts[1..] == rest[1..];
          assert Join(rest, c) == rest[0] + [c] + Join(rest[1..], c);
        }
        assert [s[0]] + s[1..] == s;
      }
    }
  }

  /** No piece of a split contains the separator. */
  lemma {:induction false} SplitPiecesFree(s: string, c: char)
    ensures forall i :: 0 <= i < |Split(s, c)| ==> c !in Split(s, c)[i]
  {
    if |s| > 0 {
      SplitPiecesFree(s[1..], c);
    }
  }

  /** Text without the separator splits into itself. */
  lemma {:induction false} SplitFree(a: string, c: char)
    requires c !in a
    ensures Split(a, c) == [a]
  {
    if |a| > 0 {
      SplitFree(a[1..], c);
      assert [a[0]] + a[1..] == a;
    }
  }

  /** The first piece ends at the first separator. */
  lemma {:induction false} SplitConcat(a: string, c: char, b: string)
    requires c !in a
    ensures Split(a + [c] + b, c) == [a] + Split(b, c)
  {
    var s := a + [c] + b;
    if |a| == 0 {
      assert s[1..] == b;
    } else {
      assert s[1..] == a[1..] + [c] + b;
      SplitConcat(a[1..], c, b);
      assert [a[0]] + a[1..] == a;
    }
  }

  /** Splitting a join of separator-free pieces gives the pieces back. */
  lemma {:induction false} JoinSplit(parts: seq<string>, c: char)
    requires |parts| >= 1
    requires forall i :: 0 <= i < |parts| ==> c !in parts[i]
    ensures Split(Join(parts, c), c) == parts
  {
    if |parts| == 1 {
      SplitFree(parts[0], c);
    } else {
      JoinSplit(parts[1..], c);
      SplitConcat(parts[0], c, Join(parts[1..], c));
      assert [parts[0]] + parts[1..] == parts;
    }
  }

  /** The i-th field of a split, or None where Python raises IndexError. */
  function Field(s: string, c: char, i: nat): (r: Option<string>)
    ensures r.Some? <==> i < |Split(s, c)|
  {
    var parts := Split(s, c);
    if i < |parts| then Some(parts[i]) else None
  }

  // ---------------------------------------------------------------------------
  // substring search

  predicate OccursAt(s: string, pat: string, j: nat)
  {
    j + |pat| <= |s| && s[j..j + |pat|] == pat
  }

  /** Python `s.find(pat)`: the first index where `pat` occurs, or -1. */
  function Find(s: string, pat: string): (k: int)
    ensures k == -1 || (0 <= k && OccursAt(s, pat, k))
    ensures k != -1 ==> forall j: nat :: j < k ==> !OccursAt(s, pat, j)
    ensures k == -1 ==> forall j: nat :: !OccursAt(s, pat, j)
  {
    if pat <= s then 0
    else if |s| == 0 then -1
    else
      var k := Find(s[1..], pat);
      ShiftOccurs(s, pat);
      if k == -1 then -1 else k + 1
  }

  /** Where `pat` does not start `s`, its occurrences in `s` are those in
      `s[1..]`, one position later. */
  lemma ShiftOccurs(s: string, pat: string)
    requires |s| > 0 && !(pat <= s)
    ensures forall j: nat :: OccursAt(s, pat, j) ==> j > 0 && OccursAt(s[1..], pat, j - 1)
    ensures forall j: nat :: OccursAt(s[1..], pat, j) ==> OccursAt(s, pat, j + 1)
  {
    forall j: nat | OccursAt(s, pat, j) ensures j > 0 && OccursAt(s[1..], pat, j - 1) {
      assert s[1..][j - 1..j - 1 + |pat|] == s[j..j + |pat|];
    }
    forall j: nat | OccursAt(s[1..], pat, j) ensures OccursAt(s, pat, j + 1) {
      assert s[1..][j..j + |pat|] == s[j + 1..j + 1 + |pat|];
    }
  }

  /** Python `pat in s`. */
  predicate Contains(s: string, pat: string)
  {
    Find(s, pat) >= 0
  }

  /** A one-character text occurs exactly where that character stands. */
  lemma OccursAtChar(s: string, c: char)
    ensures forall j: nat :: OccursAt(s, [c], j) <==> j < |s| && s[j] == c
  {
    forall j: nat | j < |s| ensures OccursAt(s, [c], j) <==> s[j] == c {
      assert s[j..j + 1] == [s[j]];
    }
  }

  /** A one-character search finds the first position holding that character. */
  lemma FindChar(s: string, c: char, k: nat)
    requires k < |s| && s[k] == c && c !in s[..k]
    ensures Find(s, [c]) == k
  {
    OccursAtChar(s, c);
    assert forall j :: 0 <= j < k ==> s[..k][j] == s[j];
  }

  /** A one-character text that does not occur is not found. */
  lemma FindCharAbsent(s: string, c: char)
    requires c !in s
    ensures !Contains(s, [c])
  {
    OccursAtChar(s, c);
  }

  /** Python `s.split(pat)[0]`: the text before the first `pat`, or all of `s`. */
  function BeforeFirst(s: string, pat: string): (r: string)
    ensures r <= s
    ensures Contains(s, pat) ==> OccursAt(s, pat, |r|)
    ensures !Contains(s, pat) ==> r == s
    ensures forall j: nat :: j < |r| ==> !OccursAt(s, pat, j)
  {
    var k := Find(s, pat);
    if k == -1 then s else s[..k]
  }

  /** An occurrence anywhere is found. */
  lemma OccursFound(s: string, pat: string, j: nat)
    requires OccursAt(s, pat, j)
    ensures Contains(s, pat) && Find(s, pat) <= j
  {
  }

  /** A search that meets no occurrence before `k` and one at `k` stops at `k`. */
  lemma FindAt(s: string, pat: string, k: nat)
    requires OccursAt(s, pat, k)
    requires forall j: nat :: j < k ==> !OccursAt(s, pat, j)
    ensures Find(s, pat) == k
  {
  }

  /** A prefix of `s` that holds no occurrence of `pat` found in `s` contains
      none itself. */
  lemma PrefixWithout(r: string, s: string, pat: string)
    requires |pat| > 0 && r <= s
    requires forall j: nat :: j < |r| ==> !OccursAt(s, pat, j)
    ensures !Contains(r, pat)
  {
    forall j: nat | OccursAt(r, pat, j) ensures OccursAt(s, pat, j) && j < |r| {
      assert s[j..j + |pat|] == r[j..j + |pat|];
    }
  }

  /** The text before the first `pat` holds no `pat`. */
  lemma BeforeFirstWithout(s: string, pat: string)
    requires |pat| > 0
    ensures !Contains(BeforeFirst(s, pat), pat)
  {
    PrefixWithout(BeforeFirst(s, pat), s, pat);
  }

  /** Python `s.endswith(suf)`. */
  predicate EndsWith(s: string, suf: string)
  {
    |suf| <= |s| && s[|s| - |suf|..] == suf
  }

  // ---------------------------------------------------------------------------
  // replace

  /** Python `s.replace(pat, rep)` for a non-empty `pat`: every occurrence,
      found left to right without overlap, is replaced. */
  function Replace(s: string, pat: string, rep: string): string
    requires |pat| > 0
    decreases |s|
  {
    if |s| < |pat| then s
    else if s[..|pat|] == pat then rep + Replace(s[|pat|..], pat, rep)
    else [s[0]] + Replace(s[1..], pat, rep)
  }

  /** A pattern no proper suffix of which is also a prefix: two of its
      occurrences can never overlap. */
  predicate BorderFree(pat: string)
  {
    forall k :: 0 < k < |pat| ==> pat[k..] != pat[..|pat| - k]
  }

  /** Two overlapping occurrences of `pat`, at the start and at the end of
      `s`, make the overlap a border of `pat`. */
  lemma OverlapIsBorder(s: string, pat: string)
    requires |pat| <= |s| && s[..|pat|] == pat && EndsWith(s, pat)
    ensures 0 < |s| - |pat| < |pat| ==> pat[|s| - |pat|..] == pat[..2 * |pat| - |s|]
  {
    var n, k := |pat|, |s| - |pat|;
    if 0 < k < n {
      assert pat[k..] == s[k..n];
      assert s[k..n] == s[k..][..n - k];
    }
  }

  /** Replacing a border-free pattern in text that ends with that pattern
      gives text that ends with the replacement. */
  lemma {:induction false} ReplaceKeepsSuffix(s: string, pat: string, rep: string)
    requires |pat| > 0 && BorderFree(pat)
    requires EndsWith(s, pat)
    ensures EndsWith(Replace(s, pat, rep), rep)
    decreases |s|
  {
    var n := |pat|;
    if s[..n] == pat {
      assert Replace(s, pat, rep) == rep + Replace(s[n..], pat, rep);
      if |s| > n {
        OverlapIsBorder(s, pat);
        assert |s| >= 2 * n;
        assert s[n..][|s[n..]| - n..] == s[|s| - n..];
        ReplaceKeepsSuffix(s[n..], pat, rep);
        EndsWithPrepend(rep, Replace(s[n..], pat, rep), rep);
      } else {
        assert Replace(s[n..], pat, rep) == "";
        assert rep + "" == rep;
      }
    } else {
      assert |s| > n;
      assert Replace(s, pat, rep) == [s[0]] + Replace(s[1..], pat, rep);
      assert s[1..][|s[1..]| - n..] == s[|s| - n..];
      ReplaceKeepsSuffix(s[1..], pat, rep);
      EndsWithPrepend([s[0]], Replace(s[1..], pat, rep), rep);
    }
  }

  lemma EndsWithPrepend(x: string, y: string, suf: string)
    requires EndsWith(y, suf)
    ensures EndsWith(x + y, suf)
  {
    assert (x + y)[|x + y| - |suf|..] == y[|y| - |suf|..];
  }

  /** Deleting every occurrence of a character leaves none of it. */
  lemma {:induction false} ReplaceDeletesChar(s: string, c: char)
    ensures c !in Replace(s, [c], "")
    decreases |s|
  {
    if |s| >= 1 {
      ReplaceDeletesChar(s[1..], c);
    }
  }

  /** Two-character text `[a, b]` occurs in `s`. */
  predicate HasPair(s: string, a: char, b: char)
  {
    exists i :: 0 <= i < |s| - 1 && s[i] == a && s[i + 1] == b
  }

  lemma PairFreeSuffix(s: string, a: char, b: char, k: nat)
    requires k <= |s| && !HasPair(s, a, b)
    ensures !HasPair(s[k..], a, b)
  {
    forall i | 0 <= i < |s[k..]| - 1 ensures !(s[k..][i] == a && s[k..][i + 1] == b) {
      assert s[k..][i] == s[i + k] && s[k..][i + 1] == s[i + k + 1];
    }
  }

  /** The first character of a replacement result is either the first
      character of the input or the first character of the replacement. */
  lemma ReplaceHead(s: string, pat: string, rep: string)
    requires |pat| > 0 && |rep| > 0 && |s| > 0
    ensures |Replace(s, pat, rep)| > 0
    ensures Replace(s, pat, rep)[0] == s[0] || (s[..|pat|] == pat && |s| >= |pat| && Replace(s, pat, rep)[0] == rep[0])
  {
  }

  /** Replacing `ab` by `cb` (with a, b, c pairwise different) leaves no `ab`. */
  lemma {:induction false} ReplaceRemovesPair(s: string, a: char, b: char, c: char)
    requires a != b && b != c && a != c
    ensures !HasPair(Replace(s, [a, b], [c, b]), a, b)
    decreases |s|
  {
    var pat, rep := [a, b], [c, b];
    var r := Replace(s, pat, rep);
    if |s| < 2 {
      assert r == s;
    } else if s[..2] == pat {
      var t := Replace(s[2..], pat, rep);
      ReplaceRemovesPair(s[2..], a, b, c);
      assert r == rep + t;
      forall i | 0 <= i < |r| - 1 ensures !(r[i] == a && r[i + 1] == b) {
        if i >= 2 { assert r[i] == t[i - 2] && r[i + 1] == t[i - 1]; }
      }
    } else {
      var t := Replace(s[1..], pat, rep);
      ReplaceRemovesPair(s[1..], a, b, c);
      assert r == [s[0]] + t;
      if |t| > 0 {
        ReplaceHead(s[1..], pat, rep);
        if s[0] == a && t[0] == b {
          assert false;
        }
      }
      forall i | 0 <= i < |r| - 1 ensures !(r[i] == a && r[i + 1] == b) {
        if i >= 1 { assert r[i] == t[i - 1] && r[i + 1] == t[i]; }
      }
    }
  }

  /** Replacing `db` by `cb` (d, c both different from a and b) keeps text
      free of `ab`. */
  lemma {:induction false} ReplaceKeepsPairFree(s: string, a: char, b: char, c: char, d: char)
    requires a != b && c != b && d != b && c != a && d != a
    requires !HasPair(s, a, b)
    ensures !HasPair(Replace(s, [d, b], [c, b]), a, b)
    decreases |s|
  {
    var pat, rep := [d, b], [c, b];
    var r := Replace(s, pat, rep);
    if |s| < 2 {
      assert r == s;
    } else if s[..2] == pat {
      var t := Replace(s[2..], pat, rep);
      PairFreeSuffix(s, a, b, 2);
      ReplaceKeepsPairFree(s[2..], a, b, c, d);
      assert r == rep + t;
      forall i | 0 <= i < |r| - 1 ensures !(r[i] == a && r[i + 1] == b) {
        if i >= 2 { assert r[i] == t[i - 2] && r[i + 1] == t[i - 1]; }
      }
    } else {
      var t := Replace(s[1..], pat, rep);
      PairFreeSuffix(s, a, b, 1);
      ReplaceKeepsPairFree(s[1..], a, b, c, d);
      assert r == [s[0]] + t;
      assert !(s[0] == a && s[1] == b);
      if |t| > 0 {
        ReplaceHead(s[1..], pat, rep);
      }
      forall i | 0 <= i < |r| - 1 ensures !(r[i] == a && r[i + 1] == b) {
        if i >= 1 { assert r[i] == t[i - 1] && r[i + 1] == t[i]; }
      }
    }
  }

  /** Two-character occurrences agree with `Contains`. */
  lemma PairContains(s: string, a: char, b: char)
    ensures Contains(s, [a, b]) <==> HasPair(s, a, b)
  {
    if Contains(s, [a, b]) {
      var k := Find(s, [a, b]);
      assert s[k..k + 2] == [a, b];
      assert s[k] == a && s[k + 1] == b;
    }
    if HasPair(s, a, b) {
      var i :| 0 <= i < |s| - 1 && s[i] == a && s[i + 1] == b;
      assert s[i..i + 2] == [a, b];
      assert OccursAt(s, [a, b], i);
    }
  }

  // ---------------------------------------------------------------------------
  // Python slicing with non-negative bounds

  /** Python `s[i:j]` for `i, j >= 0`: the bounds are cut to the length. */
  function Slice(s: string, i: nat, j: nat): (r: string)
    ensures |r| <= |s|
    ensures i <= j <= |s| ==> r == s[i..j]
  {
    var a := Min(i, |s|);
    var b := Min(j, |s|);
    if a < b then s[a..b] else ""
  }

  /** Python `s[i:]` for `i >= 0`. */
  function From(s: string, i: nat): (r: string)
    ensures i <= |s| ==> r == s[i..]
    ensures i > |s| ==> r == ""
  {
    s[Min(i, |s|)..]
  }

  // ---------------------------------------------------------------------------
  // decimal numbers

  function DigitChar(d: nat): char
    requires d < 10
  {
    (48 + d) as char
  }

  predicate IsDigit(ch: char) { '0' <= ch <= '9' }

  function DigitValue(ch: char): nat
    requires IsDigit(ch)
  {
    ch as int - '0' as int
  }

  /** Python `str(n)` for a natural number. */
  function NatToString(n: nat): (s: string)
    ensures |s| >= 1
    ensures forall i :: 0 <= i < |s| ==> IsDigit(s[i])
    ensures n < 10 <==> |s| == 1
  {
    if n < 10 then [DigitChar(n)] else NatToString(n / 10) + [DigitChar(n % 10)]
  }

  /** Different numbers are printed differently. */
  lemma {:induction false} NatToStringInjective(a: nat, b: nat)
    requires NatToString(a) == NatToString(b)
    ensures a == b
  {
    if a >= 10 && b >= 10 {
      var sa, sb := NatToString(a), NatToString(b);
      assert sa[|sa| - 1] == sb[|sb| - 1];
      assert sa[..|sa| - 1] == NatToString(a / 10);
      assert sb[..|sb| - 1] == NatToString(b / 10);
      NatToStringInjective(a / 10, b / 10);
    }
  }

  /** Python `str(i)` for any integer. */
  function IntToString(i: int): string
  {
    if i < 0 then "-" + NatToString(-i) else NatToString(i)
  }

  /** Value of a non-empty digit string. */
  function DigitsValue(s: string): nat
    requires forall i :: 0 <= i < |s| ==> IsDigit(s[i])
  {
    if |s| == 0 then 0
    else DigitsValue(s[..|s| - 1]) * 10 + DigitValue(s[|s| - 1])
  }

  /** Python `int(s)` for text made of an optional sign and digits; None
      where Python raises ValueError. */
  function ParseInt(s: string): (r: Option<int>)
    ensures r.Some? ==> |s| >= 1
  {
    if |s| >= 1 && (forall i :: 0 <= i < |s| ==> IsDigit(s[i])) then Some(DigitsValue(s))
    else if |s| >= 2 && (s[0] == '-' || s[0] == '+') && (forall i :: 1 <= i < |s| ==> IsDigit(s[i])) then
      var v: int := DigitsValue(s[1..]);
      Some(if s[0] == '-' then -v else v)
    else None
  }

  /** Reading back a printed number gives the number. */
  lemma {:induction false} DigitsValueOfNat(n: nat)
    ensures DigitsValue(NatToString(n)) == n
  {
    if n >= 10 {
      var s := NatToString(n);
      assert s[..|s| - 1] == NatToString(n / 10);
      DigitsValueOfNat(n / 10);
    }
  }

  lemma ParseIntRoundTrip(n: nat)
    ensures ParseInt(NatToString(n)) == Some(n)
  {
    DigitsValueOfNat(n);
  }
}
