/** Sequence helpers shared by the import and mask pipelines. */
module Lists {

  /** The first components of a list of pairs: the keys of a dictionary
      kept as its items, the names of a register's entries. */
  function Firsts<A, B>(ps: seq<(A, B)>): (fs: seq<A>)
    ensures |fs| == |ps| && forall i :: 0 <= i < |ps| ==> fs[i] == ps[i].0
  {
    seq(|ps|, i requires 0 <= i < |ps| => ps[i].0)
  }

  /** The second components of a list of pairs. */
  function Seconds<A, B>(ps: seq<(A, B)>): (ss: seq<B>)
    ensures |ss| == |ps| && forall i :: 0 <= i < |ps| ==> ss[i] == ps[i].1
  {
    seq(|ps|, i requires 0 <= i < |ps| => ps[i].1)
  }

  lemma FirstsConcat<A, B>(a: seq<(A, B)>, b: seq<(A, B)>)
    ensures Firsts(a + b) == Firsts(a) + Firsts(b)
  {
  }

  lemma FirstsSnoc<A, B>(ps: seq<(A, B)>, p: (A, B))
    ensures Firsts(ps + [p]) == Firsts(ps) + [p.0]
  {
  }

  lemma SecondsSnoc<A, B>(ps: seq<(A, B)>, p: (A, B))
    ensures Seconds(ps + [p]) == Seconds(ps) + [p.1]
  {
  }

  predicate NoDuplicates<T(==)>(s: seq<T>)
  {
    forall i, j :: 0 <= i < j < |s| ==> s[i] != s[j]
  }

  /** The distinct elements of `s`, each at its first occurrence; this is
      the list the mask script's "append if not yet registered" loops build,
      and the model's reading of `list(set(s))`. */
  function Dedup<T(==)>(s: seq<T>): (r: seq<T>)
    ensures NoDuplicates(r)
    ensures forall i :: 0 <= i < |r| ==> r[i] in s
    ensures forall i :: 0 <= i < |s| ==> s[i] in r
    ensures |r| <= |s|
  {
    if |s| == 0 then []
    else
      var r := Dedup(s[..|s| - 1]);
      assert forall i :: 0 <= i < |s| - 1 ==> s[i] == s[..|s| - 1][i];
      if s[|s| - 1] in r then r else r + [s[|s| - 1]]
  }

  /** Number of occurrences of `x` in `s`. */
  function Count<T(==)>(s: seq<T>, x: T): nat
  {
    if |s| == 0 then 0
    else Count(s[..|s| - 1], x) + (if s[|s| - 1] == x then 1 else 0)
  }

  lemma {:induction false} CountZero<T>(s: seq<T>, x: T)
    requires x !in s
    ensures Count(s, x) == 0
  {
    if |s| > 0 {
      assert x !in s[..|s| - 1];
      CountZero(s[..|s| - 1], x);
    }
  }

  /** In a sequence without duplicates every element occurs exactly once. */
  lemma {:induction false} CountOnce<T>(s: seq<T>, x: T)
    requires NoDuplicates(s) && x in s
    ensures Count(s, x) == 1
  {
    var init := s[..|s| - 1];
    assert NoDuplicates(init);
    if s[|s| - 1] == x {
      assert x !in init;
      CountZero(init, x);
    } else {
      assert x in init;
      CountOnce(init, x);
    }
  }

  /** Concatenation of a sequence of sequences. */
  function Flatten<T>(ss: seq<seq<T>>): seq<T>
  {
    if |ss| == 0 then [] else Flatten(ss[..|ss| - 1]) + ss[|ss| - 1]
  }

  lemma AppendAssoc<T>(a: seq<T>, b: seq<T>, c: seq<T>)
    ensures (a + b) + c == a + (b + c)
  {
  }

  /** Splitting off the last element of the second part of a concatenation. */
  lemma SnocSplit<T>(a: seq<T>, b: seq<T>)
    requires |b| > 0
    ensures b == b[..|b| - 1] + [b[|b| - 1]]
    ensures a + b == (a + b[..|b| - 1]) + [b[|b| - 1]]
  {
    assert b == b[..|b| - 1] + [b[|b| - 1]];
    AppendAssoc(a, b[..|b| - 1], [b[|b| - 1]]);
  }

  lemma ConcatParts<T>(a: seq<T>, b: seq<T>)
    ensures (a + b)[..|a|] == a && (a + b)[|a|..] == b
  {
  }
}
