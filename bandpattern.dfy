/** Expansion of the import pattern into one extract per band. A pattern
    `pre(a|b|c)post` stands for the bands `preapost`, `prebpost` and
    `precpost`; a pattern without a bracket is a plain `|`-separated list. */
module BandPattern {
  import opened Wrappers
  import opened Strings

  /** `re.findall(r"\((.*?)\)", pattern)[0]` finds no bracket pair, or
      `re.findall(r"\)(.*)", pattern)[0]` finds no closing bracket: Python
      raises IndexError. */
  datatype PatternError = UnclosedBracket

  /** The options of a bracketed pattern, each wrapped in the text before the
      bracket and after it. */
  function Wrap(before: string, options: seq<string>, after: string): (bands: seq<string>)
    ensures |bands| == |options|
    ensures forall i :: 0 <= i < |options| ==> bands[i] == before + options[i] + after
  {
    seq(|options|, i requires 0 <= i < |options| => before + options[i] + after)
  }

  /** The band list of both import scripts. On a pattern without newlines the
      three regular expressions read: the text before the first `(`; the text
      from that `(` to the next `)`; the text after the first `)` of the whole
      pattern. */
  function Expand(pattern: string): (r: Result<seq<string>, PatternError>)
    ensures r.Err? ==> Contains(pattern, "(")
    ensures r.Ok? ==> |r.value| >= 1
  {
    if Contains(pattern, "(") then
      var before := BeforeFirst(pattern, "(");
      var rest := pattern[|before| + 1..];
      if !Contains(rest, ")") then Err(UnclosedBracket)
      else
        var inside := BeforeFirst(rest, ")");
        var close := Find(pattern, ")");
        ClosingInPattern(pattern, |before| + 1, Find(rest, ")"));
        Ok(Wrap(before, Split(inside, '|'), pattern[close + 1..]))
    else Ok(Split(pattern, '|'))
  }

  /** A `)` found in a suffix of the pattern is found in the pattern. */
  lemma ClosingInPattern(pattern: string, start: nat, k: int)
    requires start <= |pattern| && k >= 0 && OccursAt(pattern[start..], ")", k)
    ensures Find(pattern, ")") >= 0
  {
    assert pattern[start..][k..k + 1] == pattern[start + k..start + k + 1];
    OccursFound(pattern, ")", start + k);
  }

  /** A pattern `pre(o1|...|on)post`, with no bracket in `pre` and no `)` or
      `|` in the options, expands to `pre + oi + post` for every option. */
  lemma {:induction false} ExpandBracketed(pre: string, options: seq<string>, post: string)
    requires '(' !in pre && ')' !in pre
    requires |options| >= 1
    requires forall i :: 0 <= i < |options| ==> '|' !in options[i] && ')' !in options[i]
    ensures Expand(pre + "(" + Join(options, '|') + ")" + post) == Ok(Wrap(pre, options, post))
  {
    var inner := Join(options, '|');
    JoinFree(options, '|', ')');
    BracketPieces(pre, inner, post);
    JoinSplit(options, '|');
  }

  /** The three pieces the regular expressions read from `pre(inner)post`. */
  lemma BracketPieces(pre: string, inner: string, post: string)
    requires '(' !in pre && ')' !in pre && ')' !in inner
    ensures var p, n := pre + "(" + inner + ")" + post, |pre|;
      Find(p, "(") == n && p[..n] == pre && p[n + 1..] == inner + ")" + post
      && Find(inner + ")" + post, ")") == |inner| && (inner + ")" + post)[..|inner|] == inner
      && Find(p, ")") == n + 1 + |inner| && p[n + 1 + |inner| + 1..] == post
  {
    var p := pre + "(" + inner + ")" + post;
    var n := |pre|;
    assert p[n] == '(' && p[..n] == pre;
    FindChar(p, '(', n);
    var rest := inner + ")" + post;
    assert p[n + 1..] == rest;
    assert rest[|inner|] == ')' && rest[..|inner|] == inner;
    FindChar(rest, ')', |inner|);
    assert p[n + 1 + |inner|] == ')';
    assert p[..n + 1 + |inner|] == pre + "(" + inner;
    FindChar(p, ')', n + 1 + |inner|);
    assert p[n + 1 + |inner| + 1..] == post;
  }

  /** A separator-free character stays absent from a join of pieces free of it. */
  lemma {:induction false} JoinFree(parts: seq<string>, c: char, x: char)
    requires x != c
    requires forall i :: 0 <= i < |parts| ==> x !in parts[i]
    ensures x !in Join(parts, c)
  {
    if |parts| >= 2 {
      JoinFree(parts[1..], c, x);
    }
  }

  /** Without a bracket the pattern is its `|`-separated list. */
  lemma PlainPattern(options: seq<string>)
    requires |options| >= 1
    requires forall i :: 0 <= i < |options| ==> '|' !in options[i] && '(' !in options[i]
    ensures Expand(Join(options, '|')) == Ok(options)
  {
    JoinFree(options, '|', '(');
    FindCharAbsent(Join(options, '|'), '(');
    JoinSplit(options, '|');
  }

  /** An opening bracket with no closing one after it stops the script. */
  lemma UnclosedPattern(pre: string, post: string)
    requires '(' !in pre && ')' !in post
    ensures Expand(pre + "(" + post) == Err(UnclosedBracket)
  {
    var p := pre + "(" + post;
    assert p[|pre|] == '(' && p[..|pre|] == pre;
    FindChar(p, '(', |pre|);
    assert p[|pre| + 1..] == post;
    FindCharAbsent(post, ')');
  }

  // ---------------------------------------------------------------------------
  // resolution rewrite and extraction

  /** The band name of an extract in the newer script: with `-i`, a band that
      mentions `20` or `60` has every `20`, then every `60`, replaced by `10`. */
  function NewerBand(band: string, interpolate: bool): (r: string)
    ensures !interpolate ==> r == band
    ensures !Contains(band, "20") && !Contains(band, "60") ==> r == band
  {
    if interpolate && (Contains(band, "20") || Contains(band, "60"))
    then Replace(Replace(band, "20", "10"), "60", "10")
    else band
  }

  /** The legacy script computes the replacement but discards it. */
  function LegacyBand(band: string, interpolate: bool): (r: string)
    ensures r == band
  {
    band
  }

  /** After the newer rewrite with `-i` no band mentions a 20 m or 60 m
      resolution, and a band that mentioned neither is unchanged. */
  lemma NewerBandIs10m(band: string)
    ensures !Contains(NewerBand(band, true), "20") && !Contains(NewerBand(band, true), "60")
    ensures !Contains(band, "20") && !Contains(band, "60") ==> NewerBand(band, true) == band
  {
    var r := NewerBand(band, true);
    PairContains(band, '2', '0');
    PairContains(band, '6', '0');
    var once := Replace(band, "20", "10");
    ReplaceRemovesPair(band, '2', '0', '1');
    ReplaceKeepsPairFree(once, '2', '0', '1', '6');
    ReplaceRemovesPair(once, '6', '0', '1');
    PairContains(r, '2', '0');
    PairContains(r, '6', '0');
  }

  /** A band mentioning 20 m is extracted under a different name by the two
      scripts when `-i` is set. */
  lemma LegacyKeeps20m(band: string)
    requires Contains(band, "20")
    ensures NewerBand(band, true) != LegacyBand(band, true)
  {
    NewerBandIs10m(band);
  }

  /** One `t.rast.extract` call. */
  datatype Extract = Extract(input: string, where: string, output: string)

  /** The extract of one band: the rasters whose name contains the band, into
      `<strds>_<band>`. */
  function ExtractOf(strds: string, band: string): (e: Extract)
    ensures e.input == strds && e.output == strds + "_" + band
    ensures e.where == "name like '%" + band + "%'"
  {
    Extract(strds, "name like '%" + band + "%'", strds + "_" + band)
  }

  /** The band loop of both scripts: one extract per band of the expanded
      pattern, in order, named by the newer or the legacy rule. */
  method ExtractBands(strds: string, bands: seq<string>, interpolate: bool, newer: bool) returns (extracts: seq<Extract>)
    ensures |extracts| == |bands|
    ensures forall i :: 0 <= i < |bands| ==>
      extracts[i] == ExtractOf(strds, if newer then NewerBand(bands[i], interpolate) else LegacyBand(bands[i], interpolate))
  {
    extracts := [];
    for i := 0 to |bands|
      invariant |extracts| == i
      invariant forall j :: 0 <= j < i ==>
        extracts[j] == ExtractOf(strds, if newer then NewerBand(bands[j], interpolate) else LegacyBand(bands[j], interpolate))
    {
      var band := bands[i];
      if newer && interpolate && (Contains(band, "20") || Contains(band, "60")) {
        band := Replace(Replace(band, "20", "10"), "60", "10");
      }
      extracts := extracts + [ExtractOf(strds, band)];
    }
  }
}
