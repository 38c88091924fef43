/** The import worker `i.sentinel.import.worker`: it builds the
    `i.sentinel.import` command line for one scene, selects the rasters for
    `i.zero2null` and plans the resampling of the 20 m and 60 m bands to 10 m. */
module ImportWorker {
  import opened Wrappers
  import opened Strings
  import opened Budget
  import opened Lists

  /** The worker's flags: -r reproject, -i resample, -c cloud rasters,
      -j metadata json, -n zero to null. */
  datatype WorkerFlags = WorkerFlags(r: bool, i: bool, c: bool, j: bool, n: bool)

  /** The options the worker reads; `cloud_output` defaults to `vector`. */
  datatype WorkerOptions = WorkerOptions(
    input: string,
    memory: int,
    pattern: string,
    patternFile: string,
    region: string,
    metadata: string,
    cloudOutput: string)

  /** The flags forwarded to `i.sentinel.import`: `r`, `c`, `j` in that
      order, each only when set. */
  function ForwardedFlags(f: WorkerFlags): (s: string)
    ensures ('r' in s <==> f.r) && ('c' in s <==> f.c) && ('j' in s <==> f.j)
    ensures 'i' !in s && 'n' !in s
    ensures |s| == (if f.r then 1 else 0) + (if f.c then 1 else 0) + (if f.j then 1 else 0)
  {
    var s := (if f.r then "r" else "") + (if f.c then "c" else "") + (if f.j then "j" else "");
    assert forall k :: 0 <= k < |s| ==> s[k] == 'r' || s[k] == 'c' || s[k] == 'j';
    s
  }

  /** The memory handed to `i.sentinel.import`: the request, lowered to free
      RAM when less is free, with the "Free RAM only" warning in that case. */
  function WorkerMemory(requested: int, freeRam: int): (r: (int, seq<Warning>))
    ensures r.0 <= requested && r.0 <= freeRam
    ensures freeRam < requested ==> r.0 == freeRam
    ensures freeRam >= requested ==> r.0 == requested
    ensures r.1 == if freeRam < requested then [FreeRamOnly(freeRam)] else []
  {
    var m := Clamp(requested, freeRam);
    (m, if freeRam < requested then [FreeRamOnly(m)] else [])
  }

  /** The `kwargs` dictionary in insertion order: `input`, `memory`,
      `pattern`, `flags`, then the optional arguments. */
  function Kwargs(o: WorkerOptions, memory: int, flag: string): (kw: seq<(string, string)>)
    ensures 4 <= |kw| <= 8
    ensures kw[0] == ("input", o.input) && kw[2] == ("pattern", o.pattern) && kw[3] == ("flags", flag)
  {
    [("input", o.input), ("memory", IntToString(memory)), ("pattern", o.pattern), ("flags", flag)]
      + OptionalKwargs(o)
  }

  /** `extent`, `metadata`, `pattern_file` and `cloud_output`, each where its
      option is non-empty. */
  function OptionalKwargs(o: WorkerOptions): seq<(string, string)>
  {
    Optional(o.region != "", "extent", "region")
      + Optional(o.metadata != "", "metadata", o.metadata)
      + Optional(o.patternFile != "", "pattern_file", o.patternFile)
      + Optional(o.cloudOutput != "", "cloud_output", o.cloudOutput)
  }

  function Optional(present: bool, key: string, val: string): (kw: seq<(string, string)>)
    ensures Firsts(kw) == if present then [key] else []
  {
    if present then [(key, val)] else []
  }


  /** The optional keys, in order, each exactly when its option is set. */
  lemma OptionalKeys(o: WorkerOptions)
    ensures Firsts(OptionalKwargs(o)) ==
      (if o.region != "" then ["extent"] else [])
        + (if o.metadata != "" then ["metadata"] else [])
        + (if o.patternFile != "" then ["pattern_file"] else [])
        + (if o.cloudOutput != "" then ["cloud_output"] else [])
  {
    var a := Optional(o.region != "", "extent", "region");
    var b := Optional(o.metadata != "", "metadata", o.metadata);
    var c := Optional(o.patternFile != "", "pattern_file", o.patternFile);
    var d := Optional(o.cloudOutput != "", "cloud_output", o.cloudOutput);
    FirstsConcat(a + b + c, d);
    FirstsConcat(a + b, c);
    FirstsConcat(a, b);
  }

  /** The worker passes `input`, `memory`, `pattern` and `flags` always, in
      that order, then the optional arguments; `flags` occurs once. */
  lemma KwargsKeys(o: WorkerOptions, memory: int, flag: string)
    ensures var kw := Kwargs(o, memory, flag);
      |kw| >= 4
      && kw[..4] == [("input", o.input), ("memory", IntToString(memory)), ("pattern", o.pattern), ("flags", flag)]
      && kw[4..] == OptionalKwargs(o)
      && Firsts(kw) == ["input", "memory", "pattern", "flags"] + Firsts(OptionalKwargs(o))
      && "flags" !in Firsts(OptionalKwargs(o))
  {
    var head := [("input", o.input), ("memory", IntToString(memory)), ("pattern", o.pattern), ("flags", flag)];
    ConcatParts(head, OptionalKwargs(o));
    FirstsConcat(head, OptionalKwargs(o));
    assert Firsts(head) == ["input", "memory", "pattern", "flags"];
    FlagsNotOptional(o);
  }

  lemma FlagsNotOptional(o: WorkerOptions)
    ensures "flags" !in Firsts(OptionalKwargs(o))
  {
    OptionalKeys(o);
    assert |"flags"| == 5 && |"extent"| == 6 && |"metadata"| == 8;
    assert |"pattern_file"| == 12 && |"cloud_output"| == 12;
  }

  /** The `flags` pair's share of the command, and everything else's. */
  function ArgPiece(p: (string, string)): string
  {
    if p.0 == "flags" then "" else " " + p.0 + "='" + p.1 + "'"
  }

  function FlagPiece(p: (string, string)): string
  {
    if p.0 == "flags" then p.1 else ""
  }

  /** ` key='val'` for every pair but `flags`, in order. */
  function ArgsText(kw: seq<(string, string)>): string
  {
    if |kw| == 0 then "" else ArgsText(kw[..|kw| - 1]) + ArgPiece(kw[|kw| - 1])
  }

  /** The values of the `flags` pairs, concatenated. */
  function FlagsText(kw: seq<(string, string)>): string
  {
    if |kw| == 0 then "" else FlagsText(kw[..|kw| - 1]) + FlagPiece(kw[|kw| - 1])
  }

  /** The shell command: `i.sentinel.import --q <args> -<flags>`. */
  method Command(kw: seq<(string, string)>) returns (cmd: string)
    ensures cmd == "i.sentinel.import --q " + ArgsText(kw) + " -" + FlagsText(kw)
  {
    var kwargsstr, flagstr := "", "";
    for i := 0 to |kw|
      invariant kwargsstr == ArgsText(kw[..i]) && flagstr == FlagsText(kw[..i])
    {
      TextsStep(kw, i);
      kwargsstr, flagstr := AddPair(kwargsstr, flagstr, kw[i]);
    }
    assert kw[..|kw|] == kw;
    cmd := "i.sentinel.import --q " + kwargsstr + " -" + flagstr;
  }

  lemma TextsStep(kw: seq<(string, string)>, i: nat)
    requires i < |kw|
    ensures ArgsText(kw[..i + 1]) == ArgsText(kw[..i]) + ArgPiece(kw[i])
    ensures FlagsText(kw[..i + 1]) == FlagsText(kw[..i]) + FlagPiece(kw[i])
  {
    assert kw[..i + 1][..i] == kw[..i];
  }

  /** The loop body: a `flags` pair extends the flags, any other pair the
      arguments. */
  method AddPair(kwargsstr: string, flagstr: string, p: (string, string)) returns (args: string, flags: string)
    ensures args == kwargsstr + ArgPiece(p) && flags == flagstr + FlagPiece(p)
  {
    var key, val := p.0, p.1;
    args, flags := kwargsstr, flagstr;
    if key != "flags" {
      args := args + (" " + key + "='" + val + "'");
      assert flags + "" == flags;
    } else {
      flags := flags + val;
      assert args + "" == args;
    }
  }

  lemma {:induction false} ArgsTextSplit(a: seq<(string, string)>, b: seq<(string, string)>)
    ensures ArgsText(a + b) == ArgsText(a) + ArgsText(b)
    decreases |b|
  {
    if |b| == 0 {
      assert a + b == a;
    } else {
      var b', x := b[..|b| - 1], b[|b| - 1];
      SnocSplit(a, b);
      ArgsTextSplit(a, b');
      ArgsSnoc(a + b', x);
      ArgsSnoc(b', x);
      AppendAssoc(ArgsText(a), ArgsText(b'), ArgPiece(x));
    }
  }

  lemma ArgsSnoc(s: seq<(string, string)>, x: (string, string))
    ensures ArgsText(s + [x]) == ArgsText(s) + ArgPiece(x)
  {
    assert (s + [x])[..|s|] == s;
  }

  lemma {:induction false} FlagsTextSplit(a: seq<(string, string)>, b: seq<(string, string)>)
    ensures FlagsText(a + b) == FlagsText(a) + FlagsText(b)
    decreases |b|
  {
    if |b| == 0 {
      assert a + b == a;
    } else {
      var b', x := b[..|b| - 1], b[|b| - 1];
      SnocSplit(a, b);
      FlagsTextSplit(a, b');
      FlagsSnoc(a + b', x);
      FlagsSnoc(b', x);
      AppendAssoc(FlagsText(a), FlagsText(b'), FlagPiece(x));
    }
  }

  lemma FlagsSnoc(s: seq<(string, string)>, x: (string, string))
    ensures FlagsText(s + [x]) == FlagsText(s) + FlagPiece(x)
  {
    assert (s + [x])[..|s|] == s;
  }

  lemma {:induction false} FlagsFree(kw: seq<(string, string)>)
    requires "flags" !in Firsts(kw)
    ensures FlagsText(kw) == ""
  {
    if |kw| > 0 {
      var init := kw[..|kw| - 1];
      assert Firsts(init) == Firsts(kw)[..|kw| - 1];
      FlagsFree(init);
    }
  }

  /** Four leading pairs, the last of them `flags`, then any pairs: the
      arguments are those of the first three and of the rest. */
  lemma HeadArgs(x0: (string, string), x1: (string, string), x2: (string, string), x3: (string, string),
                 tail: seq<(string, string)>)
    requires x3.0 == "flags"
    ensures ArgsText([x0, x1, x2, x3] + tail) == ArgPiece(x0) + ArgPiece(x1) + ArgPiece(x2) + ArgsText(tail)
  {
    var h := [x0, x1, x2, x3];
    ArgsTextSplit(h, tail);
    ArgsOfFour(x0, x1, x2, x3);
    var p := ArgPiece(x0) + ArgPiece(x1) + ArgPiece(x2);
    assert ArgPiece(x3) == "";
    assert ArgsText(h) == p + "";
    assert p + "" == p;
  }

  /** ... and when no other pair is `flags`, the flags are the fourth pair's
      value. */
  lemma HeadFlags(x0: (string, string), x1: (string, string), x2: (string, string), x3: (string, string),
                  tail: seq<(string, string)>)
    requires x0.0 != "flags" && x1.0 != "flags" && x2.0 != "flags" && x3.0 == "flags"
    requires "flags" !in Firsts(tail)
    ensures FlagsText([x0, x1, x2, x3] + tail) == x3.1
  {
    FlagsTextSplit([x0, x1, x2, x3], tail);
    FlagsFree(tail);
    FlagsOfFour(x0, x1, x2, x3);
    assert FlagPiece(x0) + FlagPiece(x1) + FlagPiece(x2) + FlagPiece(x3) == x3.1;
  }

  lemma ArgsOfFour(x0: (string, string), x1: (string, string), x2: (string, string), x3: (string, string))
    ensures ArgsText([x0, x1, x2, x3]) == ArgPiece(x0) + ArgPiece(x1) + ArgPiece(x2) + ArgPiece(x3)
  {
    var s0: seq<(string, string)> := [];
    var s1 := s0 + [x0];
    var s2 := s1 + [x1];
    var s3 := s2 + [x2];
    ArgsSnoc(s0, x0);
    ArgsSnoc(s1, x1);
    ArgsSnoc(s2, x2);
    ArgsSnoc(s3, x3);
    assert s3 + [x3] == [x0, x1, x2, x3];
    Regroup4(ArgPiece(x0), ArgPiece(x1), ArgPiece(x2), ArgPiece(x3));
  }

  lemma FlagsOfFour(x0: (string, string), x1: (string, string), x2: (string, string), x3: (string, string))
    ensures FlagsText([x0, x1, x2, x3]) == FlagPiece(x0) + FlagPiece(x1) + FlagPiece(x2) + FlagPiece(x3)
  {
    var s0: seq<(string, string)> := [];
    var s1 := s0 + [x0];
    var s2 := s1 + [x1];
    var s3 := s2 + [x2];
    FlagsSnoc(s0, x0);
    FlagsSnoc(s1, x1);
    FlagsSnoc(s2, x2);
    FlagsSnoc(s3, x3);
    assert s3 + [x3] == [x0, x1, x2, x3];
    Regroup4(FlagPiece(x0), FlagPiece(x1), FlagPiece(x2), FlagPiece(x3));
  }

  lemma Regroup4(a: string, b: string, c: string, d: string)
    ensures ((("" + a) + b) + c) + d == a + b + c + d
  {
    assert "" + a == a;
  }

  /** For the worker's own kwargs the command carries exactly the forwarded
      flags after the dash, and the input, memory and pattern first among
      the arguments, followed by the optional ones. */
  lemma CommandOfKwargs(o: WorkerOptions, memory: int, flag: string)
    ensures FlagsText(Kwargs(o, memory, flag)) == flag
    ensures ArgsText(Kwargs(o, memory, flag)) ==
      ArgPiece(("input", o.input)) + ArgPiece(("memory", IntToString(memory))) + ArgPiece(("pattern", o.pattern))
        + ArgsText(OptionalKwargs(o))
  {
    KwargsKeys(o, memory, flag);
    HeadArgs(("input", o.input), ("memory", IntToString(memory)), ("pattern", o.pattern), ("flags", flag),
      OptionalKwargs(o));
    HeadFlags(("input", o.input), ("memory", IntToString(memory)), ("pattern", o.pattern), ("flags", flag),
      OptionalKwargs(o));
  }

  /** With the default `cloud_output` the worker always passes
      `cloud_output='vector'` last, with or without cloud masks requested. */
  lemma DefaultCloudOutputPassed(o: WorkerOptions, memory: int, flag: string)
    requires o.cloudOutput == "vector"
    ensures var kw := Kwargs(o, memory, flag); kw[|kw| - 1] == ("cloud_output", "vector")
  {
  }

  // ---------------------------------------------------------------------------
  // overlap warning

  /** The name the overlap warning mentions: `pattern_file` if set, else `input`. */
  function OverlapTarget(o: WorkerOptions): (name: string)
    ensures o.patternFile != "" ==> name == o.patternFile
    ensures o.patternFile == "" ==> name == o.input
  {
    if o.patternFile != "" then o.patternFile else o.input
  }

  const OverlapMessage := "Input raster does not overlap current computational region"

  /** One warning per output stream of `i.sentinel.import` that reports the
      missing overlap. */
  function OverlapWarnings(streams: seq<string>, o: WorkerOptions): (w: seq<string>)
    ensures |w| <= |streams|
    ensures forall i :: 0 <= i < |w| ==> w[i] == OverlapTarget(o)
    ensures |w| == 0 <==> forall i :: 0 <= i < |streams| ==> !Contains(streams[i], OverlapMessage)
  {
    if |streams| == 0 then []
    else
      var init := streams[..|streams| - 1];
      assert forall i :: 0 <= i < |init| ==> init[i] == streams[i];
      OverlapWarnings(init, o)
        + (if Contains(streams[|streams| - 1], OverlapMessage) then [OverlapTarget(o)] else [])
  }

  /** The loop over the command's output streams. */
  method WarnOverlap(streams: seq<string>, o: WorkerOptions) returns (w: seq<string>)
    ensures w == OverlapWarnings(streams, o)
  {
    w := [];
    for i := 0 to |streams|
      invariant w == OverlapWarnings(streams[..i], o)
    {
      assert streams[..i + 1][..i] == streams[..i];
      if Contains(streams[i], OverlapMessage) {
        w := w + [OverlapTarget(o)];
      }
    }
    assert streams[..|streams|] == streams;
  }

  // ---------------------------------------------------------------------------
  // zero to null

  /** `r.info -r` of a raster: whether its minimum and maximum are NULL. */
  datatype RasterStats = RasterStats(name: string, minNull: bool, maxNull: bool)

  /** The rasters `i.zero2null` runs on: those whose minimum and maximum are
      both non-NULL, in listing order. */
  function Zero2NullTargets(stats: seq<RasterStats>): (r: seq<string>)
    ensures |r| <= |stats|
  {
    if |stats| == 0 then []
    else
      var last := stats[|stats| - 1];
      Zero2NullTargets(stats[..|stats| - 1]) + (if !(last.minNull || last.maxNull) then [last.name] else [])
  }

  /** A raster is treated exactly when neither its minimum nor its maximum is
      NULL (for a listing without repeated names). */
  lemma {:induction false} Zero2NullExactly(stats: seq<RasterStats>, k: nat)
    requires k < |stats|
    requires forall i, j :: 0 <= i < j < |stats| ==> stats[i].name != stats[j].name
    ensures stats[k].name in Zero2NullTargets(stats) <==> !stats[k].minNull && !stats[k].maxNull
  {
    var init := stats[..|stats| - 1];
    if k < |stats| - 1 {
      Zero2NullExactly(init, k);
      assert stats[k].name != stats[|stats| - 1].name;
    } else {
      NamesOutside(init, stats[k].name);
    }
  }

  lemma {:induction false} NamesOutside(stats: seq<RasterStats>, x: string)
    requires forall i :: 0 <= i < |stats| ==> stats[i].name != x
    ensures x !in Zero2NullTargets(stats)
  {
    if |stats| > 0 {
      NamesOutside(stats[..|stats| - 1], x);
    }
  }

  /** The -n loop over the rasters of the worker mapset. */
  method Zero2Null(stats: seq<RasterStats>) returns (treated: seq<string>)
    ensures treated == Zero2NullTargets(stats)
  {
    treated := [];
    for i := 0 to |stats|
      invariant treated == Zero2NullTargets(stats[..i])
    {
      assert stats[..i + 1][..i] == stats[..i];
      if !(stats[i].minNull || stats[i].maxNull) {
        treated := treated + [stats[i].name];
      }
    }
    assert stats[..|stats|] == stats;
  }

  // ---------------------------------------------------------------------------
  // resampling

  /** `g.list pattern='*B*_<res>'`: a `B` somewhere before the `_<res>` suffix. */
  predicate MatchesBand(name: string, res: string)
  {
    EndsWith(name, "_" + res) && 'B' in name[..|name| - |res| - 1]
  }

  /** The band rasters of one resolution, in listing order. */
  function BandsAt(rasters: seq<string>, res: string): (r: seq<string>)
    ensures forall i :: 0 <= i < |r| ==> MatchesBand(r[i], res)
  {
    if |rasters| == 0 then []
    else
      var last := rasters[|rasters| - 1];
      BandsAt(rasters[..|rasters| - 1], res) + (if MatchesBand(last, res) then [last] else [])
  }

  /** `raster_resamp_list`: the 10 m, then the 20 m, then the 60 m bands. */
  function ResampleList(rasters: seq<string>): (r: seq<string>)
    ensures forall i :: 0 <= i < |r| ==>
      MatchesBand(r[i], "10m") || MatchesBand(r[i], "20m") || MatchesBand(r[i], "60m")
  {
    BandsAt(rasters, "10m") + BandsAt(rasters, "20m") + BandsAt(rasters, "60m")
  }

  /** `g.list pattern='*B*_<res>'` misses nothing: a raster is listed iff
      the mapset holds it and it matches the pattern. */
  lemma {:induction false} BandsAtComplete(rasters: seq<string>, res: string, x: string)
    ensures x in BandsAt(rasters, res) <==> x in rasters && MatchesBand(x, res)
  {
    if |rasters| > 0 {
      var init, last := rasters[..|rasters| - 1], rasters[|rasters| - 1];
      BandsAtComplete(init, res, x);
      assert rasters == init + [last];
    }
  }

  /** Every 10 m, 20 m and 60 m band of the mapset is resampled, and
      nothing else. */
  lemma ResampleListComplete(rasters: seq<string>, x: string)
    ensures x in ResampleList(rasters) <==>
      x in rasters && (MatchesBand(x, "10m") || MatchesBand(x, "20m") || MatchesBand(x, "60m"))
  {
    BandsAtComplete(rasters, "10m", x);
    BandsAtComplete(rasters, "20m", x);
    BandsAtComplete(rasters, "60m", x);
  }

  /** The position of a band's resolution in `raster_resamp_list`. */
  function Resolution(x: string): nat
  {
    if MatchesBand(x, "10m") then 0 else if MatchesBand(x, "20m") then 1 else 2
  }

  /** A raster name ends in at most one of the three suffixes. */
  lemma SuffixesExclusive(x: string)
    ensures !(MatchesBand(x, "10m") && MatchesBand(x, "20m"))
    ensures !(MatchesBand(x, "10m") && MatchesBand(x, "60m"))
    ensures !(MatchesBand(x, "20m") && MatchesBand(x, "60m"))
  {
    if |x| >= 4 {
      var t := x[|x| - 4..];
      assert t[1] == x[|x| - 3];
      assert ("_10m")[1] == '1' && ("_20m")[1] == '2' && ("_60m")[1] == '6';
    }
  }

  /** The 10 m bands come first, then the 20 m bands, then the 60 m bands. */
  lemma ResampleListOrdered(rasters: seq<string>, i: nat, j: nat)
    requires i < j < |ResampleList(rasters)|
    ensures Resolution(ResampleList(rasters)[i]) <= Resolution(ResampleList(rasters)[j])
  {
    var a, b, c := BandsAt(rasters, "10m"), BandsAt(rasters, "20m"), BandsAt(rasters, "60m");
    var list := ResampleList(rasters);
    forall k | 0 <= k < |list|
      ensures Resolution(list[k]) == if k < |a| then 0 else if k < |a| + |b| then 1 else 2
    {
      SuffixesExclusive(list[k]);
      if k < |a| {
        assert list[k] == a[k];
      } else if k < |a| + |b| {
        assert list[k] == b[k - |a|];
      } else {
        assert list[k] == c[k - |a| - |b|];
      }
    }
  }

  /** One `r.resamp.interp` call; `renamed` marks a 10 m band first renamed
      to `<name>TMP` so that it can be resampled into its own name. */
  datatype Resample = Resample(input: string, output: string, renamed: bool)

  /** The job for one listed raster. */
  function JobFor(raster: string): (j: Resample)
    ensures j.renamed <==> EndsWith(raster, "10m")
    ensures j.input == if j.renamed then raster + "TMP" else raster
  {
    var renamed := EndsWith(raster, "10m");
    var input := if renamed then raster + "TMP" else raster;
    var output :=
      if EndsWith(input, "20m") then Replace(raster, "20m", "10m")
      else if EndsWith(input, "60m") then Replace(raster, "60m", "10m")
      else raster;
    Resample(input, output, renamed)
  }

  lemma EndsWithTail(s: string, a: string, b: string)
    requires EndsWith(s, a + b)
    ensures EndsWith(s, b)
  {
    assert s[|s| - |b|..] == s[|s| - |a + b|..][|a|..];
  }

  /** Two suffixes of the same length that differ are not both suffixes. */
  lemma SuffixesDiffer(s: string, a: string, b: string)
    requires |a| == |b| && a != b && EndsWith(s, a)
    ensures !EndsWith(s, b)
  {
  }

  /** A three-letter pattern whose first letter does not recur is border-free,
      so replacing it in a name that ends with it leaves a name ending with
      the replacement, and a different name when the replacement differs. */
  lemma ReplacedSuffix(s: string, pat: string, rep: string)
    requires |pat| == 3 && |rep| == 3 && pat[1] != pat[0] && pat[2] != pat[0] && rep != pat
    requires EndsWith(s, pat)
    ensures EndsWith(Replace(s, pat, rep), rep)
    ensures Replace(s, pat, rep) != s
  {
    assert pat[1..] != pat[..2] by { assert pat[1..][0] == pat[1]; }
    assert pat[2..] != pat[..1] by { assert pat[2..][0] == pat[2]; }
    ReplaceKeepsSuffix(s, pat, rep);
    if Replace(s, pat, rep) == s {
      SuffixesDiffer(s, pat, rep);
    }
  }

  /** A 10 m band is renamed and resampled back into its own name. */
  lemma Job10m(raster: string, m: string, t: string, n: string, s: string)
    requires m == "10m" && t == "TMP" && n == "20m" && s == "60m"
    requires EndsWith(raster, m)
    ensures JobFor(raster) == Resample(raster + t, raster, true)
  {
    var input := raster + t;
    assert input[|input| - 3..] == t;
    SuffixesDiffer(input, t, n);
    SuffixesDiffer(input, t, s);
  }

  /** A 20 m band is resampled into the name with `20m` replaced by `10m`. */
  lemma Job20m(raster: string, m: string, n: string)
    requires m == "10m" && n == "20m"
    requires EndsWith(raster, n)
    ensures JobFor(raster) == Resample(raster, Replace(raster, n, m), false)
  {
    SuffixesDiffer(raster, n, m);
  }

  /** A 60 m band is resampled into the name with `60m` replaced by `10m`. */
  lemma Job60m(raster: string, m: string, n: string, s: string)
    requires m == "10m" && n == "20m" && s == "60m"
    requires EndsWith(raster, s)
    ensures JobFor(raster) == Resample(raster, Replace(raster, s, m), false)
  {
    SuffixesDiffer(raster, s, m);
    SuffixesDiffer(raster, s, n);
  }

  /** Every job of a listed band writes a 10 m name, and never into the
      raster it reads. */
  lemma JobWrites10m(raster: string, res: string)
    requires res == "10m" || res == "20m" || res == "60m"
    requires MatchesBand(raster, res)
    ensures EndsWith(JobFor(raster).output, "10m")
    ensures JobFor(raster).input != JobFor(raster).output
  {
    EndsWithTail(raster, "_", res);
    if res == "10m" {
      Job10m(raster, "10m", "TMP", "20m", "60m");
    } else if res == "20m" {
      Job20m(raster, "10m", "20m");
      ReplacedSuffix(raster, "20m", "10m");
    } else {
      Job60m(raster, "10m", "20m", "60m");
      ReplacedSuffix(raster, "60m", "10m");
    }
  }

  /** The body of the resampling loop for one raster. */
  method ResampleStep(raster: string) returns (job: Resample)
    ensures job == JobFor(raster)
  {
    var input := raster;
    var outname := raster;
    var renamed := false;
    if EndsWith(input, "10m") {
      input := input + "TMP";
      renamed := true;
    }
    if EndsWith(input, "20m") {
      outname := Replace(outname, "20m", "10m");
    } else if EndsWith(input, "60m") {
      outname := Replace(outname, "60m", "10m");
    }
    job := Resample(input, outname, renamed);
  }

  /** The jobs for a list of rasters, in order, and the rasters they read. */
  function Jobs(list: seq<string>): (jobs: seq<Resample>)
    ensures |jobs| == |list|
  {
    if |list| == 0 then [] else Jobs(list[..|list| - 1]) + [JobFor(list[|list| - 1])]
  }

  function Inputs(jobs: seq<Resample>): (inputs: seq<string>)
    ensures |inputs| == |jobs| && forall k :: 0 <= k < |jobs| ==> inputs[k] == jobs[k].input
  {
    seq(|jobs|, k requires 0 <= k < |jobs| => jobs[k].input)
  }

  /** The job at each position is the one for the raster at that position. */
  lemma {:induction false} JobsAt(list: seq<string>, k: nat)
    requires k < |list|
    ensures Jobs(list)[k] == JobFor(list[k])
  {
    var init, last := list[..|list| - 1], list[|list| - 1];
    var js, j := Jobs(init), JobFor(last);
    assert Jobs(list) == js + [j];
    if k < |init| {
      JobsAt(init, k);
      assert init[k] == list[k];
      assert (js + [j])[k] == js[k];
    } else {
      assert k == |js| && last == list[k];
      assert (js + [j])[k] == j;
    }
  }

  lemma InputsSnoc(jobs: seq<Resample>, job: Resample)
    ensures Inputs(jobs + [job]) == Inputs(jobs) + [job.input]
  {
  }

  datatype WorkerError = NoBandFound

  /** The -i step: nothing without the flag; the run stops when the mapset
      holds no raster; otherwise one job per listed band, and every job's
      input is appended to the rasters removed at cleanup. */
  method PlanResampling(resample: bool, rasters: seq<string>, rmBefore: seq<string>)
    returns (r: Result<seq<Resample>, WorkerError>, rm: seq<string>)
    ensures !resample ==> r == Ok([]) && rm == rmBefore
    ensures resample && |rasters| == 0 ==> r == Err(NoBandFound) && rm == rmBefore
    ensures resample && |rasters| > 0 ==>
      r == Ok(Jobs(ResampleList(rasters))) && rm == rmBefore + Inputs(Jobs(ResampleList(rasters)))
  {
    rm := rmBefore;
    if !resample {
      return Ok([]), rm;
    }
    if |rasters| < 1 {
      return Err(NoBandFound), rm;
    }
    var list := ResampleList(rasters);
    var jobs;
    jobs, rm := ResampleAll(list, rm);
    r := Ok(jobs);
  }

  /** The loop over the listed rasters: one job each, its input queued for
      removal. */
  method ResampleAll(list: seq<string>, rmBefore: seq<string>) returns (jobs: seq<Resample>, rm: seq<string>)
    ensures jobs == Jobs(list) && rm == rmBefore + Inputs(jobs)
  {
    jobs, rm := [], rmBefore;
    for k := 0 to |list|
      invariant jobs == Jobs(list[..k])
      invariant rm == rmBefore + Inputs(jobs)
    {
      var job := ResampleStep(list[k]);
      InputsSnoc(jobs, job);
      AppendAssoc(rmBefore, Inputs(jobs), [job.input]);
      assert list[..k + 1][..k] == list[..k];
      jobs := jobs + [job];
      rm := rm + [job.input];
    }
    assert list[..|list|] == list;
  }

  /** Every `*B*_10m`, `*B*_20m` and `*B*_60m` raster of the mapset gets
      its resampling job. */
  lemma EveryBandResampled(rasters: seq<string>, x: string)
    requires x in rasters && (MatchesBand(x, "10m") || MatchesBand(x, "20m") || MatchesBand(x, "60m"))
    ensures exists k :: 0 <= k < |Jobs(ResampleList(rasters))| && Jobs(ResampleList(rasters))[k] == JobFor(x)
  {
    var list := ResampleList(rasters);
    ResampleListComplete(rasters, x);
    var k :| 0 <= k < |list| && list[k] == x;
    JobsAt(list, k);
  }

  /** Every band the -i step lists ends up with a 10 m output different
      from the raster it reads. */
  lemma ResamplingOutputs(rasters: seq<string>, k: nat)
    requires k < |ResampleList(rasters)|
    ensures EndsWith(Jobs(ResampleList(rasters))[k].output, "10m")
    ensures Jobs(ResampleList(rasters))[k].input != Jobs(ResampleList(rasters))[k].output
  {
    var a, b, c := BandsAt(rasters, "10m"), BandsAt(rasters, "20m"), BandsAt(rasters, "60m");
    var list := ResampleList(rasters);
    var x := list[k];
    JobsAt(list, k);
    if k < |a| {
      assert x == a[k];
      JobWrites10m(x, "10m");
    } else if k < |a| + |b| {
      assert x == b[k - |a|];
      JobWrites10m(x, "20m");
    } else {
      assert x == c[k - |a| - |b|];
      JobWrites10m(x, "60m");
    }
  }
}
