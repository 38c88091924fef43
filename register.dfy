/** Temporal indexing of the imported scenes: the register lines handed to
    `t.register`, the GRASS-version gate for the band tag and the choice of
    the space-time dataset that receives the cloud layers. A raster name has
    the form `X_YYYYMMDDTHHMMSS_Bnn...`. */
module Register {
  import opened Wrappers
  import opened Strings
  import opened Lists

  /** A name without the `_` fields or the `T` that the slicing needs makes
      the script stop with an IndexError. */
  datatype RegisterError = MalformedName(name: string)

  /** Band register lines of the newer script carry the band tag when GRASS
      is at least 7.9; the legacy band lines and all cloud lines do not. */
  datatype LineStyle = Tagged(g79: bool) | Untagged

  /** `"%s-%s-%s" % (d[:4], d[4:6], d[6:])` */
  function DateText(d: string): string
  {
    Slice(d, 0, 4) + "-" + Slice(d, 4, 6) + "-" + From(d, 6)
  }

  /** `"%s:%s:%s" % (t[:2], t[2:4], t[4:])` */
  function ClockText(t: string): string
  {
    Slice(t, 0, 2) + ":" + Slice(t, 2, 4) + ":" + From(t, 4)
  }

  /** The start time written after the first `|`: the second `_` field of the
      name, split at `T` into date and clock. None where the name has fewer
      than two fields or that field has no `T`. */
  function TimeStamp(name: string): (r: Option<string>)
    ensures r.Some? <==> Field(name, '_', 1).Some? && 'T' in Field(name, '_', 1).value
  {
    match Field(name, '_', 1)
    case None => None
    case Some(f) =>
      var dt := Split(f, 'T');
      NoSeparatorNoSplit(f, 'T');
      if |dt| < 2 then None
      else Some(DateText(dt[0]) + " " + ClockText(dt[1]))
  }

  /** Text splits into more than one piece exactly when it holds the separator. */
  lemma NoSeparatorNoSplit(s: string, c: char)
    ensures |Split(s, c)| >= 2 <==> c in s
  {
    if c in s {
      var k :| 0 <= k < |s| && s[k] == c;
      var i := FirstIndex(s, c, k);
      assert s == s[..i] + [c] + s[i + 1..];
      SplitConcat(s[..i], c, s[i + 1..]);
    } else {
      SplitFree(s, c);
    }
  }

  /** Index of the first `c` in `s`, given that one occurs at or before `k`. */
  function FirstIndex(s: string, c: char, k: nat): (i: nat)
    requires k < |s| && s[k] == c
    ensures i <= k && s[i] == c && c !in s[..i]
  {
    if c in s[..k] then
      var j :| 0 <= j < k && s[j] == c;
      FirstIndex(s, c, j)
    else k
  }

  /** The band tag: the third `_` field with every `B0`, then every `B`,
      removed (`B04` gives `4`, `B8A` gives `8A`, `B11` gives `11`). */
  function BandTag(name: string): (r: Option<string>)
    ensures r.Some? <==> Field(name, '_', 2).Some?
    ensures r.Some? ==> 'B' !in r.value
  {
    match Field(name, '_', 2)
    case None => None
    case Some(b) =>
      ReplaceDeletesChar(Replace(b, "B0", ""), 'B');
      Some(Replace(Replace(b, "B0", ""), "B", ""))
  }

  /** One register line, `name|YYYY-MM-DD HH:MM:SS` with `|S2_<tag>` appended
      for a tagged line on GRASS 7.9 or later. The newer band loop reads the
      band field before the date, so a tagged line needs three fields even
      when the tag is not written. */
  function LineOf(name: string, style: LineStyle): (r: Result<string, RegisterError>)
    ensures r.Ok? <==> TimeStamp(name).Some? && (style.Tagged? ==> BandTag(name).Some?)
    ensures r.Err? ==> r.error == MalformedName(name)
  {
    var tag := if style.Tagged? then BandTag(name) else Some("");
    match (tag, TimeStamp(name))
    case (Some(b), Some(ts)) =>
      var base := name + "|" + ts;
      Ok(if style.Tagged? && style.g79 then base + "|S2_" + b else base)
    case _ => Err(MalformedName(name))
  }

  /** The register file, one line per name in order; writing stops at the
      first malformed name. */
  function Lines(names: seq<string>, style: LineStyle): (r: Result<seq<string>, RegisterError>)
    ensures r.Ok? <==> forall i :: 0 <= i < |names| ==> LineOf(names[i], style).Ok?
    ensures r.Ok? ==> |r.value| == |names| && forall i :: 0 <= i < |names| ==> r.value[i] == LineOf(names[i], style).value
    ensures r.Err? ==> exists i :: 0 <= i < |names| && LineOf(names[i], style) == Err(r.error)
                                    && forall j :: 0 <= j < i ==> LineOf(names[j], style).Ok?
  {
    Collect(LineResults(names, style))
  }

  /** The outcome of every name's line. */
  function LineResults(names: seq<string>, style: LineStyle): (rs: seq<Result<string, RegisterError>>)
    ensures |rs| == |names| && forall i :: 0 <= i < |names| ==> rs[i] == LineOf(names[i], style)
  {
    seq(|names|, i requires 0 <= i < |names| => LineOf(names[i], style))
  }

  /** All the lines, or the first error among them. */
  function Collect(rs: seq<Result<string, RegisterError>>): (r: Result<seq<string>, RegisterError>)
    ensures r.Ok? <==> forall i :: 0 <= i < |rs| ==> rs[i].Ok?
    ensures r.Ok? ==> |r.value| == |rs| && forall i :: 0 <= i < |rs| ==> r.value[i] == rs[i].value
    ensures r.Err? ==> exists i :: 0 <= i < |rs| && rs[i] == Err(r.error) && forall j :: 0 <= j < i ==> rs[j].Ok?
  {
    if |rs| == 0 then Ok([])
    else
      var init := rs[..|rs| - 1];
      assert forall i :: 0 <= i < |init| ==> init[i] == rs[i];
      match Collect(init)
      case Err(e) => Err(e)
      case Ok(ls) =>
        match rs[|rs| - 1]
        case Err(e) => Err(e)
        case Ok(l) => Ok(ls + [l])
  }

  /** When every name before `i` has a line and name `i` has none, the file
      is that name's error. */
  lemma LinesFirstError(names: seq<string>, style: LineStyle, i: nat)
    requires i < |names| && LineOf(names[i], style).Err?
    requires forall j :: 0 <= j < i ==> LineOf(names[j], style).Ok?
    ensures Lines(names, style) == Err(LineOf(names[i], style).error)
  {
    var r := Lines(names, style);
    var i' :| 0 <= i' < |names| && LineOf(names[i'], style) == Err(r.error)
              && forall j :: 0 <= j < i' ==> LineOf(names[j], style).Ok?;
    assert i' == i;
  }

  /** When every name has a line, the file is those lines. */
  lemma LinesAllOk(names: seq<string>, style: LineStyle, lines: seq<string>)
    requires |lines| == |names|
    requires forall j :: 0 <= j < |names| ==> LineOf(names[j], style).Ok? && lines[j] == LineOf(names[j], style).value
    ensures Lines(names, style) == Ok(lines)
  {
    var r := Lines(names, style);
    assert r.value == lines;
  }

  /** The loop that writes a register file (`file.write("%s\n" % write_str)`
      for every name); the file is returned as its lines. */
  method WriteLines(names: seq<string>, style: LineStyle) returns (r: Result<seq<string>, RegisterError>)
    ensures r == Lines(names, style)
  {
    var lines: seq<string> := [];
    var i := 0;
    while i < |names|
      invariant 0 <= i <= |names| && |lines| == i
      invariant forall j :: 0 <= j < i ==> LineOf(names[j], style).Ok? && lines[j] == LineOf(names[j], style).value
    {
      match LineOf(names[i], style)
      case Err(e) =>
        LinesFirstError(names, style, i);
        return Err(e);
      case Ok(l) =>
        lines := lines + [l];
      i := i + 1;
    }
    LinesAllOk(names, style, lines);
    r := Ok(lines);
  }

  /** The band register of the newer script: one line per distinct band
      raster, tagged when GRASS is at least 7.9. */
  method WriteBandRegister(maplist: seq<string>, g79: bool) returns (r: Result<seq<string>, RegisterError>)
    ensures r == Lines(Dedup(maplist), Tagged(g79))
  {
    r := WriteLines(Dedup(maplist), Tagged(g79));
  }

  /** The band register of the legacy script: one untagged line per distinct
      band raster. */
  method WriteBandRegisterLegacy(maplist: seq<string>) returns (r: Result<seq<string>, RegisterError>)
    ensures r == Lines(Dedup(maplist), Untagged)
  {
    r := WriteLines(Dedup(maplist), Untagged);
  }

  /** The cloud register of both scripts: one untagged line per cloud layer,
      duplicates included. */
  method WriteCloudRegister(cloudlist: seq<string>) returns (r: Result<seq<string>, RegisterError>)
    ensures r == Lines(cloudlist, Untagged)
  {
    r := WriteLines(cloudlist, Untagged);
  }

  /** The first two fields of `p_f_after` are `p` and `f`. */
  lemma {:induction false} TwoFields(p: string, f: string, after: string)
    requires '_' !in p && '_' !in f
    ensures Split(p + "_" + f + "_" + after, '_') == [p, f] + Split(after, '_')
  {
    var x := f + ['_'] + after;
    assert p + "_" + f + "_" + after == p + ['_'] + x;
    SplitConcat(p, '_', x);
    SplitConcat(f, '_', after);
  }

  /** The third field of a name is its band field, up to the next `_`. */
  lemma {:induction false} FirstPiece(b: string, tail: string)
    requires '_' !in b && (tail == "" || tail[0] == '_')
    ensures Split(b + tail, '_')[0] == b
  {
    if tail == "" {
      assert b + tail == b;
      SplitFree(b, '_');
    } else {
      assert b + tail == b + ['_'] + tail[1..];
      SplitConcat(b, '_', tail[1..]);
    }
  }

  /** The date and clock halves of a second field `dTt`. */
  lemma {:induction false} DateClock(d: string, t: string)
    requires 'T' !in d && 'T' !in t
    ensures Split(d + "T" + t, 'T') == [d, t]
  {
    SplitConcat(d, 'T', t);
    SplitFree(t, 'T');
  }

  /** A second field `dTt` gives the stamp sliced out of `d` and `t`. */
  lemma StampOfField(name: string, d: string, t: string)
    requires 'T' !in d && 'T' !in t
    requires |d| == 8 && |t| == 6
    requires Field(name, '_', 1) == Some(d + "T" + t)
    ensures TimeStamp(name)
         == Some(d[..4] + "-" + d[4..6] + "-" + d[6..] + " " + t[..2] + ":" + t[2..4] + ":" + t[4..])
  {
    DateClock(d, t);
    assert DateText(d) == d[..4] + "-" + d[4..6] + "-" + d[6..];
    assert ClockText(t) == t[..2] + ":" + t[2..4] + ":" + t[4..];
    assert TimeStamp(name) == Some(DateText(d) + " " + ClockText(t));
    assert DateText(d) + " " + ClockText(t)
        == d[..4] + "-" + d[4..6] + "-" + d[6..] + " " + t[..2] + ":" + t[2..4] + ":" + t[4..];
  }

  /** A name `P_DDDDDDDDTHHHHHH_B...` yields the date and clock sliced out of
      its second field, and its band tag out of the third. */
  lemma {:induction false} WellFormedName(p: string, d: string, t: string, b: string, tail: string)
    requires '_' !in p && '_' !in d && '_' !in t && '_' !in b
    requires 'T' !in d && 'T' !in t
    requires |d| == 8 && |t| == 6
    requires tail == "" || tail[0] == '_'
    ensures TimeStamp(p + "_" + d + "T" + t + "_" + b + tail)
         == Some(d[..4] + "-" + d[4..6] + "-" + d[6..] + " " + t[..2] + ":" + t[2..4] + ":" + t[4..])
    ensures BandTag(p + "_" + d + "T" + t + "_" + b + tail) == Some(Replace(Replace(b, "B0", ""), "B", ""))
  {
    var f := d + "T" + t;
    var name := p + "_" + f + "_" + (b + tail);
    assert p + "_" + d + "T" + t + "_" + b + tail == name;
    TwoFields(p, f, b + tail);
    FirstPiece(b, tail);
    assert Field(name, '_', 1) == Some(f);
    assert Field(name, '_', 2) == Some(b);
    StampOfField(name, d, t);
  }

  /** The line for a band raster of 15 June 2021, 10:30:21, band 4, with
      and below GRASS 7.9, whatever the name's first field. */
  lemma TaggedLineExample(p: string)
    requires '_' !in p
    ensures LineOf(p + "_20210615T103021_B04", Tagged(true))
         == Ok(p + "_20210615T103021_B04" + "|" + "2021-06-15 10:30:21" + "|S2_" + "4")
    ensures LineOf(p + "_20210615T103021_B04", Tagged(false))
         == Ok(p + "_20210615T103021_B04" + "|" + "2021-06-15 10:30:21")
  {
    var d, t, b := "20210615", "103021", "B04";
    assert p + "_20210615T103021_B04" == p + "_" + d + "T" + t + "_" + b + "";
    WellFormedName(p, d, t, b, "");
    ExampleStamp(d, t);
    ExampleTag(b);
  }

  lemma ExampleStamp(d: string, t: string)
    requires d == "20210615" && t == "103021"
    ensures d[..4] + "-" + d[4..6] + "-" + d[6..] + " " + t[..2] + ":" + t[2..4] + ":" + t[4..]
         == "2021-06-15 10:30:21"
  {
  }

  lemma ExampleTag(b: string)
    requires b == "B04"
    ensures Replace(Replace(b, "B0", ""), "B", "") == "4"
  {
    assert b[..2] == "B0" && b[2..] == "4";
    assert Replace(b, "B0", "") == "4";
    assert Replace("4", "B", "") == "4";
  }

  /** A tagged line is the untagged line followed by the tag, and a name the
      legacy script cannot register the newer one cannot register either. */
  lemma TaggedExtendsUntagged(name: string, g79: bool)
    ensures LineOf(name, Untagged).Err? ==> LineOf(name, Tagged(g79)).Err?
    ensures LineOf(name, Tagged(g79)).Ok? ==>
      LineOf(name, Tagged(g79)).value ==
        LineOf(name, Untagged).value + (if g79 then "|S2_" + BandTag(name).value else "")
  {
  }

  /** A name with only two fields registers in the legacy script and stops
      the newer one, even below GRASS 7.9. */
  lemma TwoFieldNameExample(p: string)
    requires '_' !in p
    ensures LineOf(p + "_20210615T103021", Untagged) == Ok(p + "_20210615T103021" + "|" + "2021-06-15 10:30:21")
    ensures LineOf(p + "_20210615T103021", Tagged(false)).Err?
  {
    TwoFieldStamp(p, p + "_20210615T103021");
  }

  /** The fields of the two-field example name. */
  lemma TwoFieldStamp(p: string, name: string)
    requires '_' !in p && name == p + "_20210615T103021"
    ensures TimeStamp(name) == Some("2021-06-15 10:30:21")
    ensures BandTag(name).None?
  {
    var d, t := "20210615", "103021";
    var f := d + "T" + t;
    assert '_' !in f;
    assert name == p + ['_'] + f;
    SplitConcat(p, '_', f);
    SplitFree(f, '_');
    assert Split(name, '_') == [p, f];
    StampOfField(name, d, t);
    ExampleStamp(d, t);
  }

  /** Every distinct band raster gets exactly one line, and every line belongs
      to a band raster. */
  lemma OneLinePerName(maplist: seq<string>, g79: bool, x: string)
    requires Lines(Dedup(maplist), Tagged(g79)).Ok?
    ensures x in maplist ==> Count(Dedup(maplist), x) == 1
    ensures x in maplist ==> LineOf(x, Tagged(g79)).value in Lines(Dedup(maplist), Tagged(g79)).value
    ensures x !in maplist ==> Count(Dedup(maplist), x) == 0
  {
    var u := Dedup(maplist);
    if x in maplist {
      var k :| 0 <= k < |maplist| && maplist[k] == x;
      assert x in u;
      CountOnce(u, x);
      var j :| 0 <= j < |u| && u[j] == x;
      assert Lines(u, Tagged(g79)).value[j] == LineOf(x, Tagged(g79)).value;
    } else {
      assert x !in u;
      CountZero(u, x);
    }
  }

  // ---------------------------------------------------------------------------
  // GRASS version gate

  /** `int(a)` of a version component fails with ValueError. */
  datatype VersionError = NotANumber(component: string)

  /** Python's ordering of integer tuples: element by element, a proper prefix
      being the smaller. */
  predicate TupleGe(a: seq<int>, b: seq<int>)
    decreases |a|
  {
    if |b| == 0 then true
    else if |a| == 0 then false
    else if a[0] != b[0] then a[0] > b[0]
    else TupleGe(a[1..], b[1..])
  }

  /** The integers of the given version components, or the first one that
      is not a number. */
  function ParseComponents(cs: seq<string>): (r: Result<seq<int>, VersionError>)
    ensures r.Ok? ==> |r.value| == |cs| && forall i :: 0 <= i < |cs| ==> ParseInt(cs[i]) == Some(r.value[i])
    ensures r.Err? ==> exists i :: 0 <= i < |cs| && ParseInt(cs[i]).None?
  {
    if |cs| == 0 then Ok([])
    else match ParseInt(cs[0])
      case None => Err(NotANumber(cs[0]))
      case Some(v) =>
        match ParseComponents(cs[1..])
        case Err(e) => Err(e)
        case Ok(vs) => Ok([v] + vs)
  }

  /** `tuple(int(a) for a in version.split(".")[:2]) >= (7, 9)` */
  function AtLeast79(version: string): (r: Result<bool, VersionError>)
  {
    var parts := Split(version, '.');
    match ParseComponents(parts[..Min(2, |parts|)])
    case Err(e) => Err(e)
    case Ok(vs) => Ok(TupleGe(vs, [7, 9]))
  }

  /** The first two components of `a.b[.rest]` are `a` and `b`. */
  lemma {:induction false} LeadingComponents(a: string, b: string, rest: string)
    requires '.' !in a && '.' !in b
    requires rest == "" || rest[0] == '.'
    ensures |Split(a + "." + b + rest, '.')| >= 2
    ensures Split(a + "." + b + rest, '.')[..2] == [a, b]
  {
    assert a + "." + b + rest == a + ['.'] + (b + rest);
    SplitConcat(a, '.', b + rest);
    FirstPieceAt(b, rest, '.');
  }

  lemma {:induction false} FirstPieceAt(b: string, tail: string, c: char)
    requires c !in b && (tail == "" || tail[0] == c)
    ensures Split(b + tail, c)[0] == b
  {
    if tail == "" {
      assert b + tail == b;
      SplitFree(b, c);
    } else {
      assert b + tail == b + [c] + tail[1..];
      SplitConcat(b, c, tail[1..]);
    }
  }

  lemma {:induction false} NoDotInNumber(n: nat)
    ensures '.' !in NatToString(n)
  {
    var s := NatToString(n);
    assert forall i :: 0 <= i < |s| ==> IsDigit(s[i]);
  }

  /** For a version `major.minor[.rest]` the gate compares major and minor as
      numbers. */
  lemma {:induction false} VersionGate(major: nat, minor: nat, rest: string)
    requires rest == "" || rest[0] == '.'
    ensures AtLeast79(NatToString(major) + "." + NatToString(minor) + rest)
         == Ok(major > 7 || (major == 7 && minor >= 9))
  {
    var a, b := NatToString(major), NatToString(minor);
    NoDotInNumber(major);
    NoDotInNumber(minor);
    LeadingComponents(a, b, rest);
    ParseIntRoundTrip(major);
    ParseIntRoundTrip(minor);
    assert [a, b][1..] == [b] && [b][1..] == [];
    assert ParseComponents([b]) == Ok([minor] + []);
    assert [minor] + [] == [minor];
    assert ParseInt([a, b][0]) == Some(major);
    assert ParseComponents([a, b][1..]) == Ok([minor]);
    assert ParseComponents([a, b]) == Ok([major] + [minor]);
    var v := a + "." + b + rest;
    var parts := Split(v, '.');
    assert parts[..Min(2, |parts|)] == [a, b];
    assert [major] + [minor] == [major, minor];
    assert TupleGe([major, minor], [7, 9]) == (major > 7 || (major == 7 && minor >= 9)) by {
      assert [major, minor][1..] == [minor] && [7, 9][1..] == [9];
      assert [minor][1..] == [] && [9][1..] == [];
    }
  }

  /** `7.10` passes the gate (a text comparison would not), `7.8.5` does not,
      a bare major version `7` is below `(7, 9)` and a non-numeric component
      stops the script. */
  lemma VersionGateExamples(v1: string, v2: string, v3: string, v4: string)
    requires v1 == "7.10" && v2 == "7.8.5" && v3 == "7" && v4 == "7.9rc1"
    ensures AtLeast79(v1) == Ok(true)
    ensures AtLeast79(v2) == Ok(false)
    ensures AtLeast79(v3) == Ok(false)
    ensures AtLeast79(v4).Err?
  {
    PrintedNumbers();
    VersionGate(7, 10, "");
    assert v1 == NatToString(7) + "." + NatToString(10) + "";
    VersionGate(7, 8, ".5");
    assert v2 == NatToString(7) + "." + NatToString(8) + ".5";
    BareMajorGate(v3);
    ReleaseCandidateGate(v4);
  }

  /** A bare major version `7` is one component, below `(7, 9)`. */
  lemma BareMajorGate(v: string)
    requires v == "7"
    ensures AtLeast79(v) == Ok(false)
  {
    SplitFree(v, '.');
    PrintedNumbers();
    ParseIntRoundTrip(7);
    assert [v][1..] == [];
    assert ParseInt(v) == Some(7);
    assert ParseComponents([v]) == Ok([7] + []);
    assert TupleGe([7], [7, 9]) == TupleGe([], [9]);
  }

  /** The minor component of `7.9rc1` is not a number. */
  lemma ReleaseCandidateGate(v: string)
    requires v == "7.9rc1"
    ensures AtLeast79(v).Err?
  {
    LeadingComponents("7", "9rc1", "");
    assert v == "7" + "." + "9rc1" + "";
    assert !IsDigit("9rc1"[1]) && "9rc1"[0] != '-' && "9rc1"[0] != '+';
    assert ParseInt("9rc1").None?;
    assert ["7", "9rc1"][1..] == ["9rc1"];
    assert ParseComponents(["9rc1"]).Err?;
  }

  lemma PrintedNumbers()
    ensures NatToString(7) == "7" && NatToString(8) == "8" && NatToString(10) == "10"
  {
  }

  // ---------------------------------------------------------------------------
  // cloud dataset

  /** Kind of map a space-time dataset holds: `strds` rasters, `stvds` vectors. */
  datatype DatasetType = RasterType | VectorType

  datatype CloudDataset = CloudDataset(name: string, dtype: DatasetType)

  /** The newer script's cloud dataset: `strds_clouds` as a raster dataset if
      given, else `stvds_clouds` as a vector dataset if given, else
      `<strds>_clouds` as a vector dataset. */
  function CloudTarget(strds: string, strdsClouds: string, stvdsClouds: string): (r: CloudDataset)
    ensures r.dtype == RasterType <==> strdsClouds != ""
    ensures strdsClouds != "" ==> r.name == strdsClouds
    ensures strdsClouds == "" && stvdsClouds != "" ==> r.name == stvdsClouds
    ensures strdsClouds == "" && stvdsClouds == "" ==> r.name == strds + "_clouds"
  {
    if strdsClouds != "" then CloudDataset(strdsClouds, RasterType)
    else if stvdsClouds != "" then CloudDataset(stvdsClouds, VectorType)
    else CloudDataset(strds + "_clouds", VectorType)
  }

  /** The legacy script always registers the clouds as vectors in `<strds>_clouds`. */
  function CloudTargetLegacy(strds: string): (r: CloudDataset)
    ensures r.dtype == VectorType && r.name == strds + "_clouds"
  {
    CloudDataset(strds + "_clouds", VectorType)
  }

  /** Without dedicated cloud datasets the two scripts agree. */
  lemma CloudTargetsAgree(strds: string)
    ensures CloudTarget(strds, "", "") == CloudTargetLegacy(strds)
  {
  }

  /** Every cloud layer gets a line, duplicates included. */
  lemma CloudLinesPerLayer(cloudlist: seq<string>)
    requires Lines(cloudlist, Untagged).Ok?
    ensures |Lines(cloudlist, Untagged).value| == |cloudlist|
    ensures forall i :: 0 <= i < |cloudlist| ==>
      Lines(cloudlist, Untagged).value[i] == cloudlist[i] + "|" + TimeStamp(cloudlist[i]).value
  {
  }
}
