/** Construction of the import work units: one `i.sentinel.import.worker`
    call per entry of the download directory, each with its own temporary
    mapset `S2_import_<n>`. */
module ImportUnits {
  import opened Wrappers
  import opened Strings
  import opened Lists

  /** An entry of `os.listdir(download_dir)`, with what `os.path.exists` and
      `os.path.isdir` report of it. */
  datatype DirEntry = DirEntry(name: string, present: bool, isDir: bool)

  /** The arguments of one queued worker call; absent keys are None. */
  datatype ImportUnit = ImportUnit(
    mapsetid: string,
    memory: int,
    pattern: string,
    flags: string,
    metadata: string,
    region: Option<string>,
    cloudOutput: Option<string>,
    patternFile: Option<string>,
    input: string)

  /** What the work-unit loop reads besides the listing. */
  datatype ImportConfig = ImportConfig(
    downloadDir: string,
    singleFolders: bool,    // each entry is a folder holding one scene
    memoryPerProc: int,
    pattern: string,
    metadata: string,       // `<GISDBASE>/<LOCATION>/<MAPSET>/cell_misc`
    extentRegion: bool,     // `extent == "region"`
    currentRegion: string,  // `tmp_region_<pid>`
    interpolate: bool,      // flag -i
    clouds: bool,           // flag -c
    strdsClouds: string)

  /** Python `os.path.join(a, b)`. */
  function PathJoin(a: string, b: string): (r: string)
    ensures EndsWith(r, b)
  {
    if |b| > 0 && b[0] == '/' then b
    else if |a| == 0 || a[|a| - 1] == '/' then a + b
    else a + "/" + b
  }

  /** `'S2_import_%s' % (idx + 1)` */
  function MapsetId(n: nat): string
  {
    "S2_import_" + NatToString(n)
  }

  lemma MapsetIdInjective(a: nat, b: nat)
    ensures MapsetId(a) == MapsetId(b) ==> a == b
  {
    if MapsetId(a) == MapsetId(b) {
      assert MapsetId(a)[10..] == NatToString(a);
      assert MapsetId(b)[10..] == NatToString(b);
      NatToStringInjective(a, b);
    }
  }

  /** The newer script's import flags: `rn`, then `i` for -i, then `c` for -c. */
  function ImportFlags(interpolate: bool, clouds: bool): (f: string)
    ensures f == "rn" + ImportFlagsLegacy(interpolate, clouds)[1..]
  {
    "rn" + (if interpolate then "i" else "") + (if clouds then "c" else "")
  }

  /** The legacy script's import flags: `r`, then `i` for -i, then `c` for -c. */
  function ImportFlagsLegacy(interpolate: bool, clouds: bool): (f: string)
    ensures 1 <= |f| <= 3 && f[0] == 'r'
  {
    "r" + (if interpolate then "i" else "") + (if clouds then "c" else "")
  }

  /** The worker is asked for exactly the flags the user set, each once:
      `r` always, `n` only by the newer script. */
  lemma FlagsRequested(interpolate: bool, clouds: bool)
    ensures ('i' in ImportFlags(interpolate, clouds) <==> interpolate) && ('c' in ImportFlags(interpolate, clouds) <==> clouds)
    ensures 'r' in ImportFlags(interpolate, clouds) && 'n' in ImportFlags(interpolate, clouds)
    ensures ('i' in ImportFlagsLegacy(interpolate, clouds) <==> interpolate) && ('c' in ImportFlagsLegacy(interpolate, clouds) <==> clouds)
    ensures 'r' in ImportFlagsLegacy(interpolate, clouds) && 'n' !in ImportFlagsLegacy(interpolate, clouds)
    ensures NoDuplicates(ImportFlags(interpolate, clouds)) && NoDuplicates(ImportFlagsLegacy(interpolate, clouds))
    ensures ImportFlags(interpolate, clouds) == "rn" + ImportFlagsLegacy(interpolate, clouds)[1..]
  {
    FlagText(interpolate, clouds, ImportFlags(interpolate, clouds), ImportFlagsLegacy(interpolate, clouds));
  }

  lemma FlagText(interpolate: bool, clouds: bool, f: string, g: string)
    requires f == ImportFlags(interpolate, clouds) && g == ImportFlagsLegacy(interpolate, clouds)
    ensures f == if interpolate && clouds then "rnic" else if interpolate then "rni" else if clouds then "rnc" else "rn"
    ensures g == if interpolate && clouds then "ric" else if interpolate then "ri" else if clouds then "rc" else "r"
  {
  }

  // ---------------------------------------------------------------------------
  // pattern_file

  /** `pattern_file` of a downloaded product: before the first `.SAFE` for a
      `.SAFE` name; for a `.zip` name, before the first `.zip` and then before
      any `.SAFE`; None for any other name, which is skipped with a warning. */
  function PatternFile(name: string): (r: Option<string>)
    ensures r.Some? <==> EndsWith(name, ".SAFE") || EndsWith(name, ".zip")
    ensures r.Some? ==> r.value <= name && !Contains(r.value, ".SAFE")
  {
    if EndsWith(name, ".SAFE") then
      BeforeFirstWithout(name, ".SAFE");
      Some(BeforeFirst(name, ".SAFE"))
    else if EndsWith(name, ".zip") then
      var p := BeforeFirst(name, ".zip");
      BeforeFirstWithout(p, ".SAFE");
      Some(if Contains(p, ".SAFE") then BeforeFirst(p, ".SAFE") else p)
    else None
  }

  /** No occurrence of a dotted suffix starts inside a dot-free stem. */
  lemma NoDottedInStem(s: string, stem: string, pat: string)
    requires stem <= s && '.' !in stem && |pat| > 0 && pat[0] == '.'
    ensures forall j: nat :: j < |stem| ==> !OccursAt(s, pat, j)
  {
    forall j: nat | j < |stem| ensures !OccursAt(s, pat, j) {
      if j + |pat| <= |s| {
        assert s[j..j + |pat|][0] == stem[j];
      }
    }
  }

  /** For a dot-free stem the three product spellings all give the stem. */
  lemma PatternFileOfProducts(stem: string)
    requires '.' !in stem
    ensures PatternFile(stem + ".SAFE") == Some(stem)
    ensures PatternFile(stem + ".zip") == Some(stem)
    ensures PatternFile(stem + ".SAFE.zip") == Some(stem)
  {
    SafeCut(stem);
    ZipCut(stem);
    SafeZipCut(stem);
    NoDotNoSafe(stem);
  }

  /** `X.SAFE` is cut at its `.SAFE`. */
  lemma SafeCut(stem: string)
    requires '.' !in stem
    ensures EndsWith(stem + ".SAFE", ".SAFE") && Contains(stem + ".SAFE", ".SAFE")
    ensures BeforeFirst(stem + ".SAFE", ".SAFE") == stem
  {
    var n := |stem|;
    var a := stem + ".SAFE";
    assert EndsWith(a, ".SAFE") by { assert a[n..] == ".SAFE"; }
    assert OccursAt(a, ".SAFE", n) by { assert a[n..n + 5] == ".SAFE"; }
    NoDottedInStem(a, stem, ".SAFE");
    FindAt(a, ".SAFE", n);
    assert a[..n] == stem;
  }

  /** `X.zip` does not end in `.SAFE` and is cut at its `.zip`. */
  lemma ZipCut(stem: string)
    requires '.' !in stem
    ensures !EndsWith(stem + ".zip", ".SAFE") && EndsWith(stem + ".zip", ".zip")
    ensures BeforeFirst(stem + ".zip", ".zip") == stem
  {
    var n := |stem|;
    var b := stem + ".zip";
    assert !EndsWith(b, ".SAFE") by {
      if |b| >= 5 { assert b[|b| - 5..][0] == stem[n - 1]; }
    }
    assert EndsWith(b, ".zip") by { assert b[n..] == ".zip"; }
    assert OccursAt(b, ".zip", n) by { assert b[n..n + 4] == ".zip"; }
    NoDottedInStem(b, stem, ".zip");
    FindAt(b, ".zip", n);
    assert b[..n] == stem;
  }

  /** A text starting with a dot does not occur where there is no dot. */
  lemma NoDotAt(s: string, pat: string, j: nat)
    requires |pat| > 0 && pat[0] == '.'
    requires j < |s| && s[j] != '.'
    ensures !OccursAt(s, pat, j)
  {
    if j + |pat| <= |s| {
      assert s[j..j + |pat|][0] == s[j];
    }
  }

  /** `X.SAFE.zip` does not end in `.SAFE` and is cut at its `.zip` to
      `X.SAFE`. */
  lemma SafeZipCut(stem: string)
    requires '.' !in stem
    ensures !EndsWith(stem + ".SAFE.zip", ".SAFE") && EndsWith(stem + ".SAFE.zip", ".zip")
    ensures BeforeFirst(stem + ".SAFE.zip", ".zip") == stem + ".SAFE"
  {
    var n := |stem|;
    var c := stem + ".SAFE.zip";
    assert !EndsWith(c, ".SAFE") by { assert c[|c| - 5..][0] == 'E'; }
    assert EndsWith(c, ".zip") by { assert c[n + 5..] == ".zip"; }
    assert OccursAt(c, ".zip", n + 5) by { assert c[n + 5..n + 9] == ".zip"; }
    assert c[n + 1] == 'S' && c[n + 2] == 'A' && c[n + 3] == 'F' && c[n + 4] == 'E';
    forall j: nat | j < n + 5 ensures !OccursAt(c, ".zip", j) {
      if j < n {
        assert c[j] == stem[j] && stem[j] != '.';
        NoDotAt(c, ".zip", j);
      } else if j == n {
        assert j + 4 <= |c| && c[j..j + 4][1] == c[n + 1];
      } else {
        NoDotAt(c, ".zip", j);
      }
    }
    FindAt(c, ".zip", n + 5);
    assert c[..n + 5] == stem + ".SAFE";
  }

  lemma NoDotNoSafe(stem: string)
    requires '.' !in stem
    ensures !Contains(stem, ".SAFE")
  {
    NoDottedInStem(stem + ".", stem, ".SAFE");
    PrefixWithout(stem, stem + ".", ".SAFE");
  }

  // ---------------------------------------------------------------------------
  // the work-unit loops

  /** Which entries get a mapset id: those that exist (newer script) or those
      that are directories (legacy script). */
  predicate Listed(e: DirEntry, legacy: bool)
  {
    if legacy then e.isDir else e.present
  }

  /** The work unit of the entry at position `idx`, if it gets one. The
      legacy script passes the entry's folder and always the saved region. */
  function UnitAt(e: DirEntry, idx: nat, cfg: ImportConfig, legacy: bool): (u: Option<ImportUnit>)
    ensures u.Some? ==> Listed(e, legacy) && u.value.mapsetid == MapsetId(idx + 1)
    ensures u.Some? ==> u.value.memory == cfg.memoryPerProc && u.value.pattern == cfg.pattern && u.value.metadata == cfg.metadata
    ensures Listed(e, legacy) && (legacy || cfg.singleFolders) ==> u.Some?
    ensures legacy && u.Some? ==> u.value.region == Some(cfg.currentRegion) && u.value.cloudOutput.None?
                                  && u.value.flags == ImportFlagsLegacy(cfg.interpolate, cfg.clouds)
    ensures !legacy && u.Some? ==> (u.value.region.Some? <==> cfg.extentRegion)
                                   && (u.value.cloudOutput.Some? <==> cfg.clouds)
                                   && u.value.flags == ImportFlags(cfg.interpolate, cfg.clouds)
    ensures !legacy && !cfg.singleFolders && e.present ==> (u.Some? <==> PatternFile(e.name).Some?)
    ensures u.Some? && (legacy || cfg.singleFolders) ==> u.value.input == PathJoin(cfg.downloadDir, e.name) && u.value.patternFile.None?
    ensures u.Some? && !legacy && !cfg.singleFolders ==> u.value.input == cfg.downloadDir && u.value.patternFile == PatternFile(e.name)
  {
    var id := MapsetId(idx + 1);
    if legacy then
      if !e.isDir then None
      else Some(ImportUnit(id, cfg.memoryPerProc, cfg.pattern, ImportFlagsLegacy(cfg.interpolate, cfg.clouds),
                           cfg.metadata, Some(cfg.currentRegion), None, None, PathJoin(cfg.downloadDir, e.name)))
    else if !e.present then None
    else
      var region := if cfg.extentRegion then Some(cfg.currentRegion) else None;
      var cloud := if cfg.clouds then Some(if cfg.strdsClouds != "" then "raster" else "vector") else None;
      var flags := ImportFlags(cfg.interpolate, cfg.clouds);
      if cfg.singleFolders then
        Some(ImportUnit(id, cfg.memoryPerProc, cfg.pattern, flags, cfg.metadata, region, cloud, None, PathJoin(cfg.downloadDir, e.name)))
      else match PatternFile(e.name)
        case None => None
        case Some(p) => Some(ImportUnit(id, cfg.memoryPerProc, cfg.pattern, flags, cfg.metadata, region, cloud, Some(p), cfg.downloadDir))
  }

  /** The `mapsetids` list after the loop. */
  function Ids(entries: seq<DirEntry>, legacy: bool): (ids: seq<string>)
    ensures |ids| <= |entries|
  {
    if |entries| == 0 then []
    else
      Ids(entries[..|entries| - 1], legacy)
        + (if Listed(entries[|entries| - 1], legacy) then [MapsetId(|entries|)] else [])
  }

  /** The queued work units after the loop. */
  function Units(entries: seq<DirEntry>, cfg: ImportConfig, legacy: bool): (us: seq<ImportUnit>)
    ensures |us| <= |entries|
  {
    if |entries| == 0 then []
    else
      var u := UnitAt(entries[|entries| - 1], |entries| - 1, cfg, legacy);
      Units(entries[..|entries| - 1], cfg, legacy) + (if u.Some? then [u.value] else [])
  }

  /** The work-unit loop of both import scripts: the mapset id is recorded for
      every listed entry before the newer script's format check may skip it. */
  method CollectUnits(entries: seq<DirEntry>, cfg: ImportConfig, legacy: bool) returns (mapsetids: seq<string>, units: seq<ImportUnit>)
    ensures mapsetids == Ids(entries, legacy)
    ensures units == Units(entries, cfg, legacy)
  {
    mapsetids, units := [], [];
    for idx := 0 to |entries|
      invariant mapsetids == Ids(entries[..idx], legacy)
      invariant units == Units(entries[..idx], cfg, legacy)
    {
      assert entries[..idx + 1][..idx] == entries[..idx];
      var e := entries[idx];
      if (legacy && e.isDir) || (!legacy && e.present) {
        var mapsetid := MapsetId(idx + 1);
        mapsetids := mapsetids + [mapsetid];
        var input := if legacy || cfg.singleFolders then PathJoin(cfg.downloadDir, e.name) else cfg.downloadDir;
        var patternFile: Option<string> := None;
        if !legacy && !cfg.singleFolders {
          var pf := PatternFile(e.name);
          if pf.None? {
            continue;
          }
          patternFile := pf;
        }
        var unit := UnitAt(e, idx, cfg, legacy).value;
        assert unit.input == input && unit.patternFile == patternFile;
        units := units + [unit];
      }
    }
    assert entries[..|entries|] == entries;
  }

  /** The mapset ids are distinct: the worker mapsets never collide. */
  lemma {:induction false} IdsDistinct(entries: seq<DirEntry>, legacy: bool)
    ensures NoDuplicates(Ids(entries, legacy))
    ensures forall m: nat :: m > |entries| ==> MapsetId(m) !in Ids(entries, legacy)
  {
    if |entries| > 0 {
      var init := entries[..|entries| - 1];
      IdsDistinct(init, legacy);
      forall m: nat | m >= |entries| ensures MapsetId(m) !in Ids(init, legacy) { }
      forall m: nat | m > |entries| ensures MapsetId(m) != MapsetId(|entries|) {
        MapsetIdInjective(m, |entries|);
      }
    }
  }

  /** `S2_import_<m>` is recorded exactly when entry m-1 is listed. */
  lemma {:induction false} IdsMembership(entries: seq<DirEntry>, legacy: bool, m: nat)
    ensures MapsetId(m) in Ids(entries, legacy) <==> 1 <= m <= |entries| && Listed(entries[m - 1], legacy)
  {
    if |entries| > 0 {
      var init := entries[..|entries| - 1];
      IdsMembership(init, legacy, m);
      MapsetIdInjective(m, |entries|);
      IdsDistinct(init, legacy);
    }
  }

  /** Some queued unit works in `S2_import_<m>`. */
  predicate HasUnit(units: seq<ImportUnit>, id: string)
  {
    exists k :: 0 <= k < |units| && units[k].mapsetid == id
  }

  /** A unit works in `S2_import_<m>` exactly when entry m-1 yields one. */
  lemma {:induction false} UnitsMembership(entries: seq<DirEntry>, cfg: ImportConfig, legacy: bool, m: nat)
    ensures HasUnit(Units(entries, cfg, legacy), MapsetId(m)) <==>
            1 <= m <= |entries| && UnitAt(entries[m - 1], m - 1, cfg, legacy).Some?
  {
    if |entries| > 0 {
      var init := entries[..|entries| - 1];
      var us := Units(entries, cfg, legacy);
      var ui := Units(init, cfg, legacy);
      UnitsMembership(init, cfg, legacy, m);
      MapsetIdInjective(m, |entries|);
      var u := UnitAt(entries[|entries| - 1], |entries| - 1, cfg, legacy);
      assert forall k :: 0 <= k < |ui| ==> us[k] == ui[k];
      if HasUnit(us, MapsetId(m)) {
        var k :| 0 <= k < |us| && us[k].mapsetid == MapsetId(m);
        if k >= |ui| {
          assert us[k] == u.value;
        }
      }
      if 1 <= m <= |entries| && UnitAt(entries[m - 1], m - 1, cfg, legacy).Some? && m == |entries| {
        assert us[|ui|].mapsetid == MapsetId(m);
      }
    }
  }

  /** A product the newer script skips for its format still takes a mapset
      id, but no worker runs in that mapset; every worker's mapset is among
      the recorded ids. */
  lemma SkippedEntryKeepsId(entries: seq<DirEntry>, cfg: ImportConfig, idx: nat)
    requires idx < |entries| && entries[idx].present && !cfg.singleFolders
    requires PatternFile(entries[idx].name).None?
    ensures MapsetId(idx + 1) in Ids(entries, false)
    ensures !HasUnit(Units(entries, cfg, false), MapsetId(idx + 1))
  {
    IdsMembership(entries, false, idx + 1);
    UnitsMembership(entries, cfg, false, idx + 1);
  }

  /** Every worker runs in a recorded mapset, and in the legacy script every
      recorded mapset gets a worker. */
  lemma UnitsWithinIds(entries: seq<DirEntry>, cfg: ImportConfig, legacy: bool, m: nat)
    ensures HasUnit(Units(entries, cfg, legacy), MapsetId(m)) ==> MapsetId(m) in Ids(entries, legacy)
    ensures legacy ==> (HasUnit(Units(entries, cfg, legacy), MapsetId(m)) <==> MapsetId(m) in Ids(entries, legacy))
  {
    IdsMembership(entries, legacy, m);
    UnitsMembership(entries, cfg, legacy, m);
  }
}
