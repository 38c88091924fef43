/** Scene bookkeeping of `t.sentinel.mask` (newer and grass-gis-addons
    variants): the scene table built from the STRDS rows, the band
    completeness check, the threshold decision, the worker jobs and the
    copy-or-null outcome of every mask. */
module MaskScenes {
  import opened Wrappers
  import opened Strings
  import opened Lists
  import ImportUnits
  import MaskWorker

  /** A parsed `datetime` (the `strptime` of the row's start time). */
  datatype DateTime = DateTime(year: nat, month: nat, day: nat, hour: nat, minute: nat, second: nat, micro: nat)

  /** One row of `t.rast.list -u`: the raster, its start time, and whether
      `r.info -r` reports a NULL minimum and maximum. */
  datatype Row = Row(raster: string, time: DateTime, minNull: bool, maxNull: bool)

  /** The options the scene table depends on; `cellMisc` is the
      `cell_misc` folder of the current mapset. */
  datatype MaskConfig = MaskConfig(threshold: real, outputShadows: string, metadata: string, cellMisc: string)

  /** One entry of `s2_scenes`: the band rasters (the seven bands start as
      None), the date, the mask names and the metadata file. */
  datatype Scene = Scene(
    bands: map<string, Option<string>>,
    date: Option<DateTime>,
    clouds: string,
    shadows: Option<string>,
    metadata: Option<string>)

  /** `s2_scenes` with its key order (a Python dict keeps insertion order). */
  datatype SceneTable = SceneTable(order: seq<string>, scenes: map<string, Scene>)

  datatype MaskError =
    | MalformedRaster(raster: string)    // fewer than three `_` fields
    | NotAllBandsGiven
    | NoMetadata(scene: string)          // `s2_scene['metadata']` missing
    | UnreadableMetadata(path: string)   // no cloud percentage for that file
    | MapsetChanged(current: string, expected: string)

  const Bands: seq<string> := ["B02", "B03", "B04", "B08", "B8A", "B11", "B12"]

  ghost predicate WellFormed(t: SceneTable)
  {
    NoDuplicates(t.order) && forall k :: k in t.scenes <==> k in t.order
  }

  /** The scene key: the first two `_` fields. */
  function SceneKey(parts: seq<string>): string
    requires |parts| >= 2
  {
    parts[0] + "_" + parts[1]
  }

  /** The metadata file of a new scene, when the threshold or shadows need
      one: under `cell_misc` for `default`, else under the given folder. */
  function MetadataFile(cfg: MaskConfig, raster: string): (m: Option<string>)
    ensures m.Some? <==> (cfg.threshold > 0.0 || cfg.outputShadows != "") && cfg.metadata != ""
    ensures m.Some? ==> EndsWith(m.value, "description.json")
  {
    if cfg.threshold > 0.0 || cfg.outputShadows != "" then
      if cfg.metadata == "default" then
        Some(ImportUnits.PathJoin(ImportUnits.PathJoin(cfg.cellMisc, raster), "description.json"))
      else if cfg.metadata != "" then
        Some(ImportUnits.PathJoin(ImportUnits.PathJoin(cfg.metadata, raster), "description.json"))
      else None
    else None
  }

  /** The record created for the first row of a scene. */
  function NewScene(key: string, raster: string, cfg: MaskConfig): (s: Scene)
    ensures s.bands.Keys == set b | b in Bands
    ensures forall b :: b in s.bands ==> s.bands[b] == None
    ensures s.date == None && s.clouds == key + "_clouds"
    ensures s.shadows == if cfg.outputShadows != "" then Some(key + "_shadows") else None
  {
    Scene(
      map b | b in Bands :: None,
      None,
      key + "_clouds",
      if cfg.outputShadows != "" then Some(key + "_shadows") else None,
      MetadataFile(cfg, raster))
  }

  /** One iteration of the row loop. The newer script skips a raster whose
      minimum and maximum are both NULL; the legacy one has no such check. */
  function AddRow(t: SceneTable, row: Row, cfg: MaskConfig, legacy: bool): (r: Result<SceneTable, MaskError>)
    ensures !legacy && row.minNull && row.maxNull ==> r == Ok(t)
    ensures r.Err? ==> r == Err(MalformedRaster(row.raster))
    ensures r.Ok? ==> t.scenes.Keys <= r.value.scenes.Keys
  {
    if !legacy && row.minNull && row.maxNull then Ok(t)
    else
      var parts := Split(row.raster, '_');
      if |parts| < 3 then Err(MalformedRaster(row.raster))
      else
        var key, band := SceneKey(parts), parts[2];
        var base := if key in t.scenes then t.scenes[key] else NewScene(key, row.raster, cfg);
        var order := if key in t.scenes then t.order else t.order + [key];
        var s := base.(bands := base.bands[band := Some(row.raster)],
                       date := if base.date.None? then Some(row.time) else base.date);
        Ok(SceneTable(order, t.scenes[key := s]))
  }

  /** The scene table after the row loop, or the first error. */
  function ScenesOf(rows: seq<Row>, cfg: MaskConfig, legacy: bool): Result<SceneTable, MaskError>
  {
    if |rows| == 0 then Ok(SceneTable([], map[]))
    else
      match ScenesOf(rows[..|rows| - 1], cfg, legacy)
      case Err(e) => Err(e)
      case Ok(t) => AddRow(t, rows[|rows| - 1], cfg, legacy)
  }

  /** The row loop of `main`. */
  method BuildScenes(rows: seq<Row>, cfg: MaskConfig, legacy: bool) returns (r: Result<SceneTable, MaskError>)
    ensures r == ScenesOf(rows, cfg, legacy)
  {
    var order: seq<string> := [];
    var scenes: map<string, Scene> := map[];
    for i := 0 to |rows|
      invariant ScenesOf(rows[..i], cfg, legacy) == Ok(SceneTable(order, scenes))
    {
      assert rows[..i + 1][..i] == rows[..i];
      var step := AddRowStep(order, scenes, rows[i], cfg, legacy);
      if step.Err? {
        ScenesErrStays(rows, cfg, legacy, i + 1);
        return step;
      }
      order, scenes := step.value.order, step.value.scenes;
    }
    assert rows[..|rows|] == rows;
    r := Ok(SceneTable(order, scenes));
  }

  /** The body of the row loop for one row. */
  method AddRowStep(order: seq<string>, scenes: map<string, Scene>, row: Row, cfg: MaskConfig, legacy: bool)
    returns (r: Result<SceneTable, MaskError>)
    ensures r == AddRow(SceneTable(order, scenes), row, cfg, legacy)
  {
    if !legacy && row.minNull && row.maxNull {
      return Ok(SceneTable(order, scenes));
    }
    var parts := Split(row.raster, '_');
    if |parts| < 3 {
      return Err(MalformedRaster(row.raster));
    }
    var name := parts[0] + "_" + parts[1];
    var band := parts[2];
    assert name == SceneKey(parts);
    ghost var base := if name in scenes then scenes[name] else NewScene(name, row.raster, cfg);
    var order', scenes' := order, scenes;
    if name !in scenes' {
      scenes' := scenes'[name := NewScene(name, row.raster, cfg)];
      order' := order' + [name];
    }
    var s := scenes'[name];
    assert s == base;
    s := s.(bands := s.bands[band := Some(row.raster)]);
    if s.date.None? {
      s := s.(date := Some(row.time));
    }
    assert s == base.(bands := base.bands[band := Some(row.raster)],
                      date := if base.date.None? then Some(row.time) else base.date);
    scenes' := scenes'[name := s];
    assert scenes' == scenes[name := s];
    r := Ok(SceneTable(order', scenes'));
  }

  /** Once the loop has failed, later rows do not matter. */
  lemma {:induction false} ScenesErrStays(rows: seq<Row>, cfg: MaskConfig, legacy: bool, i: nat)
    requires i <= |rows| && ScenesOf(rows[..i], cfg, legacy).Err?
    ensures ScenesOf(rows, cfg, legacy) == ScenesOf(rows[..i], cfg, legacy)
    decreases |rows| - i
  {
    if i < |rows| {
      assert rows[..i + 1][..i] == rows[..i];
      ScenesErrStays(rows, cfg, legacy, i + 1);
    } else {
      assert rows[..i] == rows;
    }
  }

  // ---------------------------------------------------------------------------
  // properties of the scene table

  /** Whether the row loop looks at a row at all. */
  predicate Admitted(row: Row, legacy: bool)
  {
    legacy || !(row.minNull && row.maxNull)
  }

  /** The scene key and band of a row with at least three `_` fields. */
  function KeyOf(row: Row): Option<string>
  {
    var parts := Split(row.raster, '_');
    if |parts| < 3 then None else Some(SceneKey(parts))
  }

  function BandOf(row: Row): Option<string>
  {
    var parts := Split(row.raster, '_');
    if |parts| < 3 then None else Some(parts[2])
  }

  /** What every record of the table looks like: a date, the mask names of
      its key, the seven band entries, and no other band without a value. */
  predicate SceneShape(s: Scene, key: string, cfg: MaskConfig)
  {
    s.date.Some?
    && s.clouds == key + "_clouds"
    && s.shadows == (if cfg.outputShadows != "" then Some(key + "_shadows") else None)
    && (forall b :: b in Bands ==> b in s.bands)
    && (forall b :: b in s.bands && b !in Bands ==> s.bands[b].Some?)
  }

  /** The table the row loop builds keeps each key once, in the order keys
      first appear, and every record has the shape above. */
  lemma {:induction false} ScenesShape(rows: seq<Row>, cfg: MaskConfig, legacy: bool)
    requires ScenesOf(rows, cfg, legacy).Ok?
    ensures WellFormed(ScenesOf(rows, cfg, legacy).value)
    ensures var t := ScenesOf(rows, cfg, legacy).value;
      forall k :: k in t.scenes ==> SceneShape(t.scenes[k], k, cfg)
  {
    if |rows| > 0 {
      var init := rows[..|rows| - 1];
      ScenesShape(init, cfg, legacy);
      AddRowShape(ScenesOf(init, cfg, legacy).value, rows[|rows| - 1], cfg, legacy);
    }
  }

  /** A record in shape, or a fresh one, is in shape once a band and the
      date are set. */
  lemma UpdatedShape(base: Scene, key: string, band: string, raster: string, time: DateTime, cfg: MaskConfig)
    requires SceneShape(base, key, cfg) || base == NewScene(key, raster, cfg)
    ensures SceneShape(base.(bands := base.bands[band := Some(raster)],
                             date := if base.date.None? then Some(time) else base.date), key, cfg)
  {
  }

  /** One row keeps the table well formed and every record in shape. */
  lemma AddRowShape(t: SceneTable, row: Row, cfg: MaskConfig, legacy: bool)
    requires WellFormed(t) && forall k :: k in t.scenes ==> SceneShape(t.scenes[k], k, cfg)
    requires AddRow(t, row, cfg, legacy).Ok?
    ensures WellFormed(AddRow(t, row, cfg, legacy).value)
    ensures var t' := AddRow(t, row, cfg, legacy).value;
      forall k :: k in t'.scenes ==> SceneShape(t'.scenes[k], k, cfg)
  {
    if !(!legacy && row.minNull && row.maxNull) {
      var parts := Split(row.raster, '_');
      var key := SceneKey(parts);
      var band := parts[2];
      var t' := AddRow(t, row, cfg, legacy).value;
      if key !in t.scenes {
        assert t'.order == t.order + [key];
        assert NoDuplicates(t'.order);
      }
      var base := if key in t.scenes then t.scenes[key] else NewScene(key, row.raster, cfg);
      assert t'.scenes[key] == base.(bands := base.bands[band := Some(row.raster)],
                                     date := if base.date.None? then Some(row.time) else base.date);
      UpdatedShape(base, key, band, row.raster, row.time, cfg);
      forall k | k in t'.scenes ensures SceneShape(t'.scenes[k], k, cfg) {
        if k != key {
          assert t'.scenes[k] == t.scenes[k];
        }
      }
    }
  }

  /** A key is in the table exactly when some row the loop looks at has
      that key; the newer script thus never creates a scene from rasters
      that are entirely NULL. */
  lemma {:induction false} ScenesKeys(rows: seq<Row>, cfg: MaskConfig, legacy: bool, k: string)
    requires ScenesOf(rows, cfg, legacy).Ok?
    ensures k in ScenesOf(rows, cfg, legacy).value.order <==>
      exists i :: 0 <= i < |rows| && Admitted(rows[i], legacy) && KeyOf(rows[i]) == Some(k)
  {
    if |rows| > 0 {
      var init := rows[..|rows| - 1];
      ScenesKeys(init, cfg, legacy, k);
      ScenesShape(init, cfg, legacy);
      assert forall i :: 0 <= i < |init| ==> init[i] == rows[i];
    }
  }

  /** The date of a scene is the start time of its first row; later rows
      never overwrite it. */
  lemma {:induction false} ScenesDate(rows: seq<Row>, cfg: MaskConfig, legacy: bool, k: string)
    requires ScenesOf(rows, cfg, legacy).Ok?
    requires k in ScenesOf(rows, cfg, legacy).value.scenes
    ensures exists i :: (0 <= i < |rows| && Admitted(rows[i], legacy) && KeyOf(rows[i]) == Some(k)
      && ScenesOf(rows, cfg, legacy).value.scenes[k].date == Some(rows[i].time)
      && forall j :: 0 <= j < i ==> !(Admitted(rows[j], legacy) && KeyOf(rows[j]) == Some(k)))
  {
    var init := rows[..|rows| - 1];
    var last := rows[|rows| - 1];
    var t0 := ScenesOf(init, cfg, legacy).value;
    ScenesShape(init, cfg, legacy);
    assert forall i :: 0 <= i < |init| ==> init[i] == rows[i];
    if k in t0.scenes {
      ScenesDate(init, cfg, legacy, k);
    } else {
      ScenesKeys(init, cfg, legacy, k);
      assert rows[|rows| - 1] == last;
    }
  }

  /** A band entry of a scene has a value exactly when some row the loop
      looks at carries that key and band. */
  lemma {:induction false} ScenesBand(rows: seq<Row>, cfg: MaskConfig, legacy: bool, k: string, b: string)
    requires ScenesOf(rows, cfg, legacy).Ok?
    requires k in ScenesOf(rows, cfg, legacy).value.scenes && b in Bands
    ensures var bands := ScenesOf(rows, cfg, legacy).value.scenes[k].bands;
      (b in bands && bands[b].Some?) <==>
      exists i :: 0 <= i < |rows| && Admitted(rows[i], legacy) && KeyOf(rows[i]) == Some(k) && BandOf(rows[i]) == Some(b)
  {
    var init, last := rows[..|rows| - 1], rows[|rows| - 1];
    var t0 := ScenesOf(init, cfg, legacy).value;
    assert ScenesOf(rows, cfg, legacy) == AddRow(t0, last, cfg, legacy);
    AddRowBand(t0, last, cfg, legacy, k, b);
    if k in t0.scenes {
      ScenesShape(init, cfg, legacy);
      ScenesBand(init, cfg, legacy, k, b);
    } else {
      NoRowOfKey(init, cfg, legacy, k);
    }
    BandRowSplit(rows, legacy, k, b);
  }

  lemma BandRowSplit(rows: seq<Row>, legacy: bool, k: string, b: string)
    requires |rows| > 0
    ensures var init, last := rows[..|rows| - 1], rows[|rows| - 1];
      (exists i :: 0 <= i < |rows| && Admitted(rows[i], legacy) && KeyOf(rows[i]) == Some(k) && BandOf(rows[i]) == Some(b))
      <==> ((exists i :: 0 <= i < |init| && Admitted(init[i], legacy) && KeyOf(init[i]) == Some(k) && BandOf(init[i]) == Some(b))
            || (Admitted(last, legacy) && KeyOf(last) == Some(k) && BandOf(last) == Some(b)))
  {
    var init := rows[..|rows| - 1];
    if exists i :: 0 <= i < |rows| && Admitted(rows[i], legacy) && KeyOf(rows[i]) == Some(k) && BandOf(rows[i]) == Some(b) {
      var i :| 0 <= i < |rows| && Admitted(rows[i], legacy) && KeyOf(rows[i]) == Some(k) && BandOf(rows[i]) == Some(b);
      if i < |init| {
        assert init[i] == rows[i];
      }
    }
    if exists i :: 0 <= i < |init| && Admitted(init[i], legacy) && KeyOf(init[i]) == Some(k) && BandOf(init[i]) == Some(b) {
      var i :| 0 <= i < |init| && Admitted(init[i], legacy) && KeyOf(init[i]) == Some(k) && BandOf(init[i]) == Some(b);
      assert rows[i] == init[i];
    }
  }

  /** One row sets a band entry of a scene exactly when it is admitted and
      carries that key and band; other entries keep their values. */
  lemma AddRowBand(t0: SceneTable, row: Row, cfg: MaskConfig, legacy: bool, k: string, b: string)
    requires AddRow(t0, row, cfg, legacy).Ok?
    requires k in AddRow(t0, row, cfg, legacy).value.scenes && b in Bands
    ensures var bands := AddRow(t0, row, cfg, legacy).value.scenes[k].bands;
      (b in bands && bands[b].Some?) <==>
        (k in t0.scenes && b in t0.scenes[k].bands && t0.scenes[k].bands[b].Some?)
        || (Admitted(row, legacy) && KeyOf(row) == Some(k) && BandOf(row) == Some(b))
  {
  }

  lemma NoRowOfKey(rows: seq<Row>, cfg: MaskConfig, legacy: bool, k: string)
    requires ScenesOf(rows, cfg, legacy).Ok? && k !in ScenesOf(rows, cfg, legacy).value.scenes
    ensures forall i :: 0 <= i < |rows| ==> !(Admitted(rows[i], legacy) && KeyOf(rows[i]) == Some(k))
  {
    ScenesShape(rows, cfg, legacy);
    ScenesKeys(rows, cfg, legacy, k);
  }

  // ---------------------------------------------------------------------------
  // completeness check

  /** No value of the record is None. */
  predicate Complete(s: Scene)
  {
    s.date.Some? && forall b :: b in s.bands ==> s.bands[b].Some?
  }

  /** `any(val is None ...)` over every scene: the run stops with "Not all
      needed bands are given" at the first incomplete one. */
  method CheckBands(t: SceneTable) returns (r: Result<(), MaskError>)
    requires forall k :: k in t.order ==> k in t.scenes
    ensures r.Ok? <==> forall k :: k in t.order ==> Complete(t.scenes[k])
    ensures r.Err? ==> r == Err(NotAllBandsGiven)
  {
    for i := 0 to |t.order|
      invariant forall j :: 0 <= j < i ==> Complete(t.scenes[t.order[j]])
    {
      if !Complete(t.scenes[t.order[i]]) {
        return Err(NotAllBandsGiven);
      }
    }
    return Ok(());
  }

  /** A scene of the table passes the check exactly when rows for all seven
      bands of that scene were read. */
  lemma CompleteIffAllBands(rows: seq<Row>, cfg: MaskConfig, legacy: bool, k: string)
    requires ScenesOf(rows, cfg, legacy).Ok? && k in ScenesOf(rows, cfg, legacy).value.scenes
    ensures Complete(ScenesOf(rows, cfg, legacy).value.scenes[k]) <==>
      forall b :: b in Bands ==>
        exists i :: 0 <= i < |rows| && Admitted(rows[i], legacy) && KeyOf(rows[i]) == Some(k) && BandOf(rows[i]) == Some(b)
  {
    var s := ScenesOf(rows, cfg, legacy).value.scenes[k];
    ScenesShape(rows, cfg, legacy);
    forall b | b in Bands
      ensures s.bands[b].Some? <==>
        exists i :: 0 <= i < |rows| && Admitted(rows[i], legacy) && KeyOf(rows[i]) == Some(k) && BandOf(rows[i]) == Some(b)
    {
      ScenesBand(rows, cfg, legacy, k, b);
    }
  }

  // ---------------------------------------------------------------------------
  // threshold decision and worker jobs

  /** A scene whose cloudy-pixel percentage is below a positive threshold is
      not processed. */
  function ComputesClouds(threshold: real, cloudy: real): (c: bool)
    ensures threshold <= 0.0 ==> c
    ensures !c <==> threshold > 0.0 && threshold > cloudy
  {
    if threshold > 0.0 then !(threshold > cloudy) else true
  }

  /** A cloudier scene is processed whenever a clearer one is. */
  lemma CloudierStillComputed(threshold: real, clear: real, cloudy: real)
    requires clear <= cloudy && ComputesClouds(threshold, clear)
    ensures ComputesClouds(threshold, cloudy)
  {
  }

  /** The decision for one scene. With a positive threshold the scene's
      metadata file is read (`percent` holds the `CLOUDY_PIXEL_PERCENTAGE`
      of every readable file); a scene without one stops the run. */
  function Decision(threshold: real, key: string, s: Scene, percent: map<string, real>): (r: Result<bool, MaskError>)
    ensures threshold <= 0.0 ==> r == Ok(true)
    ensures threshold > 0.0 && s.metadata.None? ==> r == Err(NoMetadata(key))
    ensures threshold > 0.0 && s.metadata.Some? && s.metadata.value !in percent ==> r == Err(UnreadableMetadata(s.metadata.value))
    ensures threshold > 0.0 && s.metadata.Some? && s.metadata.value in percent ==>
      r == Ok(ComputesClouds(threshold, percent[s.metadata.value]))
  {
    if threshold > 0.0 then
      match s.metadata
      case None => Err(NoMetadata(key))
      case Some(path) => if path in percent then Ok(ComputesClouds(threshold, percent[path])) else Err(UnreadableMetadata(path))
    else Ok(true)
  }

  /** `"%s" % s2_scene[band]`: the raster of a band, `None` for a missing one. */
  function BandValue(s: Scene, b: string): string
  {
    if b in s.bands && s.bands[b].Some? then s.bands[b].value else "None"
  }

  /** The `<band>_double` rasters queued for removal for every scene. */
  function DoubleRasters(s: Scene): (r: seq<string>)
    ensures |r| == |Bands|
    ensures forall i :: 0 <= i < |Bands| ==> r[i] == BandValue(s, Bands[i]) + "_double"
  {
    seq(|Bands|, i requires 0 <= i < |Bands| => BandValue(s, Bands[i]) + "_double")
  }

  /** The band loop of one scene: `rm_rasters.append("%s_double" % s2_scene[band])`. */
  method QueueDoubles(rm: seq<string>, s: Scene) returns (rm': seq<string>)
    ensures rm' == rm + DoubleRasters(s)
  {
    rm' := rm;
    for i := 0 to |Bands|
      invariant rm' == rm + DoubleRasters(s)[..i]
    {
      assert DoubleRasters(s)[..i + 1] == DoubleRasters(s)[..i] + [BandValue(s, Bands[i]) + "_double"];
      rm' := rm' + [BandValue(s, Bands[i]) + "_double"];
    }
    assert DoubleRasters(s)[..|Bands|] == DoubleRasters(s);
  }

  /** The `i.sentinel.mask.worker` call for one scene. */
  datatype MaskJob = MaskJob(
    bandArgs: seq<(string, string)>,
    flags: string,
    cloudRaster: string,
    newmapset: string,
    shadowRaster: Option<string>,
    metadata: Option<string>,
    shadowThreshold: Option<int>,
    pg: Option<(string, string)>)

  const WorkerBandOptions: seq<string> := ["blue", "green", "red", "nir", "nir8a", "swir11", "swir12"]

  /** The seven band arguments, each `<raster>@<start mapset>`. */
  function BandArgs(s: Scene, mapset: string): (args: seq<(string, string)>)
    ensures |args| == |Bands|
    ensures forall i :: 0 <= i < |args| ==> args[i] == (WorkerBandOptions[i], BandValue(s, Bands[i]) + "@" + mapset)
  {
    seq(|Bands|, i requires 0 <= i < |Bands| => (WorkerBandOptions[i], BandValue(s, Bands[i]) + "@" + mapset))
  }

  /** The worker options that the mask script adds. */
  datatype JobConfig = JobConfig(outputShadows: string, pgDatabase: string, pgUser: string, startMapset: string)

  /** The job for a processed scene: with shadows the shadow raster, the
      metadata file and `shadow_threshold=1000` under flags `s`, without them
      flags `sc`; the newer script adds the database options when
      `pg_database` is set; the new mapset is named after the cloud mask. */
  function JobFor(key: string, s: Scene, jc: JobConfig, legacy: bool): (r: Result<MaskJob, MaskError>)
    ensures r.Err? <==> jc.outputShadows != "" && s.metadata.None?
    ensures r.Ok? ==> r.value.newmapset == s.clouds && r.value.cloudRaster == s.clouds
    ensures r.Ok? ==> r.value.flags == (if jc.outputShadows != "" then "s" else "sc")
    ensures r.Ok? ==> (r.value.shadowThreshold == Some(1000) <==> jc.outputShadows != "")
    ensures r.Ok? ==> (r.value.pg.Some? <==> !legacy && jc.pgDatabase != "")
  {
    var pg := if !legacy && jc.pgDatabase != "" then Some((jc.pgDatabase, jc.pgUser)) else None;
    var args := BandArgs(s, jc.startMapset);
    if jc.outputShadows != "" then
      match s.metadata
      case None => Err(NoMetadata(key))
      case Some(m) => Ok(MaskJob(args, "s", s.clouds, s.clouds, s.shadows, Some(m), Some(1000), pg))
    else Ok(MaskJob(args, "sc", s.clouds, s.clouds, None, None, None, pg))
  }

  /** The jobs and the removal list after the dispatch loop has visited the
      given keys, or the first error. */
  function DispatchOf(keys: seq<string>, t: SceneTable, threshold: real, percent: map<string, real>,
                      jc: JobConfig, legacy: bool): (r: Result<(seq<MaskJob>, seq<string>), MaskError>)
    requires forall k :: k in keys ==> k in t.scenes
    ensures r.Ok? ==> |r.value.0| <= |keys| && |r.value.1| == |Bands| * |keys|
  {
    if |keys| == 0 then Ok(([], []))
    else
      var k := keys[|keys| - 1];
      match DispatchOf(keys[..|keys| - 1], t, threshold, percent, jc, legacy)
      case Err(e) => Err(e)
      case Ok(acc) => DispatchStep(acc, k, t.scenes[k], threshold, percent, jc, legacy)
  }

  /** One visit of the dispatch loop: the scene's `_double` rasters are
      queued for removal, and its job when it is processed. */
  function DispatchStep(acc: (seq<MaskJob>, seq<string>), k: string, s: Scene, threshold: real,
                        percent: map<string, real>, jc: JobConfig, legacy: bool): Result<(seq<MaskJob>, seq<string>), MaskError>
  {
    match Decision(threshold, k, s, percent)
    case Err(e) => Err(e)
    case Ok(computing) =>
      if !computing then Ok((acc.0, acc.1 + DoubleRasters(s)))
      else
        match JobFor(k, s, jc, legacy)
        case Err(e) => Err(e)
        case Ok(job) => Ok((acc.0 + [job], acc.1 + DoubleRasters(s)))
  }

  /** The scene loop that queues the workers. */
  method Dispatch(t: SceneTable, threshold: real, percent: map<string, real>, jc: JobConfig, legacy: bool)
    returns (r: Result<(seq<MaskJob>, seq<string>), MaskError>)
    requires forall k :: k in t.order ==> k in t.scenes
    ensures r == DispatchOf(t.order, t, threshold, percent, jc, legacy)
  {
    var jobs: seq<MaskJob> := [];
    var rm: seq<string> := [];
    for i := 0 to |t.order|
      invariant DispatchOf(t.order[..i], t, threshold, percent, jc, legacy) == Ok((jobs, rm))
    {
      assert t.order[..i + 1][..i] == t.order[..i];
      var name := t.order[i];
      var step := DispatchOne(jobs, rm, name, t.scenes[name], threshold, percent, jc, legacy);
      if step.Err? {
        DispatchErrStays(t, threshold, percent, jc, legacy, i + 1);
        return step;
      }
      jobs, rm := step.value.0, step.value.1;
    }
    assert t.order[..|t.order|] == t.order;
    r := Ok((jobs, rm));
  }

  /** The body of the scene loop for one scene. */
  method DispatchOne(jobs: seq<MaskJob>, rm: seq<string>, name: string, s: Scene, threshold: real,
                     percent: map<string, real>, jc: JobConfig, legacy: bool)
    returns (r: Result<(seq<MaskJob>, seq<string>), MaskError>)
    ensures r == DispatchStep((jobs, rm), name, s, threshold, percent, jc, legacy)
  {
    var computing := Decision(threshold, name, s, percent);
    if computing.Err? {
      return Err(computing.error);
    }
    var rm' := QueueDoubles(rm, s);
    if !computing.value {
      return Ok((jobs, rm'));
    }
    var job := JobFor(name, s, jc, legacy);
    if job.Err? {
      return Err(job.error);
    }
    r := Ok((jobs + [job.value], rm'));
  }

  lemma {:induction false} DispatchErrStays(t: SceneTable, threshold: real, percent: map<string, real>,
                                           jc: JobConfig, legacy: bool, i: nat)
    requires forall k :: k in t.order ==> k in t.scenes
    requires i <= |t.order| && DispatchOf(t.order[..i], t, threshold, percent, jc, legacy).Err?
    ensures DispatchOf(t.order, t, threshold, percent, jc, legacy) == DispatchOf(t.order[..i], t, threshold, percent, jc, legacy)
    decreases |t.order| - i
  {
    if i < |t.order| {
      assert t.order[..i + 1][..i] == t.order[..i];
      DispatchErrStays(t, threshold, percent, jc, legacy, i + 1);
    } else {
      assert t.order[..i] == t.order;
    }
  }

  /** The keys of the scenes that get a worker, in order. */
  function ComputedKeys(keys: seq<string>, t: SceneTable, threshold: real, percent: map<string, real>): (c: seq<string>)
    requires forall k :: k in keys ==> k in t.scenes
    ensures forall k :: k in c <==> k in keys && Decision(threshold, k, t.scenes[k], percent) == Ok(true)
  {
    if |keys| == 0 then []
    else
      var k := keys[|keys| - 1];
      ComputedKeys(keys[..|keys| - 1], t, threshold, percent)
        + (if Decision(threshold, k, t.scenes[k], percent) == Ok(true) then [k] else [])
  }

  /** The removal lists of the visited scenes, concatenated. */
  function AllDoubles(keys: seq<string>, t: SceneTable): seq<string>
    requires forall k :: k in keys ==> k in t.scenes
  {
    if |keys| == 0 then [] else AllDoubles(keys[..|keys| - 1], t) + DoubleRasters(t.scenes[keys[|keys| - 1]])
  }

  /** A successful dispatch queues one job per processed scene, in scene
      order, each the job of that scene, and queues the `_double` rasters of
      every scene, processed or not, for removal. */
  lemma {:induction false} DispatchJobs(keys: seq<string>, t: SceneTable, threshold: real, percent: map<string, real>,
                                       jc: JobConfig, legacy: bool)
    requires forall k :: k in keys ==> k in t.scenes
    requires DispatchOf(keys, t, threshold, percent, jc, legacy).Ok?
    ensures var (jobs, rm) := DispatchOf(keys, t, threshold, percent, jc, legacy).value;
      var c := ComputedKeys(keys, t, threshold, percent);
      |jobs| == |c|
      && (forall i :: 0 <= i < |c| ==> JobFor(c[i], t.scenes[c[i]], jc, legacy) == Ok(jobs[i]))
      && rm == AllDoubles(keys, t)
  {
    if |keys| > 0 {
      DispatchJobs(keys[..|keys| - 1], t, threshold, percent, jc, legacy);
    }
  }

  /** No scene is processed when a positive threshold exceeds the cloud
      percentage of every scene, and every scene is processed when the
      threshold is not positive. */
  lemma ThresholdExtremes(keys: seq<string>, t: SceneTable, threshold: real, percent: map<string, real>)
    requires forall k :: k in keys ==> k in t.scenes
    ensures threshold <= 0.0 ==> forall k :: k in keys ==> k in ComputedKeys(keys, t, threshold, percent)
    ensures threshold > 0.0 && (forall p :: p in percent ==> percent[p] < threshold) ==>
      ComputedKeys(keys, t, threshold, percent) == []
  {
  }

  /** The worker receives each band as `<raster>@<mapset>` and strips the
      mapset again, so it reads exactly the scene's band raster. */
  lemma WorkerSeesBand(s: Scene, mapset: string, i: nat)
    requires i < |Bands| && '@' !in BandValue(s, Bands[i])
    ensures MaskWorker.IsBandOption(BandArgs(s, mapset)[i].0)
    ensures MaskWorker.Passed(BandArgs(s, mapset)[i].0, BandArgs(s, mapset)[i].1) == BandValue(s, Bands[i])
  {
    var v := BandValue(s, Bands[i]);
    assert v + "@" + mapset == v + ['@'] + mapset;
    SplitConcat(v, '@', mapset);
  }

  // ---------------------------------------------------------------------------
  // copy-back

  /** What becomes of one mask in the current mapset. */
  datatype Outcome =
    | Copied(name: string, from: string)                     // g.copy
    | Filtered(name: string, from: string, minSize: string)  // r.reclass.area
    | Nulled(name: string)                                   // r.mapcalc name = null()

  /** The outcome for a mask expected in `mapset`: copied, or filtered when
      a minimum size is set (newer script only; a failing filter leaves a
      null raster); a null raster when the worker produced none. `store`
      holds the (mapset, raster) pairs present after the workers ran. */
  function MaskOutcome(name: string, mapset: string, store: set<(string, string)>, minSize: string,
                       fails: set<string>, legacy: bool): (o: Outcome)
    ensures o.name == name
    ensures (mapset, name) !in store ==> o == Nulled(name)
    ensures legacy ==> o == if (mapset, name) in store then Copied(name, mapset) else Nulled(name)
    ensures !legacy && (mapset, name) in store ==>
      o == if minSize == "" then Copied(name, mapset)
           else if name in fails then Nulled(name)
           else Filtered(name, mapset, minSize)
  {
    if (mapset, name) in store then
      if !legacy && minSize != "" then
        if name in fails then Nulled(name) else Filtered(name, mapset, minSize)
      else Copied(name, mapset)
    else Nulled(name)
  }

  /** The options of the copy-back loop. */
  datatype CopyConfig = CopyConfig(outputShadows: string, minSizeClouds: string, minSizeShadows: string)

  /** The outcomes of one scene: its cloud mask, then its shadow mask when
      shadows are requested, both looked up in the mapset named after the
      cloud mask. */
  function SceneOutcomes(s: Scene, cc: CopyConfig, store: set<(string, string)>, fails: set<string>, legacy: bool): (os: seq<Outcome>)
    ensures |os| == if cc.outputShadows != "" then 2 else 1
    ensures os[0].name == s.clouds
  {
    [MaskOutcome(s.clouds, s.clouds, store, cc.minSizeClouds, fails, legacy)]
      + (if cc.outputShadows != "" then
           [MaskOutcome(if s.shadows.Some? then s.shadows.value else "None", s.clouds, store, cc.minSizeShadows, fails, legacy)]
         else [])
  }

  function OutcomesOf(keys: seq<string>, t: SceneTable, cc: CopyConfig, store: set<(string, string)>,
                      fails: set<string>, legacy: bool): seq<Outcome>
    requires forall k :: k in keys ==> k in t.scenes
  {
    if |keys| == 0 then []
    else OutcomesOf(keys[..|keys| - 1], t, cc, store, fails, legacy) + SceneOutcomes(t.scenes[keys[|keys| - 1]], cc, store, fails, legacy)
  }

  /** The copy-back loop, after the check that the current mapset is still
      the start mapset. */
  method CopyMasks(t: SceneTable, current: string, start: string, cc: CopyConfig, store: set<(string, string)>,
                   fails: set<string>, legacy: bool) returns (r: Result<seq<Outcome>, MaskError>)
    requires forall k :: k in t.order ==> k in t.scenes
    ensures current != start ==> r == Err(MapsetChanged(current, start))
    ensures current == start ==> r == Ok(OutcomesOf(t.order, t, cc, store, fails, legacy))
  {
    if current != start {
      return Err(MapsetChanged(current, start));
    }
    var outcomes: seq<Outcome> := [];
    for i := 0 to |t.order|
      invariant outcomes == OutcomesOf(t.order[..i], t, cc, store, fails, legacy)
    {
      assert t.order[..i + 1][..i] == t.order[..i];
      var here := CopyOne(t.scenes[t.order[i]], cc, store, fails, legacy);
      outcomes := outcomes + here;
    }
    assert t.order[..|t.order|] == t.order;
    r := Ok(outcomes);
  }

  /** The body of the copy-back loop for one scene. */
  method CopyOne(s: Scene, cc: CopyConfig, store: set<(string, string)>, fails: set<string>, legacy: bool)
    returns (outcomes: seq<Outcome>)
    ensures outcomes == SceneOutcomes(s, cc, store, fails, legacy)
  {
    var newmapset := s.clouds;
    outcomes := [MaskOutcome(s.clouds, newmapset, store, cc.minSizeClouds, fails, legacy)];
    if cc.outputShadows != "" {
      var shadows := if s.shadows.Some? then s.shadows.value else "None";
      outcomes := outcomes + [MaskOutcome(shadows, newmapset, store, cc.minSizeShadows, fails, legacy)];
    } else {
      assert outcomes + [] == outcomes;
    }
  }

  /** Different scene keys give different cloud masks and mapsets. */
  lemma CloudNamesDistinct(a: string, b: string)
    requires a + "_clouds" == b + "_clouds"
    ensures a == b
  {
    assert a == (a + "_clouds")[..|a|];
    assert b == (b + "_clouds")[..|b|];
  }

  /** A scene that got no worker ends with a null cloud mask, provided the
      only mapsets holding rasters are those of the queued workers. */
  lemma SkippedSceneNulled(rows: seq<Row>, cfg: MaskConfig, legacy: bool, threshold: real, percent: map<string, real>,
                           jc: JobConfig, cc: CopyConfig, store: set<(string, string)>, fails: set<string>, k: string)
    requires ScenesOf(rows, cfg, legacy).Ok?
    requires var t := ScenesOf(rows, cfg, legacy).value;
      k in t.scenes && (forall k' :: k' in t.order ==> k' in t.scenes)
      && DispatchOf(t.order, t, threshold, percent, jc, legacy).Ok?
      && Decision(threshold, k, t.scenes[k], percent) == Ok(false)
      && forall p :: p in store ==> exists j :: j in DispatchOf(t.order, t, threshold, percent, jc, legacy).value.0 && p.0 == j.newmapset
    ensures var s := ScenesOf(rows, cfg, legacy).value.scenes[k];
      SceneOutcomes(s, cc, store, fails, legacy)[0] == Nulled(s.clouds)
  {
    ScenesShape(rows, cfg, legacy);
    SkippedNulledIn(ScenesOf(rows, cfg, legacy).value, cfg, legacy, threshold, percent, jc, cc, store, fails, k);
  }

  lemma SkippedNulledIn(t: SceneTable, cfg: MaskConfig, legacy: bool, threshold: real, percent: map<string, real>,
                        jc: JobConfig, cc: CopyConfig, store: set<(string, string)>, fails: set<string>, k: string)
    requires forall k' :: k' in t.scenes ==> SceneShape(t.scenes[k'], k', cfg)
    requires k in t.scenes && (forall k' :: k' in t.order ==> k' in t.scenes)
    requires DispatchOf(t.order, t, threshold, percent, jc, legacy).Ok?
    requires Decision(threshold, k, t.scenes[k], percent) == Ok(false)
    requires forall p :: p in store ==> exists j :: j in DispatchOf(t.order, t, threshold, percent, jc, legacy).value.0 && p.0 == j.newmapset
    ensures SceneOutcomes(t.scenes[k], cc, store, fails, legacy)[0] == Nulled(t.scenes[k].clouds)
  {
    var s := t.scenes[k];
    var jobs := DispatchOf(t.order, t, threshold, percent, jc, legacy).value.0;
    if (s.clouds, s.clouds) in store {
      var j :| j in jobs && s.clouds == j.newmapset;
      var k' := DispatchMapset(t.order, t, threshold, percent, jc, legacy, j);
      CloudNamesDistinct(k, k');
      assert false;
    }
  }

  /** Every queued job works in the mapset named after the cloud mask of a
      processed scene. */
  lemma DispatchMapset(keys: seq<string>, t: SceneTable, threshold: real, percent: map<string, real>,
                       jc: JobConfig, legacy: bool, j: MaskJob) returns (k: string)
    requires forall k :: k in keys ==> k in t.scenes
    requires DispatchOf(keys, t, threshold, percent, jc, legacy).Ok?
    requires j in DispatchOf(keys, t, threshold, percent, jc, legacy).value.0
    ensures k in keys && Decision(threshold, k, t.scenes[k], percent) == Ok(true)
    ensures j.newmapset == t.scenes[k].clouds
  {
    var jobs := DispatchOf(keys, t, threshold, percent, jc, legacy).value.0;
    DispatchJobs(keys, t, threshold, percent, jc, legacy);
    var c := ComputedKeys(keys, t, threshold, percent);
    var i :| 0 <= i < |jobs| && jobs[i] == j;
    k := c[i];
    assert k in c;
  }

  /** Every visited scene's cloud mask gets an outcome, and every outcome is
      the cloud or shadow mask of a visited scene. */
  lemma {:induction false} OutcomesCover(keys: seq<string>, t: SceneTable, cc: CopyConfig, store: set<(string, string)>,
                                        fails: set<string>, legacy: bool)
    requires forall k :: k in keys ==> k in t.scenes
    ensures forall k :: k in keys ==>
      exists o :: o in OutcomesOf(keys, t, cc, store, fails, legacy) && o.name == t.scenes[k].clouds
    ensures forall o :: o in OutcomesOf(keys, t, cc, store, fails, legacy) ==>
      exists k :: k in keys && (o.name == t.scenes[k].clouds || Some(o.name) == t.scenes[k].shadows || o.name == "None")
  {
    if |keys| > 0 {
      var init, last := keys[..|keys| - 1], keys[|keys| - 1];
      var s := t.scenes[last];
      var prev, here := OutcomesOf(init, t, cc, store, fails, legacy), SceneOutcomes(s, cc, store, fails, legacy);
      assert OutcomesOf(keys, t, cc, store, fails, legacy) == prev + here;
      OutcomesCover(init, t, cc, store, fails, legacy);
      forall k | k in keys
        ensures exists o: Outcome :: o in prev + here && o.name == t.scenes[k].clouds
      {
        if k == last {
          assert here[0] in prev + here;
        } else {
          assert k in init;
          var o :| o in prev && o.name == t.scenes[k].clouds;
          assert o in prev + here;
        }
      }
      forall o: Outcome | o in prev + here
        ensures exists k :: k in keys && (o.name == t.scenes[k].clouds || Some(o.name) == t.scenes[k].shadows || o.name == "None")
      {
        if o in prev {
          var k :| k in init && (o.name == t.scenes[k].clouds || Some(o.name) == t.scenes[k].shadows || o.name == "None");
          assert k in keys;
        } else {
          SceneOutcomeNames(s, cc, store, fails, legacy, o);
          assert last in keys;
        }
      }
    }
  }

  lemma SceneOutcomeNames(s: Scene, cc: CopyConfig, store: set<(string, string)>, fails: set<string>, legacy: bool, o: Outcome)
    requires o in SceneOutcomes(s, cc, store, fails, legacy)
    ensures o.name == s.clouds || Some(o.name) == s.shadows || o.name == "None"
  {
  }
}
