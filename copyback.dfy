/** Fan-in after the import workers: the layers each worker left in its
    temporary mapset are copied into the start mapset and sorted into the
    band list (`maplist`) and the cloud list (`cloudlist`); the temporary
    mapsets are then removed. */
module CopyBack {
  import opened Wrappers
  import opened Strings
  import opened Lists

  /** The raster and vector names `g.list` reports for a mapset, in order. */
  datatype Mapset = Mapset(rasters: seq<string>, vectors: seq<string>)

  /** The fatal error when the session's mapset is no longer the one the run
      started in. */
  datatype CopyError = MapsetChanged(current: string, expected: string)

  /** Lists of a mapset; a mapset that does not exist lists nothing. */
  function Listing(ms: map<string, Mapset>, id: string): Mapset
  {
    if id in ms then ms[id] else Mapset([], [])
  }

  // ---------------------------------------------------------------------------
  // classification

  predicate IsCloudName(name: string) { Contains(name, "CLOUDS") }

  /** The rasters that are not cloud masks, in order. */
  function BandRasters(rs: seq<string>): (r: seq<string>)
    ensures forall i :: 0 <= i < |r| ==> !IsCloudName(r[i])
  {
    if |rs| == 0 then []
    else BandRasters(rs[..|rs| - 1]) + (if IsCloudName(rs[|rs| - 1]) then [] else [rs[|rs| - 1]])
  }

  /** The rasters whose name contains `CLOUDS`, in order. */
  function CloudRasters(rs: seq<string>): (r: seq<string>)
    ensures forall i :: 0 <= i < |r| ==> IsCloudName(r[i])
  {
    if |rs| == 0 then []
    else CloudRasters(rs[..|rs| - 1]) + (if IsCloudName(rs[|rs| - 1]) then [rs[|rs| - 1]] else [])
  }

  /** The two filters split the rasters without loss or duplication. */
  lemma {:induction false} RastersPartitioned(rs: seq<string>)
    ensures multiset(BandRasters(rs)) + multiset(CloudRasters(rs)) == multiset(rs)
  {
    if |rs| > 0 {
      RastersPartitioned(rs[..|rs| - 1]);
      assert rs == rs[..|rs| - 1] + [rs[|rs| - 1]];
    }
  }

  /** Filtering distributes over concatenation. */
  lemma {:induction false} BandRastersAppend(a: seq<string>, b: seq<string>)
    ensures BandRasters(a + b) == BandRasters(a) + BandRasters(b)
    decreases |b|
  {
    if |b| > 0 {
      assert (a + b)[..|a + b| - 1] == a + b[..|b| - 1];
      BandRastersAppend(a, b[..|b| - 1]);
    } else {
      assert a + b == a;
    }
  }

  /** The rasters of the mapset bound for `maplist`: all of them in the
      legacy script, those without `CLOUDS` in the newer one. */
  function ToMaplist(rs: seq<string>, split: bool): seq<string>
  {
    if split then BandRasters(rs) else rs
  }

  /** The rasters bound for `cloudlist` (after the mapset's vectors). */
  function ToCloudlist(rs: seq<string>, split: bool): seq<string>
  {
    if split then CloudRasters(rs) else []
  }

  /** `maplist` and `cloudlist` after the worker mapsets `ids`, in order. */
  function Collected(ms: map<string, Mapset>, ids: seq<string>, split: bool): (seq<string>, seq<string>)
  {
    if |ids| == 0 then ([], [])
    else
      var prev := Collected(ms, ids[..|ids| - 1], split);
      var x := Listing(ms, ids[|ids| - 1]);
      (prev.0 + ToMaplist(x.rasters, split), prev.1 + x.vectors + ToCloudlist(x.rasters, split))
  }

  /** All rasters and all vectors of the worker mapsets, in order. */
  function AllRasters(ms: map<string, Mapset>, ids: seq<string>): seq<string>
  {
    if |ids| == 0 then [] else AllRasters(ms, ids[..|ids| - 1]) + Listing(ms, ids[|ids| - 1]).rasters
  }

  function AllVectors(ms: map<string, Mapset>, ids: seq<string>): seq<string>
  {
    if |ids| == 0 then [] else AllVectors(ms, ids[..|ids| - 1]) + Listing(ms, ids[|ids| - 1]).vectors
  }

  /** The legacy script puts every raster in `maplist` and every vector in
      `cloudlist`. */
  lemma {:induction false} LegacyLists(ms: map<string, Mapset>, ids: seq<string>)
    ensures Collected(ms, ids, false) == (AllRasters(ms, ids), AllVectors(ms, ids))
  {
    if |ids| > 0 {
      var init := ids[..|ids| - 1];
      LegacyLists(ms, init);
      var x := Listing(ms, ids[|ids| - 1]);
      assert Collected(ms, ids, false).1 == Collected(ms, init, false).1 + x.vectors + [];
      assert Collected(ms, init, false).1 + x.vectors + [] == AllVectors(ms, init) + x.vectors;
    }
  }

  /** The newer `maplist` is the legacy one without the cloud rasters. */
  lemma {:induction false} NewerMaplist(ms: map<string, Mapset>, ids: seq<string>)
    ensures Collected(ms, ids, true).0 == BandRasters(AllRasters(ms, ids))
  {
    if |ids| > 0 {
      var init := ids[..|ids| - 1];
      NewerMaplist(ms, init);
      BandRastersAppend(AllRasters(ms, init), Listing(ms, ids[|ids| - 1]).rasters);
    }
  }

  /** Between them the newer `maplist` and `cloudlist` hold every layer of
      the worker mapsets exactly as often as the mapsets list it. */
  lemma {:induction false} NewerListsComplete(ms: map<string, Mapset>, ids: seq<string>)
    ensures multiset(Collected(ms, ids, true).0) + multiset(Collected(ms, ids, true).1)
         == multiset(AllRasters(ms, ids)) + multiset(AllVectors(ms, ids))
  {
    if |ids| > 0 {
      var init := ids[..|ids| - 1];
      var x := Listing(ms, ids[|ids| - 1]);
      NewerListsComplete(ms, init);
      RastersPartitioned(x.rasters);
      var prev := Collected(ms, init, true);
      var cur := Collected(ms, ids, true);
      assert multiset(cur.0) == multiset(prev.0) + multiset(BandRasters(x.rasters));
      assert multiset(cur.1) == multiset(prev.1) + multiset(x.vectors) + multiset(CloudRasters(x.rasters));
      assert multiset(AllRasters(ms, ids)) == multiset(AllRasters(ms, init)) + multiset(x.rasters);
      assert multiset(AllVectors(ms, ids)) == multiset(AllVectors(ms, init)) + multiset(x.vectors);
      Regroup(multiset(prev.0), multiset(prev.1), multiset(BandRasters(x.rasters)),
              multiset(CloudRasters(x.rasters)), multiset(x.vectors));
    } else {
      assert Collected(ms, ids, true) == ([], []);
    }
  }

  lemma Regroup(p0: multiset<string>, p1: multiset<string>, b: multiset<string>, c: multiset<string>, v: multiset<string>)
    ensures (p0 + b) + (p1 + v + c) == (p0 + p1) + (b + c) + v
  {
  }

  /** No band raster of the newer script is a cloud mask. */
  lemma NewerMaplistCloudFree(ms: map<string, Mapset>, ids: seq<string>)
    ensures forall i :: 0 <= i < |Collected(ms, ids, true).0| ==> !IsCloudName(Collected(ms, ids, true).0[i])
  {
    NewerMaplist(ms, ids);
  }

  // ---------------------------------------------------------------------------
  // the copy step

  /** `g.copy` of a name into a list that may already hold it. */
  function AddName(s: seq<string>, x: string): (r: seq<string>)
    ensures x in r && forall y :: y in s ==> y in r
  {
    if x in s then s else s + [x]
  }

  function AddNames(s: seq<string>, names: seq<string>): (r: seq<string>)
    ensures forall i :: 0 <= i < |names| ==> names[i] in r
    ensures forall y :: y in s ==> y in r
  {
    if |names| == 0 then s
    else
      var r := AddName(AddNames(s, names[..|names| - 1]), names[|names| - 1]);
      assert forall i :: 0 <= i < |names| - 1 ==> names[i] == names[..|names| - 1][i];
      r
  }

  lemma AddNamesStep(s: seq<string>, names: seq<string>, x: string)
    ensures AddNames(s, names + [x]) == AddName(AddNames(s, names), x)
  {
    assert (names + [x])[..|names|] == names;
  }

  /** The location after the worker mapsets `ids` were copied from and removed. */
  function Copied(ms: map<string, Mapset>, start: string, ids: seq<string>): (r: map<string, Mapset>)
    requires start in ms
    ensures start in r
  {
    if |ids| == 0 then ms
    else
      var prev := Copied(ms, start, ids[..|ids| - 1]);
      var id := ids[|ids| - 1];
      var x := Listing(ms, id);
      var cur := prev[start];
      var next := prev[start := Mapset(AddNames(cur.rasters, x.rasters), AddNames(cur.vectors, x.vectors))];
      if id == start then next else next - {id}
  }

  /** A mapset that is neither the start mapset nor one of the processed ids
      is untouched. */
  lemma {:induction false} CopiedKeeps(ms: map<string, Mapset>, start: string, ids: seq<string>, k: string)
    requires start in ms && k != start && k !in ids
    ensures (k in Copied(ms, start, ids) <==> k in ms)
    ensures k in ms ==> Copied(ms, start, ids)[k] == ms[k]
  {
    if |ids| > 0 {
      CopiedKeeps(ms, start, ids[..|ids| - 1], k);
    }
  }

  /** Every processed worker mapset is gone, unless it is the start mapset. */
  lemma {:induction false} CopiedRemoves(ms: map<string, Mapset>, start: string, ids: seq<string>)
    requires start in ms
    ensures forall i :: 0 <= i < |ids| && ids[i] != start ==> ids[i] !in Copied(ms, start, ids)
  {
    if |ids| > 0 {
      var init := ids[..|ids| - 1];
      CopiedRemoves(ms, start, init);
      assert forall i :: 0 <= i < |init| ==> init[i] == ids[i];
    }
  }

  /** The vector loop of one worker mapset: each vector is appended to
      `cloudlist` and copied into the start mapset. */
  method CopyVectors(target: seq<string>, vectors: seq<string>) returns (copied: seq<string>, listed: seq<string>)
    ensures copied == AddNames(target, vectors)
    ensures listed == vectors
  {
    copied, listed := target, [];
    for j := 0 to |vectors|
      invariant copied == AddNames(target, vectors[..j])
      invariant listed == vectors[..j]
    {
      AddNamesStep(target, vectors[..j], vectors[j]);
      assert vectors[..j + 1] == vectors[..j] + [vectors[j]];
      listed := listed + [vectors[j]];
      copied := AddName(copied, vectors[j]);
    }
    assert vectors[..|vectors|] == vectors;
  }

  /** The raster loop of one worker mapset: each raster is copied into the
      start mapset and appended to `cloudlist` when the newer script finds
      `CLOUDS` in its name, to `maplist` otherwise. */
  method CopyRasters(target: seq<string>, rasters: seq<string>, split: bool) returns (copied: seq<string>, bands: seq<string>, clouds: seq<string>)
    ensures copied == AddNames(target, rasters)
    ensures bands == ToMaplist(rasters, split) && clouds == ToCloudlist(rasters, split)
  {
    copied, bands, clouds := target, [], [];
    for j := 0 to |rasters|
      invariant copied == AddNames(target, rasters[..j])
      invariant bands == ToMaplist(rasters[..j], split)
      invariant clouds == ToCloudlist(rasters[..j], split)
    {
      var rast := rasters[j];
      assert rasters[..j + 1] == rasters[..j] + [rast];
      assert rasters[..j + 1][..j] == rasters[..j];
      AddNamesStep(target, rasters[..j], rast);
      copied := AddName(copied, rast);
      if split && Contains(rast, "CLOUDS") {
        clouds := clouds + [rast];
      } else {
        bands := bands + [rast];
      }
    }
    assert rasters[..|rasters|] == rasters;
  }

  /** The GRASS location seen by the orchestrator: its mapsets and the mapset
      of the current session. */
  class Location {
    var mapsets: map<string, Mapset>
    var current: string

    constructor (mapsets: map<string, Mapset>, current: string)
      ensures this.mapsets == mapsets && this.current == current
    {
      this.mapsets := mapsets;
      this.current := current;
    }

    /** The copy-back of both import scripts. The run stops when the session
        has left the start mapset; otherwise each worker mapset's vectors,
        then its rasters, are copied into the start mapset and listed, and
        the worker mapset is removed. The worker ids are distinct and differ
        from the start mapset (the ids are `S2_import_<n>`). */
    method CollectLayers(start: string, ids: seq<string>, split: bool) returns (r: Result<(seq<string>, seq<string>), CopyError>)
      requires start in mapsets && NoDuplicates(ids) && start !in ids
      modifies this
      ensures current == old(current)
      ensures old(current) != start ==> r == Err(MapsetChanged(old(current), start)) && mapsets == old(mapsets)
      ensures old(current) == start ==> r == Ok(Collected(old(mapsets), ids, split))
      ensures old(current) == start ==> mapsets == Copied(old(mapsets), start, ids)
    {
      if current != start {
        return Err(MapsetChanged(current, start));
      }
      ghost var ms := mapsets;
      var maplist: seq<string> := [];
      var cloudlist: seq<string> := [];
      for i := 0 to |ids|
        invariant current == start
        invariant (maplist, cloudlist) == Collected(ms, ids[..i], split)
        invariant mapsets == Copied(ms, start, ids[..i])
      {
        var id := ids[i];
        assert ids[..i + 1][..i] == ids[..i];
        assert id !in ids[..i] && id != start;
        CopiedKeeps(ms, start, ids[..i], id);
        var x := Listing(mapsets, id);
        assert x == Listing(ms, id);
        var cur := mapsets[start];
        var vectors, vs := CopyVectors(cur.vectors, x.vectors);
        var rasters, bands, clouds := CopyRasters(cur.rasters, x.rasters, split);
        maplist, cloudlist := maplist + bands, cloudlist + vs + clouds;
        mapsets := mapsets[start := Mapset(rasters, vectors)] - {id};
      }
      assert ids[..|ids|] == ids;
      r := Ok((maplist, cloudlist));
    }
  }
}
