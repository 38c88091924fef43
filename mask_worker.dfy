/** The mask worker `i.sentinel.mask.worker`: it switches to a private GISRC
    file, filters its options into the keyword arguments of
    `i.sentinel.mask`, strips the `@mapset` part of the band names and joins
    the set flags into one flag string. */
module MaskWorker {
  import opened Wrappers
  import opened Strings
  import opened Lists

  /** `"%s_%s" % (gisrc, pid)`: the private GISRC path of one worker process. */
  function PrivateGisrc(gisrc: string, pid: nat): (p: string)
    ensures |p| > |gisrc| + 1 && p[..|gisrc| + 1] == gisrc + "_"
  {
    gisrc + "_" + NatToString(pid)
  }

  /** Two worker processes never share a private GISRC file, and none of them
      writes the session's own GISRC file. */
  lemma PrivateGisrcDistinct(gisrc: string, p: nat, q: nat)
    ensures PrivateGisrc(gisrc, p) == PrivateGisrc(gisrc, q) <==> p == q
    ensures PrivateGisrc(gisrc, p) != gisrc
  {
    var a, b := PrivateGisrc(gisrc, p), PrivateGisrc(gisrc, q);
    if a == b {
      assert NatToString(p) == a[|gisrc| + 1..];
      assert NatToString(q) == b[|gisrc| + 1..];
      NatToStringInjective(p, q);
    }
    assert |a| > |gisrc|;
  }

  /** The process environment the worker changes: the `GISRC` variable and
      the files it copies and removes, as a map from path to contents. */
  class Process {
    var gisrc: string
    var files: map<string, string>

    constructor (gisrc: string, files: map<string, string>)
      ensures this.gisrc == gisrc && this.files == files
    {
      this.gisrc := gisrc;
      this.files := files;
    }

    /** Remove any stale private file, copy the session's GISRC file to it
        and make it the process's GISRC. */
    method UsePrivateGisrc(pid: nat) returns (newgisrc: string)
      requires gisrc in files
      modifies this
      ensures newgisrc == PrivateGisrc(old(gisrc), pid)
      ensures gisrc == newgisrc
      ensures files == (old(files) - {newgisrc})[newgisrc := old(files)[old(gisrc)]]
    {
      newgisrc := PrivateGisrc(gisrc, pid);
      PrivateGisrcDistinct(gisrc, pid, pid);
      var contents := files[gisrc];
      files := files - {newgisrc};
      files := files[newgisrc := contents];
      gisrc := newgisrc;
    }

    /** `try_remove(newgisrc)` at the end of the run. */
    method RemovePrivateGisrc(newgisrc: string)
      modifies this
      ensures gisrc == old(gisrc)
      ensures files == old(files) - {newgisrc}
    {
      files := files - {newgisrc};
    }
  }

  /** A worker run leaves every other file as it found it: installing the
      private copy and removing it again only drops a stale file of that
      name. */
  lemma PrivateCopyLeavesNoTrace(files: map<string, string>, newgisrc: string, contents: string)
    ensures (files - {newgisrc})[newgisrc := contents] - {newgisrc} == files - {newgisrc}
    ensures newgisrc !in files ==> (files - {newgisrc})[newgisrc := contents] - {newgisrc} == files
  {
  }

  // ---------------------------------------------------------------------------
  // database connection

  /** The worker's test before `db.connect`, as written: `pg_database is not
      None`. The option parser gives an unset option as the empty string,
      so with `Some("")` for an unset option the test always holds. */
  function ConnectsAsWritten(pgDatabase: Option<string>): (r: bool)
    ensures r <==> pgDatabase.Some?
  {
    pgDatabase != None
  }

  /** The evidently intended test: connect only when a database is named. */
  function ConnectsIntended(pgDatabase: Option<string>): (r: bool)
    ensures r <==> pgDatabase.Some? && pgDatabase.value != ""
  {
    match pgDatabase
    case None => false
    case Some(name) => name != ""
  }

  /** Without `pg_database` the parser still delivers `""`, and the worker
      connects to a database with an empty name; the tests agree whenever a
      name is given. */
  lemma PgDatabaseDiscrepancy(name: string)
    ensures ConnectsAsWritten(Some("")) && !ConnectsIntended(Some(""))
    ensures name != "" ==> ConnectsAsWritten(Some(name)) == ConnectsIntended(Some(name))
  {
  }

  // ---------------------------------------------------------------------------
  // keyword arguments

  predicate IsBandOption(key: string)
  {
    key in ["green", "red", "blue", "nir", "nir8a", "swir11", "swir12"]
  }

  /** The value handed on for one option: a band name up to its first `@`,
      any other value verbatim. */
  function Passed(key: string, val: string): (v: string)
    ensures IsBandOption(key) ==> '@' !in v && v <= val
    ensures !IsBandOption(key) ==> v == val
  {
    if IsBandOption(key) then
      SplitPiecesFree(val, '@');
      SplitPrefix(val, '@');
      Split(val, '@')[0]
    else val
  }

  /** The first piece of a split is a prefix of the text. */
  lemma {:induction false} SplitPrefix(s: string, c: char)
    ensures Split(s, c)[0] <= s
  {
    if |s| > 0 {
      SplitPrefix(s[1..], c);
    }
  }

  /** One option's contribution to `kwargs`. */
  function KwargFor(opt: (string, string)): seq<(string, string)>
  {
    if opt.0 != "newmapset" && opt.1 != "" then [(opt.0, Passed(opt.0, opt.1))] else []
  }

  /** `kwargs` for the options in their iteration order. */
  function MaskKwargs(options: seq<(string, string)>): (kw: seq<(string, string)>)
    ensures |kw| <= |options|
  {
    if |options| == 0 then [] else MaskKwargs(options[..|options| - 1]) + KwargFor(options[|options| - 1])
  }

  /** The `g.copy` of a band raster under its unqualified name. */
  function CopyFor(opt: (string, string)): seq<(string, string)>
  {
    if opt.0 != "newmapset" && opt.1 != "" && IsBandOption(opt.0) then [(opt.1, Passed(opt.0, opt.1))] else []
  }

  function BandCopies(options: seq<(string, string)>): seq<(string, string)>
  {
    if |options| == 0 then [] else BandCopies(options[..|options| - 1]) + CopyFor(options[|options| - 1])
  }

  /** The options loop: it fills `kwargs` and copies every band given with a
      mapset into the worker's mapset. */
  method BuildKwargs(options: seq<(string, string)>) returns (kwargs: seq<(string, string)>, copies: seq<(string, string)>)
    ensures kwargs == MaskKwargs(options)
    ensures copies == BandCopies(options)
  {
    kwargs, copies := [], [];
    for i := 0 to |options|
      invariant kwargs == MaskKwargs(options[..i]) && copies == BandCopies(options[..i])
    {
      assert options[..i + 1][..i] == options[..i];
      var (opt, val) := options[i];
      if opt != "newmapset" && val != "" {
        if IsBandOption(opt) {
          var valnew := Split(val, '@')[0];
          copies := copies + [(val, valnew)];
          kwargs := kwargs + [(opt, valnew)];
        } else {
          kwargs := kwargs + [(opt, val)];
        }
      }
    }
    assert options[..|options|] == options;
  }

  /** A pair is in `kwargs` exactly when its option is not `newmapset`, has
      a non-empty value, and the pair carries that value as handed on. */
  lemma {:induction false} KwargsMembership(options: seq<(string, string)>, key: string, v: string)
    ensures (key, v) in MaskKwargs(options) <==>
      exists i :: 0 <= i < |options| && options[i].0 == key && key != "newmapset"
        && options[i].1 != "" && v == Passed(key, options[i].1)
  {
    if |options| > 0 {
      var init := options[..|options| - 1];
      KwargsMembership(init, key, v);
      assert forall i :: 0 <= i < |init| ==> init[i] == options[i];
      var last := options[|options| - 1];
      if (key, v) in KwargFor(last) {
        assert options[|options| - 1].0 == key;
      }
    }
  }

  /** Every band option handed on names a raster without a mapset. */
  lemma {:induction false} BandsUnqualified(options: seq<(string, string)>, i: nat)
    requires i < |MaskKwargs(options)| && IsBandOption(MaskKwargs(options)[i].0)
    ensures '@' !in MaskKwargs(options)[i].1
  {
    var init := options[..|options| - 1];
    if i < |MaskKwargs(init)| {
      BandsUnqualified(init, i);
    }
  }

  /** The keys of `kwargs` come in option order, so distinct option keys
      give a dictionary without repeated keys. */
  lemma {:induction false} KwargsKeysDistinct(options: seq<(string, string)>)
    requires forall i, j :: 0 <= i < j < |options| ==> options[i].0 != options[j].0
    ensures forall i, j :: 0 <= i < j < |MaskKwargs(options)| ==> MaskKwargs(options)[i].0 != MaskKwargs(options)[j].0
  {
    if |options| > 0 {
      var init := options[..|options| - 1];
      KwargsKeysDistinct(init);
      var last := options[|options| - 1];
      forall i | 0 <= i < |MaskKwargs(init)| ensures MaskKwargs(init)[i].0 != last.0 {
        KeyFrom(init, i);
      }
    }
  }

  /** Each key of `kwargs` is the key of some option. */
  lemma {:induction false} KeyFrom(options: seq<(string, string)>, i: nat)
    requires i < |MaskKwargs(options)|
    ensures exists j :: 0 <= j < |options| && options[j].0 == MaskKwargs(options)[i].0
  {
    var init := options[..|options| - 1];
    if i < |MaskKwargs(init)| {
      KeyFrom(init, i);
      var j :| 0 <= j < |init| && init[j].0 == MaskKwargs(init)[i].0;
      assert options[j] == init[j];
    } else {
      assert MaskKwargs(options)[i].0 == options[|options| - 1].0;
    }
  }

  // ---------------------------------------------------------------------------
  // flags and region

  /** The keys of the set flags, in iteration order. */
  function FlagString(flags: seq<(char, bool)>): (s: string)
    ensures |s| <= |flags|
  {
    if |flags| == 0 then ""
    else
      var last := flags[|flags| - 1];
      FlagString(flags[..|flags| - 1]) + (if last.1 then [last.0] else [])
  }

  /** A flag letter is in the flag string exactly when some flag with that
      letter is set. */
  lemma {:induction false} FlagStringMembership(flags: seq<(char, bool)>, c: char)
    ensures c in FlagString(flags) <==> exists i :: 0 <= i < |flags| && flags[i] == (c, true)
  {
    if |flags| > 0 {
      var init := flags[..|flags| - 1];
      FlagStringMembership(init, c);
      assert forall i :: 0 <= i < |init| ==> init[i] == flags[i];
    }
  }

  method BuildFlagString(flags: seq<(char, bool)>) returns (flagstr: string)
    ensures flagstr == FlagString(flags)
  {
    flagstr := "";
    for i := 0 to |flags|
      invariant flagstr == FlagString(flags[..i])
    {
      assert flags[..i + 1][..i] == flags[..i];
      var (flag, val) := flags[i];
      if val {
        flagstr := flagstr + [flag];
      }
    }
    assert flags[..|flags|] == flags;
  }

  datatype MaskWorkerError = MissingKey(key: string)

  /** `kwargs[key]`: the value of the first pair with that key, a `KeyError`
      when there is none. */
  function Lookup(kwargs: seq<(string, string)>, key: string): (r: Result<string, MaskWorkerError>)
    ensures r.Err? <==> forall i :: 0 <= i < |kwargs| ==> kwargs[i].0 != key
    ensures r.Err? ==> r == Err(MissingKey(key))
    ensures r.Ok? ==> (key, r.value) in kwargs
  {
    if |kwargs| == 0 then Err(MissingKey(key))
    else if kwargs[0].0 == key then Ok(kwargs[0].1)
    else
      var r := Lookup(kwargs[1..], key);
      assert forall i :: 1 <= i < |kwargs| ==> kwargs[1..][i - 1] == kwargs[i];
      r
  }

  /** The region is set from `kwargs['nir']`: the worker stops with a
      `KeyError` unless a non-empty `nir` option is given, and otherwise
      zooms to the unqualified nir raster. */
  lemma RegionNeedsNir(options: seq<(string, string)>)
    requires forall i, j :: 0 <= i < j < |options| ==> options[i].0 != options[j].0
    ensures Lookup(MaskKwargs(options), "nir").Ok? <==>
      exists i :: 0 <= i < |options| && options[i].0 == "nir" && options[i].1 != ""
    ensures forall i :: 0 <= i < |options| && options[i].0 == "nir" && options[i].1 != "" ==>
      Lookup(MaskKwargs(options), "nir") == Ok(Passed("nir", options[i].1))
  {
    var kw := MaskKwargs(options);
    var r := Lookup(kw, "nir");
    if r.Ok? {
      KwargsMembership(options, "nir", r.value);
    }
    forall i | 0 <= i < |options| && options[i].0 == "nir" && options[i].1 != ""
      ensures r == Ok(Passed("nir", options[i].1))
    {
      KwargsMembership(options, "nir", Passed("nir", options[i].1));
      var v := Passed("nir", options[i].1);
      var k :| 0 <= k < |kw| && kw[k] == ("nir", v);
      KwargsKeysDistinct(options);
      LookupDistinct(kw, k);
    }
  }

  /** In a dictionary without repeated keys the lookup finds the one pair. */
  lemma {:induction false} LookupDistinct(kwargs: seq<(string, string)>, k: nat)
    requires k < |kwargs|
    requires forall i, j :: 0 <= i < j < |kwargs| ==> kwargs[i].0 != kwargs[j].0
    ensures Lookup(kwargs, kwargs[k].0) == Ok(kwargs[k].1)
  {
    if k > 0 {
      assert kwargs[0].0 != kwargs[k].0;
      assert kwargs[1..][k - 1] == kwargs[k];
      LookupDistinct(kwargs[1..], k - 1);
    }
  }
}
