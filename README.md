# t.sentinel orchestration, modelled in Dafny

GRASS GIS drives its Sentinel-2 workflows with a handful of Python scripts
that plan the work: they admit or clamp process counts and memory, split an
import into per-scene worker mapsets, gather the imported layers back,
register them in space-time datasets, and run cloud and shadow masking
scene by scene. The heavy lifting (import, masking, patching, registration)
is done by GRASS commands. The planning itself is deterministic string,
list and dictionary logic, and that logic is what this project models and
proves things about:

- `t.sentinel.import` (the newer script and the older `grass-gis-addons`
  variant). Covers the start-up budget check, the per-process memory, the
  work units for `i.sentinel.import.worker`, copy-back and the band/cloud
  split, the register lines with the GRASS-version gate, the choice of the
  cloud dataset, and expansion of the band pattern into extracts.
- `t.sentinel.mask` (newer and older). Covers the scene table built from
  the STRDS rows, the completeness check, the cloud-percentage threshold,
  the worker jobs, copy-or-null of each mask, grouping by timestamp, the
  patch rewrite, and the register files.
- `i.sentinel.import.worker`. Covers the forwarded flags, the memory clamp,
  the keyword arguments and command line, the overlap warning, the
  zero-to-null gate, and the resampling plan.
- `i.sentinel.mask.worker`. Covers the private GISRC file, the filtered
  keyword arguments with `@mapset` stripped from band inputs, the flag
  string, and the region lookup of `nir`.

The GRASS layer store is a map from mapset to its listed rasters and
vectors, or a set of (mapset, raster) pairs. GRASS commands are opaque: the
model records which copy, null or resample each step would issue. Every
operation that loops or updates state in the source is a method with loop
invariants (for instance `ImportWorker.WarnOverlap` for the loop over the
import's output streams and `MaskScenes.QueueDoubles` for the band loop of
the mask dispatch). Each such method is proved equal to a specification
function, and the properties are lemmas about those functions.

Modules, one file each: `Wrappers`, `Strings` (Python `split`, `in`,
`replace`, `str`/`int` of numbers), `Lists` (first-occurrence `Dedup`),
`Budget`, `ImportUnits`, `CopyBack`, `Register`, `BandPattern`,
`ImportWorker`, `MaskWorker`, `MaskScenes`, `MaskMerge`.

Two points about the code worth stating plainly:
- The newer import lowers `nprocs` to the CPU count
  (t.sentinel.import/t.sentinel.import.py:275-279); the older only warns.
- Scenes are grouped by full timestamp; the patch is named by day
  (`MaskMerge.DayStampSameDay`).

## Model

| member | source | states |
|---|---|---|
| `Budget.Clamp` | t.sentinel.import/t.sentinel.import.py:275-287 | The result is at most the request and at most the limit, and it is one of the two. |
| `Budget.TestNprocsMemory` | t.sentinel.import/t.sentinel.import.py:271-289 | `nprocs` becomes min(nprocs, CPUs) and `memory` becomes min(memory, free RAM). Lowering `nprocs` issues one warning; lowering `memory` issues two, "Using … MB but only … MB RAM available" and then "Set used memory to … MB". Nothing is warned about a value that was not lowered. |
| `Budget.TestNprocsMemoryLegacy` | grass-gis-addons/t.sentinel.import/t.sentinel.import.py:146-163 | `nprocs` is never changed, only warned about. When the probe succeeds, `memory` is clamped to free RAM with the same two warnings as the newer script. A failed probe gives the "not checked" warning and keeps `memory`: this is the corrected rule `LegacyMemoryIntended`, not the `abs(None)` abort of line 156 (see "## Findings"). |
| `Budget.LegacyFreeRamAsWritten` | grass-gis-addons/t.sentinel.import/t.sentinel.import.py:155-161 | As the code stands, a failed free-RAM probe is exactly the case that ends in the `abs(None)` error. |
| `Budget.LegacyMemoryIntended` | grass-gis-addons/t.sentinel.import/t.sentinel.import.py:155-163 | The corrected rule: a failed probe leaves `memory` unchanged, and a successful one clamps it to free RAM. |
| `Budget.LegacyFreeRamDiscrepancy` | grass-gis-addons/t.sentinel.import/t.sentinel.import.py:156 | With a failed probe the as-written check aborts while the intended one keeps the request. With a successful probe the two agree. |
| `Budget.TestNprocs` | t.sentinel.mask/t.sentinel.mask.py:162-169 | The mask scripts (both variants) warn if and only if nprocs exceeds the CPU count and change nothing. |
| `Budget.EffectiveProcs` | t.sentinel.import/t.sentinel.import.py:411-412 | The number of parallel imports is at most the number of scenes and at most nprocs, and equals one of them. |
| `Budget.RoundDiv` | t.sentinel.import/t.sentinel.import.py:467 | Python's `round(a / b)`: the result is within half a divisor of the quotient, and a tie goes to the even neighbour. |
| `Budget.RoundDivUnique` | t.sentinel.import/t.sentinel.import.py:467 | Any integer with those two properties is `RoundDiv`, so the rounding is fully determined. |
| `Budget.PerProcMemory` | t.sentinel.import/t.sentinel.import.py:467 | The per-process memory fails with a division by zero if and only if there are no processes. Otherwise it is `RoundDiv(memory, procs)`: the quotient rounded to nearest, with ties to even. |
| `Budget.NewerBudgetWithinHost` | t.sentinel.import/t.sentinel.import.py:411-412 | After the newer start-up check the import runs no more processes than CPUs or scenes, and the `memory` option is at most free RAM. |
| `Budget.NewerMemoryWithinHost` | t.sentinel.import/t.sentinel.import.py:411-467 | What the parallel imports request together, `procs × round(memory / procs)`, exceeds free RAM by at most half a megabyte per process. |
| `Budget.RoundingMayExceedFree` | t.sentinel.import/t.sentinel.import.py:467 | Example: with 7 MB free and two processes each gets round(3.5) = 4 MB, 8 MB in all, more than is free. |
| `Budget.LegacyMayOversubscribe` | grass-gis-addons/t.sentinel.import/t.sentinel.import.py:256-265 | Example: the older check leaves 8 processes on 4 CPUs, where the newer one runs 4. |
| `Budget.MemoryClampExample` | t.sentinel.import/t.sentinel.import.py:281-287 | Example: 10000 MB requested with 4000 MB free gives three imports 1333 MB each. |
| `Budget.RoundHalfEvenExamples` | t.sentinel.import/t.sentinel.import.py:467 | Examples: 5/2 rounds to 2, 7/2 to 4, and -5/2 to -2. |
| `Budget.ZeroDivisionCases` | grass-gis-addons/t.sentinel.import/t.sentinel.import.py:256-266 | The memory split divides by zero exactly when nprocs is 0, or when there are no scenes and nprocs is non-negative. |
| `Strings.Split` | t.sentinel.import/t.sentinel.import.py:592 | Python's `str.split(c)` always yields at least one piece. |
| `Strings.SplitJoin` | t.sentinel.import/t.sentinel.import.py:592 | Joining the pieces of a split with the separator gives back the original string. |
| `Strings.JoinSplit` | t.sentinel.import/t.sentinel.import.py:644 | Splitting a join of separator-free pieces gives back the pieces. |
| `Strings.Find` | t.sentinel.import/t.sentinel.import.py:639 | Substring search returns the first occurrence, or -1 exactly when there is none. This is what `in` and `split(pat)[0]` rely on. |
| `Strings.BeforeFirst` | t.sentinel.import/t.sentinel.import.py:501 | `s.split(pat)[0]` is a prefix of `s` with no occurrence of `pat` before its end, and is all of `s` when `pat` does not occur. |
| `Strings.NatToStringInjective` | t.sentinel.import/t.sentinel.import.py:481 | `str(n)` is injective on naturals. |
| `Strings.ParseIntRoundTrip` | t.sentinel.import/t.sentinel.import.py:584 | `int(str(n)) == n`. |
| `Lists.Dedup` | t.sentinel.import/t.sentinel.import.py:591 | `list(set(xs))`, taken in first-occurrence order: no duplicates, and exactly the elements of the input. |
| `Lists.CountOnce` | t.sentinel.import/t.sentinel.import.py:591 | In a duplicate-free list an element occurs exactly once. |
| `ImportUnits.PathJoin` | t.sentinel.import/t.sentinel.import.py:497 | `os.path.join(a, b)` ends with `b`. |
| `ImportUnits.MapsetIdInjective` | t.sentinel.import/t.sentinel.import.py:481 | Different listing indices give different `S2_import_<n>` ids. |
| `ImportUnits.ImportFlags` | t.sentinel.import/t.sentinel.import.py:469-473 | The newer flags are `rn` followed by the older variant's optional letters. |
| `ImportUnits.ImportFlagsLegacy` | grass-gis-addons/t.sentinel.import/t.sentinel.import.py:268-272 | The older flags start with `r` and hold at most three letters. |
| `ImportUnits.FlagsRequested` | t.sentinel.import/t.sentinel.import.py:469-473 | Newer flags: `i` is present iff `-i` is set and `c` iff `-c` is set. `r` and `n` are always present, no letter repeats, and the string is `rn` followed by the older variant's optional letters. Older flags: `r` is always present and `n` never. |
| `ImportUnits.FlagText` | grass-gis-addons/t.sentinel.import/t.sentinel.import.py:268-272 | Exact strings for all four flag combinations, for both variants (`rnic`/`ric` … `rn`/`r`). |
| `ImportUnits.PatternFile` | t.sentinel.import/t.sentinel.import.py:500-511 | A pattern file exists iff the name ends in `.SAFE` or `.zip`. When it exists it is a prefix of the name and contains no `.SAFE`; every other name is skipped. |
| `ImportUnits.PatternFileOfProducts` | t.sentinel.import/t.sentinel.import.py:500-505 | `X.SAFE`, `X.zip` and `X.SAFE.zip` all give the pattern file `X`, for a product stem without dots. |
| `ImportUnits.UnitAt` | t.sentinel.import/t.sentinel.import.py:480-516 | A worker arises only from a listed entry, with mapset `S2_import_<idx+1>`, the shared memory, pattern and metadata, and the variant's flags. Newer script: the worker gets `region` iff the extent is `region` and `cloud_output` iff `-c` is set; without single folders it arises iff the pattern file exists, and its input is then the download directory. Older script: every directory entry gets a worker with the saved region and its own folder as input. |
| `ImportUnits.Ids` | t.sentinel.import/t.sentinel.import.py:479-482 | The mapset ids recorded by the loop, at most one per listing entry. |
| `ImportUnits.Units` | t.sentinel.import/t.sentinel.import.py:479-517 | The workers queued by the loop, at most one per listing entry. |
| `ImportUnits.CollectUnits` | t.sentinel.import/t.sentinel.import.py:479-517 | The loop's `mapsetids` and queued workers are the specification sequences `Ids` and `Units`. |
| `ImportUnits.IdsDistinct` | t.sentinel.import/t.sentinel.import.py:481-482 | The recorded mapset ids are pairwise distinct, and none refers to an index beyond the listing. |
| `ImportUnits.IdsMembership` | grass-gis-addons/t.sentinel.import/t.sentinel.import.py:276-279 | `S2_import_<m>` is recorded iff the m-th listing entry passes the existence test (newer) or the directory test (older). |
| `ImportUnits.UnitsMembership` | t.sentinel.import/t.sentinel.import.py:479-517 | A worker for `S2_import_<m>` is queued iff the m-th entry yields a unit. |
| `ImportUnits.SkippedEntryKeepsId` | t.sentinel.import/t.sentinel.import.py:481-510 | An entry without `.SAFE`/`.zip` still records its mapset id, but no worker is queued for it. |
| `ImportUnits.UnitsWithinIds` | grass-gis-addons/t.sentinel.import/t.sentinel.import.py:276-293 | Every worker's mapset is a recorded id. In the older variant, recorded ids and workers correspond one to one. |
| `CopyBack.BandRasters` | t.sentinel.import/t.sentinel.import.py:537-540 | No raster sent to `maplist` contains `CLOUDS`. |
| `CopyBack.CloudRasters` | t.sentinel.import/t.sentinel.import.py:537-538 | Every raster sent to `cloudlist` contains `CLOUDS`. |
| `CopyBack.RastersPartitioned` | t.sentinel.import/t.sentinel.import.py:534-540 | The band and cloud rasters together are exactly the listed rasters, as a multiset. |
| `CopyBack.LegacyLists` | grass-gis-addons/t.sentinel.import/t.sentinel.import.py:308-314 | Older variant: `maplist` is every raster of every worker mapset and `cloudlist` is every vector, in mapset order. |
| `CopyBack.NewerMaplist` | t.sentinel.import/t.sentinel.import.py:530-540 | Newer variant: `maplist` is the rasters without `CLOUDS` of all worker mapsets, in order. |
| `CopyBack.NewerListsComplete` | t.sentinel.import/t.sentinel.import.py:530-540 | Newer variant: `maplist` and `cloudlist` together hold every listed raster and vector exactly as often as they are listed. |
| `CopyBack.NewerMaplistCloudFree` | t.sentinel.import/t.sentinel.import.py:537-540 | No entry of the newer `maplist` contains `CLOUDS`. |
| `CopyBack.AddNames` | t.sentinel.import/t.sentinel.import.py:533-536 | After `g.copy` the start mapset holds every copied name and everything it held before. |
| `CopyBack.CopiedKeeps` | t.sentinel.import/t.sentinel.import.py:530-571 | Copy-back leaves every mapset untouched that is neither the start mapset nor a worker mapset. |
| `CopyBack.CopiedRemoves` | t.sentinel.import/t.sentinel.import.py:571 | Every worker mapset is removed after copy-back. |
| `CopyBack.CopyVectors` | t.sentinel.import/t.sentinel.import.py:531-533 | Every vector of a worker mapset is copied into the start mapset and listed in `cloudlist`, in order. |
| `CopyBack.CopyRasters` | t.sentinel.import/t.sentinel.import.py:534-540 | Every raster is copied, and it is sent to `maplist` or `cloudlist` by the `CLOUDS` rule (newer) or always to `maplist` (older). |
| `CopyBack.Location.CollectLayers` | t.sentinel.import/t.sentinel.import.py:525-571 | If the session left the start mapset the run fails with both names and the mapsets are unchanged. Otherwise the lists are those of `Collected`, and the mapsets end up as `Copied`: layers copied in, worker mapsets removed. |
| `Register.TimeStamp` | t.sentinel.import/t.sentinel.import.py:594-597 | A timestamp exists iff the name has a second `_` field containing `T`. |
| `Register.BandTag` | t.sentinel.import/t.sentinel.import.py:592-593 | A band tag exists iff the name has a third field; the tag contains no `B`. |
| `Register.LineOf` | t.sentinel.import/t.sentinel.import.py:592-600 | A line is written iff the name has a timestamp, and also a band field for the newer band lines. Otherwise the run fails on that name. |
| `Register.Lines` | t.sentinel.import/t.sentinel.import.py:591-601 | The file has one line per name, in order, or the error of the first malformed name. |
| `Register.Collect` | t.sentinel.import/t.sentinel.import.py:591-601 | The lines are all written iff every outcome is a line. Otherwise the result is the error of the first failing outcome. |
| `Register.LinesFirstError` | t.sentinel.import/t.sentinel.import.py:591-601 | When every earlier name has a line, the first malformed name's error is the file's error. |
| `Register.WriteLines` | t.sentinel.import/t.sentinel.import.py:590-602 | The writing loop produces `Lines`. |
| `Register.WriteBandRegister` | t.sentinel.import/t.sentinel.import.py:589-603 | Newer band register: tagged lines for the deduplicated `maplist`, with the tag written only on GRASS 7.9 or later. |
| `Register.WriteBandRegisterLegacy` | grass-gis-addons/t.sentinel.import/t.sentinel.import.py:326-334 | Older band register: untagged lines for the deduplicated `maplist`. |
| `Register.WriteCloudRegister` | t.sentinel.import/t.sentinel.import.py:621-629 | Cloud register: one untagged line per `cloudlist` entry, duplicates included. |
| `Register.WellFormedName` | t.sentinel.import/t.sentinel.import.py:592-598 | For `P_DDDDDDDDTtttttt_B…` the stamp is `D[:4]-D[4:6]-D[6:] T[:2]:T[2:4]:T[4:]` and the tag is the band with `B0`, then `B`, removed. |
| `Register.TaggedLineExample` | t.sentinel.import/t.sentinel.import.py:598-600 | `X_20210615T103021_B04` gives `…|2021-06-15 10:30:21|S2_4` on 7.9 and later, and no tag below. |
| `Register.TaggedExtendsUntagged` | t.sentinel.import/t.sentinel.import.py:599-600 | A newer band line is the older line plus `|S2_<tag>` on 7.9 and later. A name the older script cannot register, the newer cannot either. |
| `Register.TwoFieldNameExample` | t.sentinel.import/t.sentinel.import.py:592 | A two-field name is registered by the older script but stops the newer one, even below 7.9, because the band field is read first. |
| `Register.OneLinePerName` | t.sentinel.import/t.sentinel.import.py:591 | Each distinct `maplist` name occurs once in the deduplicated list and has its line in the file; absent names occur zero times. |
| `Register.ParseComponents` | t.sentinel.import/t.sentinel.import.py:584 | `int()` of every version component, or failure exactly when some component is not a number. |
| `Register.VersionGate` | t.sentinel.import/t.sentinel.import.py:581-586 | For a version `M.m[.rest]` the gate holds iff (M, m) >= (7, 9) as tuples. |
| `Register.VersionGateExamples` | t.sentinel.import/t.sentinel.import.py:582-586 | `7.10` passes, `7.8.5` and `7` do not, and `7.9rc1` stops the script. |
| `Register.CloudTarget` | t.sentinel.import/t.sentinel.import.py:607-617 | The dataset is a raster type iff `strds_clouds` is given. Its name is `strds_clouds`, else `stvds_clouds`, else `<strds>_clouds`. |
| `Register.CloudTargetLegacy` | grass-gis-addons/t.sentinel.import/t.sentinel.import.py:339-343 | The older script always uses the vector dataset `<strds>_clouds`. |
| `Register.CloudTargetsAgree` | t.sentinel.import/t.sentinel.import.py:614-617 | With neither option given, the newer choice equals the older one. |
| `Register.CloudLinesPerLayer` | t.sentinel.import/t.sentinel.import.py:623-628 | The cloud file's i-th line is the i-th cloud layer plus `|` plus its timestamp. |
| `BandPattern.Wrap` | t.sentinel.import/t.sentinel.import.py:644 | One band per option, each `before + option + after`. |
| `BandPattern.Expand` | t.sentinel.import/t.sentinel.import.py:638-646 | The band list of both scripts: it fails only for a pattern that has an opening bracket, and otherwise holds at least one band. The three `re.findall` calls are modelled as written: the options end at the first `)` after the opening bracket, while the text after the brackets follows the first `)` anywhere in the pattern. |
| `BandPattern.ExpandBracketed` | t.sentinel.import/t.sentinel.import.py:639-644 | `pre(o1|…|on)post` expands to `pre+oi+post` for every option, in order. |
| `BandPattern.PlainPattern` | t.sentinel.import/t.sentinel.import.py:645-646 | A pattern without brackets is split on `|`. |
| `BandPattern.UnclosedPattern` | t.sentinel.import/t.sentinel.import.py:641-643 | An opening bracket with no closing one stops the script, because `findall(...)[0]` matches nothing. |
| `BandPattern.LegacyBand` | grass-gis-addons/t.sentinel.import/t.sentinel.import.py:372-373 | The older `-i` replacement discards its result, so the band is unchanged. |
| `BandPattern.NewerBand` | t.sentinel.import/t.sentinel.import.py:649-650 | Without `-i`, or for a band mentioning neither `20` nor `60`, the band is unchanged. |
| `BandPattern.NewerBandIs10m` | t.sentinel.import/t.sentinel.import.py:649-650 | With `-i`, a newer band contains neither `20` nor `60`, and a band that had neither is unchanged. |
| `BandPattern.LegacyKeeps20m` | grass-gis-addons/t.sentinel.import/t.sentinel.import.py:372-373 | A band mentioning `20` is extracted under different names by the two scripts when `-i` is set. |
| `BandPattern.ExtractOf` | t.sentinel.import/t.sentinel.import.py:651 | An extract reads the STRDS, filters `name like '%<band>%'`, and writes `<strds>_<band>`. |
| `BandPattern.ExtractBands` | t.sentinel.import/t.sentinel.import.py:648-652 | One extract per band, in order, named by the newer or the older rule. |
| `ImportWorker.ForwardedFlags` | i.sentinel.import.worker/i.sentinel.import.worker.py:194-200 | `r`, `c` and `j` each appear iff their flag is set; `i` and `n` never appear, and no letter repeats. |
| `ImportWorker.WorkerMemory` | i.sentinel.import.worker/i.sentinel.import.worker.py:239-244 | Memory is lowered to free RAM exactly when less is free, with the warning "Free RAM only … MB"; otherwise it is unchanged and there is no warning. |
| `ImportWorker.Kwargs` | i.sentinel.import.worker/i.sentinel.import.worker.py:248-262 | The worker's dictionary: `input`, `memory`, `pattern` and `flags` first, then up to four optional keys. |
| `ImportWorker.Optional` | i.sentinel.import.worker/i.sentinel.import.worker.py:254-262 | An optional argument contributes its key iff it is present. |
| `ImportWorker.OptionalKeys` | i.sentinel.import.worker/i.sentinel.import.worker.py:254-262 | `extent` is present iff a region is given. `metadata`, `pattern_file` and `cloud_output` are each present iff non-empty, in that order. |
| `ImportWorker.KwargsKeys` | i.sentinel.import.worker/i.sentinel.import.worker.py:248-262 | The dictionary starts with `input`, `memory`, `pattern`, `flags` holding the given values, followed by the optional keys. `flags` occurs only once. |
| `ImportWorker.Command` | i.sentinel.import.worker/i.sentinel.import.worker.py:264-271 | The loop builds `i.sentinel.import --q <args> -<flags>` from the specification functions `ArgsText` and `FlagsText`. |
| `ImportWorker.AddPair` | i.sentinel.import.worker/i.sentinel.import.worker.py:267-270 | A `flags` pair extends the flag string; any other pair appends ` key='val'` to the argument string. |
| `ImportWorker.CommandOfKwargs` | i.sentinel.import.worker/i.sentinel.import.worker.py:264-271 | For the worker's dictionary, the text after the dash is exactly the flag string. The arguments are ` input='…' memory='…' pattern='…'` followed by the optional ones. |
| `ImportWorker.DefaultCloudOutputPassed` | i.sentinel.import.worker/i.sentinel.import.worker.py:261-262 | A `cloud_output='vector'` sent by the newer import script with `-c` is the last argument. |
| `ImportWorker.OverlapTarget` | i.sentinel.import.worker/i.sentinel.import.worker.py:275-278 | The warning names `pattern_file` when it is set, otherwise `input`. |
| `ImportWorker.OverlapWarnings` | i.sentinel.import.worker/i.sentinel.import.worker.py:273-279 | At most one warning per output stream, all naming that target. There are none iff no stream carries the overlap message. |
| `ImportWorker.WarnOverlap` | i.sentinel.import.worker/i.sentinel.import.worker.py:273-279 | The loop over the output streams issues `OverlapWarnings`. |
| `ImportWorker.Zero2NullExactly` | i.sentinel.import.worker/i.sentinel.import.worker.py:284-288 | A raster is treated iff neither its minimum nor its maximum is NULL. |
| `ImportWorker.Zero2Null` | i.sentinel.import.worker/i.sentinel.import.worker.py:281-288 | The loop treats exactly `Zero2NullTargets`, in listing order. |
| `ImportWorker.BandsAt` | i.sentinel.import.worker/i.sentinel.import.worker.py:298-300 | Every listed raster matches `*B*_<res>`. |
| `ImportWorker.BandsAtComplete` | i.sentinel.import.worker/i.sentinel.import.worker.py:298-300 | A raster is listed iff the mapset holds it and it matches `*B*_<res>`, so no matching raster is missed. |
| `ImportWorker.ResampleList` | i.sentinel.import.worker/i.sentinel.import.worker.py:298-302 | Every raster to resample matches `*B*_10m`, `*B*_20m` or `*B*_60m`. |
| `ImportWorker.ResampleListComplete` | i.sentinel.import.worker/i.sentinel.import.worker.py:298-302 | A raster is in `raster_resamp_list` iff the mapset holds it and it matches one of the three patterns. |
| `ImportWorker.SuffixesExclusive` | i.sentinel.import.worker/i.sentinel.import.worker.py:298-300 | No raster matches two of the three patterns, so the three lists do not overlap. |
| `ImportWorker.ResampleListOrdered` | i.sentinel.import.worker/i.sentinel.import.worker.py:298-302 | The list holds the 10 m bands first, then the 20 m bands, then the 60 m bands. |
| `ImportWorker.Job10m` | i.sentinel.import.worker/i.sentinel.import.worker.py:308-310 | A `10m` raster is renamed to `<name>TMP` and resampled back into its own name. |
| `ImportWorker.Job20m` | i.sentinel.import.worker/i.sentinel.import.worker.py:311-312 | A `20m` raster is resampled into its name with `20m` replaced by `10m`. |
| `ImportWorker.Job60m` | i.sentinel.import.worker/i.sentinel.import.worker.py:313-314 | A `60m` raster is resampled into its name with `60m` replaced by `10m`. |
| `ImportWorker.JobFor` | i.sentinel.import.worker/i.sentinel.import.worker.py:307-315 | A raster is renamed first iff it ends in `10m`, and the job then reads `<name>TMP`; otherwise it reads the raster itself. |
| `ImportWorker.JobWrites10m` | i.sentinel.import.worker/i.sentinel.import.worker.py:306-315 | Every job writes a name ending in `10m` that differs from the raster it reads. |
| `ImportWorker.ResampleStep` | i.sentinel.import.worker/i.sentinel.import.worker.py:307-317 | One loop iteration issues `JobFor(raster)`. |
| `ImportWorker.ResampleAll` | i.sentinel.import.worker/i.sentinel.import.worker.py:306-317 | The resampling loop issues `Jobs(list)` and appends each job's input to `rm_rasters`. |
| `ImportWorker.PlanResampling` | i.sentinel.import.worker/i.sentinel.import.worker.py:290-317 | Without `-i` nothing happens, and with no raster the run fails with "No band found". Otherwise there is one job per `10m`, then `20m`, then `60m` raster, and every job input is appended to `rm_rasters`. |
| `ImportWorker.EveryBandResampled` | i.sentinel.import.worker/i.sentinel.import.worker.py:298-317 | Every `*B*_10m`, `*B*_20m` and `*B*_60m` raster of the mapset gets its resampling job. |
| `ImportWorker.ResamplingOutputs` | i.sentinel.import.worker/i.sentinel.import.worker.py:298-317 | Every planned job writes a `10m` name that differs from its input. |
| `MaskWorker.PrivateGisrcDistinct` | i.sentinel.mask.worker/i.sentinel.mask.worker.py:227 | `<GISRC>_<pid>` differs between processes and from the session's own GISRC. |
| `MaskWorker.PrivateGisrc` | i.sentinel.mask.worker/i.sentinel.mask.worker.py:227 | The private file name is the session's GISRC path followed by `_` and more. |
| `MaskWorker.Process.UsePrivateGisrc` | i.sentinel.mask.worker/i.sentinel.mask.worker.py:226-230 | The stale copy is removed, the session file is copied to `<GISRC>_<pid>`, and that copy becomes the process's GISRC. |
| `MaskWorker.Process.RemovePrivateGisrc` | i.sentinel.mask.worker/i.sentinel.mask.worker.py:262 | Only the private copy is deleted. |
| `MaskWorker.PrivateCopyLeavesNoTrace` | i.sentinel.mask.worker/i.sentinel.mask.worker.py:228-262 | Copying and then removing the private file leaves the files as they were, apart from a stale file of that name. |
| `MaskWorker.ConnectsAsWritten` | i.sentinel.mask.worker/i.sentinel.mask.worker.py:237 | As written, the worker connects whenever the option exists, even when it is empty. |
| `MaskWorker.ConnectsIntended` | i.sentinel.mask.worker/i.sentinel.mask.worker.py:237-241 | The corrected rule: connect iff a non-empty database name is given. |
| `MaskWorker.PgDatabaseDiscrepancy` | i.sentinel.mask.worker/i.sentinel.mask.worker.py:237 | For an empty `pg_database` the written test connects and the intended one does not. For any real name they agree. |
| `MaskWorker.Passed` | i.sentinel.mask.worker/i.sentinel.mask.worker.py:248-253 | A band option's value is cut to a prefix without `@`, and any other option passes verbatim. |
| `MaskWorker.MaskKwargs` | i.sentinel.mask.worker/i.sentinel.mask.worker.py:245-253 | The kwargs dictionary holds at most one pair per option. |
| `MaskWorker.BuildKwargs` | i.sentinel.mask.worker/i.sentinel.mask.worker.py:245-253 | The loop builds the `MaskKwargs` dictionary and issues the `BandCopies` copies. |
| `MaskWorker.KwargsMembership` | i.sentinel.mask.worker/i.sentinel.mask.worker.py:246-253 | A pair is in kwargs iff some option other than `newmapset` has a non-empty value and the pair carries that value as passed on. |
| `MaskWorker.BandsUnqualified` | i.sentinel.mask.worker/i.sentinel.mask.worker.py:248-251 | No band kwarg contains `@`. |
| `MaskWorker.KwargsKeysDistinct` | i.sentinel.mask.worker/i.sentinel.mask.worker.py:245-253 | Options with distinct names give kwargs with distinct keys. |
| `MaskWorker.FlagStringMembership` | i.sentinel.mask.worker/i.sentinel.mask.worker.py:254-257 | A letter is in the flag string iff that flag is set. |
| `MaskWorker.FlagString` | i.sentinel.mask.worker/i.sentinel.mask.worker.py:254-257 | The flag string has at most one letter per flag. |
| `MaskWorker.BuildFlagString` | i.sentinel.mask.worker/i.sentinel.mask.worker.py:254-257 | The loop builds `FlagString`, the set flags in iteration order. |
| `MaskWorker.Lookup` | i.sentinel.mask.worker/i.sentinel.mask.worker.py:258 | `kwargs['nir']` fails with `KeyError` iff no pair has the key; otherwise it yields a pair's value. |
| `MaskWorker.RegionNeedsNir` | i.sentinel.mask.worker/i.sentinel.mask.worker.py:258 | The region lookup succeeds iff a non-empty `nir` option is given, and then yields its unqualified value. |
| `MaskScenes.MetadataFile` | t.sentinel.mask/t.sentinel.mask.py:215-222 | A scene has a metadata path iff the threshold is positive or shadows are requested, and a metadata folder is set. The path ends in `description.json`. |
| `MaskScenes.NewScene` | t.sentinel.mask/t.sentinel.mask.py:208-223 | A new record has the seven bands unset, no date, `<key>_clouds`, and `<key>_shadows` only when shadows are requested. |
| `MaskScenes.AddRow` | t.sentinel.mask/t.sentinel.mask.py:195-230 | A row whose minimum and maximum are both NULL leaves the newer table as it is. A row fails only with its own malformed raster name, and no scene is lost. |
| `MaskScenes.BuildScenes` | t.sentinel.mask/t.sentinel.mask.py:194-230 | The loop builds `ScenesOf`, with the NULL-raster skip in the newer script only. |
| `MaskScenes.AddRowStep` | t.sentinel.mask/t.sentinel.mask.py:195-230 | One iteration of the row loop computes `AddRow`. |
| `MaskScenes.ScenesShape` | t.sentinel.mask/t.sentinel.mask.py:205-223 | The table is well formed: keys are listed once in first-appearance order, and every record has the shape of a new record for its key. |
| `MaskScenes.AddRowShape` | t.sentinel.mask/t.sentinel.mask.py:205-223 | One row keeps the table well formed and every record in shape. |
| `MaskScenes.ScenesKeys` | t.sentinel.mask/t.sentinel.mask.py:197-208 | A key is in the table iff an admitted row has it. In the newer script a row whose minimum and maximum are both NULL is never admitted. |
| `MaskScenes.ScenesDate` | t.sentinel.mask/t.sentinel.mask.py:225-230 | A scene's date is the time of its first admitted row and is never overwritten. |
| `MaskScenes.ScenesBand` | t.sentinel.mask/t.sentinel.mask.py:205-224 | A band of a scene is set iff an admitted row has that key and band. |
| `MaskScenes.NoRowOfKey` | t.sentinel.mask/t.sentinel.mask.py:199-204 | A key missing from the table has no admitted row. |
| `MaskScenes.CheckBands` | t.sentinel.mask/t.sentinel.mask.py:233-235 | The check passes iff every scene has all seven bands, and otherwise fails with "Not all needed bands are given". |
| `MaskScenes.CompleteIffAllBands` | t.sentinel.mask/t.sentinel.mask.py:233-235 | A scene is complete iff an admitted row was read for each of the seven bands. |
| `MaskScenes.ComputesClouds` | t.sentinel.mask/t.sentinel.mask.py:251-259 | A scene is skipped iff threshold > 0 and threshold > CLOUDY_PIXEL_PERCENTAGE. |
| `MaskScenes.CloudierStillComputed` | t.sentinel.mask/t.sentinel.mask.py:254-257 | The decision is monotone: a cloudier scene is processed whenever a clearer one is. |
| `MaskScenes.Decision` | t.sentinel.mask/t.sentinel.mask.py:251-259 | A non-positive threshold always processes the scene. A positive one reads the metadata, and fails when the scene has none or the file is unreadable. |
| `MaskScenes.BandArgs` | t.sentinel.mask/t.sentinel.mask.py:278-284 | The seven band arguments are `blue…swir12`, each set to the band raster `@` the start mapset. |
| `MaskScenes.DoubleRasters` | t.sentinel.mask/t.sentinel.mask.py:260-261 | One `<band raster>_double` name per band, in band order. |
| `MaskScenes.QueueDoubles` | t.sentinel.mask/t.sentinel.mask.py:260-261 | The band loop appends `DoubleRasters` to `rm_rasters`. |
| `MaskScenes.JobFor` | t.sentinel.mask/t.sentinel.mask.py:262-291 | Each job is named after the cloud mask. With shadows requested, the flags are `s` with `shadow_threshold=1000`, and the job fails when the metadata path is missing. Without shadows, the flags are `sc`. The database options are passed only by the newer script, when set. |
| `MaskScenes.Dispatch` | t.sentinel.mask/t.sentinel.mask.py:247-292 | The loop builds `DispatchOf`. |
| `MaskScenes.DispatchOf` | t.sentinel.mask/t.sentinel.mask.py:247-292 | At most one job per scene, and seven `_double` rasters per scene queued for removal. |
| `MaskScenes.DispatchOne` | t.sentinel.mask/t.sentinel.mask.py:248-292 | One scene's iteration of the dispatch loop computes `DispatchStep`. |
| `MaskScenes.ComputedKeys` | t.sentinel.mask/t.sentinel.mask.py:251-262 | A scene is processed iff its decision is to compute. |
| `MaskScenes.DispatchJobs` | t.sentinel.mask/t.sentinel.mask.py:247-292 | Exactly the processed scenes get jobs, in order. The `_double` rasters of every scene are queued for removal. |
| `MaskScenes.ThresholdExtremes` | t.sentinel.mask/t.sentinel.mask.py:251-259 | A non-positive threshold processes every scene. A threshold above every percentage processes none. |
| `MaskScenes.WorkerSeesBand` | t.sentinel.mask/t.sentinel.mask.py:278-284 | The mask worker strips `@mapset` from each band argument and reads back exactly the scene's band raster. |
| `MaskScenes.MaskOutcome` | t.sentinel.mask/t.sentinel.mask.py:307-326 | A mask missing from the worker mapset becomes a null raster. The older script copies it whenever it exists. In the newer script an existing mask is copied when its `min_size_*` option is empty; otherwise it is filtered with `r.reclass.area`, or becomes a null raster when that filter fails. |
| `MaskScenes.CopyMasks` | t.sentinel.mask/t.sentinel.mask.py:300-348 | If the session left the start mapset the run fails; otherwise the result is the outcome for each scene's masks, in order. |
| `MaskScenes.CopyOne` | t.sentinel.mask/t.sentinel.mask.py:301-348 | One scene's iteration yields its cloud-mask outcome, then its shadow-mask outcome when shadows are requested. |
| `MaskScenes.SceneOutcomes` | t.sentinel.mask/t.sentinel.mask.py:304-348 | One outcome for the cloud mask, and a second for the shadow mask exactly when shadows are requested; the first is the scene's cloud mask. |
| `MaskScenes.SkippedSceneNulled` | t.sentinel.mask/t.sentinel.mask.py:304-326 | Provided every stored mapset is the `newmapset` of some queued job, a scene skipped by the threshold ends with a null cloud mask. |
| `MaskScenes.OutcomesCover` | t.sentinel.mask/t.sentinel.mask.py:304-348 | Every scene's cloud mask gets an outcome, and every outcome is a mask of some scene. |
| `MaskMerge.Strftime` | t.sentinel.mask/t.sentinel.mask.py:376 | `strftime` as the directives printed in order: a format of numeric directives alone prints only digits, at least one per directive. |
| `MaskMerge.StrftimeSnoc` | t.sentinel.mask/t.sentinel.mask.py:376 | One more directive appends its text to what the format printed before. |
| `MaskMerge.DayStamp` | t.sentinel.mask/t.sentinel.mask.py:375-376 | `%Y%m%d` is the year followed by the zero-padded month and day, all digits. |
| `MaskMerge.Stamp` | t.sentinel.mask/t.sentinel.mask.py:403-404 | `%Y-%m-%d %H:%M:%S` is the year and the zero-padded month, day, hour, minute and second, with their separators. |
| `MaskMerge.DayStampSameDay` | t.sentinel.mask/t.sentinel.mask.py:375-376 | Two timestamps give the same patch name iff they fall on the same day. |
| `MaskMerge.Dates` | t.sentinel.mask/t.sentinel.mask.py:353-354 | `all_dates` holds each scene's date, in scene order. |
| `MaskMerge.Members` | t.sentinel.mask/t.sentinel.mask.py:362-364 | A scene is in a group iff its date equals the group's date. |
| `MaskMerge.CloudsOf` | t.sentinel.mask/t.sentinel.mask.py:365 | A group's cloud list holds the members' cloud masks, in order. |
| `MaskMerge.ShadowsOf` | t.sentinel.mask/t.sentinel.mask.py:366-367 | A group's shadow list holds the members' shadow masks, in order. |
| `MaskMerge.Groups` | t.sentinel.mask/t.sentinel.mask.py:356-371 | One group per unique date, in that order. |
| `MaskMerge.CollectGroup` | t.sentinel.mask/t.sentinel.mask.py:357-371 | The inner loop builds `GroupOf(date)`. |
| `MaskMerge.GroupByDate` | t.sentinel.mask/t.sentinel.mask.py:351-371 | The grouping loops build `Groups(UniqueDates)`. |
| `MaskMerge.GroupsPartition` | t.sentinel.mask/t.sentinel.mask.py:351-371 | The groups partition the scenes by exact timestamp: each scene is in exactly one group, the one with its date. |
| `MaskMerge.SetMasks` | t.sentinel.mask/t.sentinel.mask.py:386-389 | Only the group's members are rewritten to the patch names; all other scenes are unchanged. |
| `MaskMerge.PatchGroup` | t.sentinel.mask/t.sentinel.mask.py:374-389 | Patching keeps the scene keys and their order. |
| `MaskMerge.PatchAll` | t.sentinel.mask/t.sentinel.mask.py:373-389 | Patching every group keeps the scene keys and their order. |
| `MaskMerge.SetMembers` | t.sentinel.mask/t.sentinel.mask.py:386-389 | The member loop builds `SetMasks`. |
| `MaskMerge.PatchOne` | t.sentinel.mask/t.sentinel.mask.py:374-389 | One group's iteration builds `PatchGroup`. |
| `MaskMerge.PatchGroups` | t.sentinel.mask/t.sentinel.mask.py:373-389 | The patch loop builds `PatchAll`. |
| `MaskMerge.PatchGroupAt` | t.sentinel.mask/t.sentinel.mask.py:374-389 | One group rewrites exactly its members' masks, and only when it has several scenes. Every other scene is unchanged. |
| `MaskMerge.PatchUntouched` | t.sentinel.mask/t.sentinel.mask.py:373-389 | A scene in no multi-scene group keeps its masks through the whole patch loop. |
| `MaskMerge.PatchTouched` | t.sentinel.mask/t.sentinel.mask.py:373-389 | A scene whose one group has several scenes ends with `clouds_patched_<day>`, and `shadows_patched_<day>` when shadows are requested. |
| `MaskMerge.PatchRemoves` | t.sentinel.mask/t.sentinel.mask.py:373-383 | A name is queued for removal iff it is an old mask of a multi-scene group: a cloud mask, or a shadow mask when shadows are requested. |
| `MaskMerge.PatchedScene` | t.sentinel.mask/t.sentinel.mask.py:351-389 | After grouping and patching, a scene sharing its timestamp with another points at the day's patches; a scene alone at its timestamp is unchanged. |
| `MaskMerge.PatchedGroupShares` | t.sentinel.mask/t.sentinel.mask.py:386-406 | Two scenes with the same timestamp end with the same cloud mask (the group's patch), and the same shadow mask when shadows are requested. |
| `MaskMerge.MergedGroupOneLine` | t.sentinel.mask/t.sentinel.mask.py:386-406 | Two scenes with the same timestamp share their patched cloud mask, and that mask occurs exactly once among the registered masks, so the group yields one register line. |
| `MaskMerge.Entries` | t.sentinel.mask/t.sentinel.mask.py:399-404 | One (mask, line) entry per scene, in scene order. |
| `MaskMerge.RegisterOf` | t.sentinel.mask/t.sentinel.mask.py:398-405 | One line per registered mask, and every scene's mask ends up registered. |
| `MaskMerge.RegisteredDistinct` | t.sentinel.mask/t.sentinel.mask.py:398-405 | The registered masks are the deduplicated mask names, so no mask is registered twice. |
| `MaskMerge.RegisterLinesFirst` | t.sentinel.mask/t.sentinel.mask.py:399-405 | Each line is the line of the first scene with that mask. |
| `MaskMerge.WriteMaskRegister` | t.sentinel.mask/t.sentinel.mask.py:396-406 | The newer register loop writes the `RegisterOf` lines, for both clouds and shadows. |
| `MaskMerge.WriteMaskRegisterLegacy` | grass-gis-addons/t.sentinel.mask/t.sentinel.mask.py:278-284 | The older loop writes one line per scene. |
| `MaskMerge.RegistersAgree` | grass-gis-addons/t.sentinel.mask/t.sentinel.mask.py:281-283 | When the mask names are distinct, the deduplicating and the per-scene loops write the same file. |
| `MaskMerge.UnpatchedRegistersAgree` | grass-gis-addons/t.sentinel.mask/t.sentinel.mask.py:278-284 | On an unpatched scene table every scene is dated, and the newer and older cloud register files are equal. |

## Left out

- GRASS commands (`g.copy`, `g.remove`, `g.region`, `g.mapset`, `r.patch`, `r.mapcalc`, `r.mapcalc.tiled`, `r.reclass.area`, `r.resamp.interp`, `i.zero2null`, `t.create`, `t.register`, `t.rast.extract`, `i.sentinel.*`) are foreign calls. The model records which call each step issues, not its pixel semantics.
- The offset step of the newer import, with its mapcalc expression and description copying, is pixel arithmetic done by `r.mapcalc.tiled`, so it is not modelled.
- Downloads, sen2cor, the settings and s2names files, and temporary-file handling are I/O and are not modelled.
- `ParallelModuleQueue` is concurrency. Queued workers are a sequence in queue order, and completion order is not modelled.
- `freeRAM` runs external tools and floating-point arithmetic. Free memory is an integer input, and the older probe's failure is `None`.
- `os.listdir`, `g.list`, `t.rast.list` and `r.info` outputs are inputs, in the order they are given. Process ids, `mp.cpu_count()` and GISRC contents are inputs too.
- `json.load` of the metadata: the cloudy-pixel percentage of each readable file is a map from path to a real number.
- `datetime.strptime` is not modelled: rows carry a parsed timestamp record. `strftime` is modelled as an interpreter over the directives the scripts use (`%Y`, `%m`, `%d`, `%H`, `%M`, `%S` and literal text), zero padded, for four-digit years.
- `threshold` and `CLOUDY_PIXEL_PERCENTAGE` are reals rather than floats. The minimum sizes are strings; the model only distinguishes empty from non-empty.
- `set()` iteration order (`list(set(maplist))`, `unique_dates`) is unspecified in Python. The model takes first-occurrence order; the lemmas concern contents and multiplicity, which do not depend on the order.
- The three `re.findall` calls of the band pattern are modelled for patterns without newlines, since `.` does not match a newline.
- `int()` of version components accepts digits with an optional sign. Surrounding whitespace and underscores are not modelled.
- Band names that collide with the record keys `date`, `clouds`, `shadows` and `metadata` of a scene dictionary are not modelled. The seven bands are a separate map.
- Shell quoting of the worker command line is not modelled. The command is the string the script builds.
- `g.list` of a mapset that does not exist is taken to be empty.
- The GISRC block of the import worker (`i.sentinel.import.worker.py:227-232`) is identical to the mask worker's and is modelled once, in `MaskWorker`.
- The worker's `pg_user` option passes through like any other non-band option; the database login itself is a GRASS command.
- The option parser headers and `atexit` cleanup are not modelled; they only supply inputs.
- `Budget.TestNprocsMemoryLegacy` follows the corrected rule on a failed free-RAM probe: it warns and keeps `memory`, where the script as written raises `TypeError` at grass-gis-addons/t.sentinel.import/t.sentinel.import.py:156. The as-written behaviour is `Budget.LegacyFreeRamAsWritten`.
- `CopyBack.Location.CollectLayers` requires the start mapset not to be one of the `S2_import_<n>` worker ids. The scripts do not check this; a start mapset of that name would be copied into itself and removed, which the model does not cover.
- The time-series steps run only when `strds_output` is given (t.sentinel.import/t.sentinel.import.py:574; grass-gis-addons/t.sentinel.import/t.sentinel.import.py:319), and the cloud register only with `-c` as well (t.sentinel.import/t.sentinel.import.py:607; grass-gis-addons/t.sentinel.import/t.sentinel.import.py:339). The model does not include these gates: band extraction, the band register and the cloud register are modelled as the steps that run once they are open.
- `Budget.RoundDiv` rounds the exact rational `memory / procs`, while the script rounds a float quotient. The two agree while `|memory|` stays below 2^52 MB; larger values are not modelled.
- `Budget.TestNprocsMemory` takes free RAM after `abs()`: the newer probe returns an integer, so no failure path is modelled there.

## Findings

| source | as written | input that shows it | evidently intended | confidence | as-written member | corrected member |
|---|---|---|---|---|---|---|
| grass-gis-addons/t.sentinel.import/t.sentinel.import.py:156 | `abs(freeRAM('MB', 100))`, where `freeRAM`'s `except` branch (lines 196-197) only warns and returns `None` | any host where the `free`/`os-release` probe fails: `abs(None)` raises `TypeError` after "Free RAM is not checked" | skip the memory check when free RAM is unknown, as the warning says | not executed | `Budget.LegacyFreeRamAsWritten` | `Budget.LegacyMemoryIntended` |
| i.sentinel.mask.worker/i.sentinel.mask.worker.py:237 | `if options["pg_database"] is not None` | `pg_database` left unset: the parser gives `""`, so `db.connect driver=pg database=` runs | connect only when a database name is given, as `t.sentinel.mask.py:271` tests with truthiness | not executed | `MaskWorker.ConnectsAsWritten` | `MaskWorker.ConnectsIntended` |
