/** The last steps of `t.sentinel.mask`: scenes sharing a timestamp are
    grouped and their masks patched into one per day, and the register
    lines of the cloud and shadow STRDS are written (one per distinct mask
    in the newer script, one per scene in the grass-gis-addons variant). */
module MaskMerge {
  import opened Wrappers
  import opened Strings
  import opened Lists
  import opened MaskScenes

  // ---------------------------------------------------------------------------
  // strftime

  /** A number printed with at least two digits (`%m`, `%d`, `%H`, ...). */
  function Pad2(n: nat): (s: string)
    ensures n < 100 ==> |s| == 2
  {
    if n < 10 then "0" + NatToString(n) else NatToString(n)
  }

  /** The `strftime` directives the script uses (`%Y`, `%m`, `%d`, `%H`,
      `%M`, `%S`) and literal text between them. */
  datatype Directive = FullYear | Month2 | Day2 | Hour2 | Minute2 | Second2 | Lit(text: string)

  function DirectiveText(x: Directive, d: DateTime): string
  {
    match x
    case FullYear => NatToString(d.year)
    case Month2 => Pad2(d.month)
    case Day2 => Pad2(d.day)
    case Hour2 => Pad2(d.hour)
    case Minute2 => Pad2(d.minute)
    case Second2 => Pad2(d.second)
    case Lit(text) => text
  }

  predicate NoLiterals(fmt: seq<Directive>)
  {
    forall i :: 0 <= i < |fmt| ==> !fmt[i].Lit?
  }

  predicate AllDigits(s: string)
  {
    forall j :: 0 <= j < |s| ==> IsDigit(s[j])
  }

  /** `d.strftime(fmt)`: the directives printed in order; a format of
      numeric directives alone prints only digits, at least one per
      directive. */
  function Strftime(d: DateTime, fmt: seq<Directive>): (s: string)
    ensures NoLiterals(fmt) ==> AllDigits(s) && |s| >= |fmt|
  {
    if |fmt| == 0 then ""
    else
      var init, x := fmt[..|fmt| - 1], fmt[|fmt| - 1];
      NoLiteralsPrefix(fmt);
      DirectiveDigits(x, d);
      DigitsConcat(Strftime(d, init), DirectiveText(x, d));
      Strftime(d, init) + DirectiveText(x, d)
  }

  lemma NoLiteralsPrefix(fmt: seq<Directive>)
    requires |fmt| > 0
    ensures NoLiterals(fmt) ==> NoLiterals(fmt[..|fmt| - 1]) && !fmt[|fmt| - 1].Lit?
  {
  }

  lemma DirectiveDigits(x: Directive, d: DateTime)
    ensures !x.Lit? ==> AllDigits(DirectiveText(x, d)) && |DirectiveText(x, d)| >= 1
  {
  }

  lemma DigitsConcat(a: string, b: string)
    ensures AllDigits(a) && AllDigits(b) ==> AllDigits(a + b)
  {
  }

  /** Formatting is directive by directive: one more directive appends
      its text. */
  lemma StrftimeSnoc(d: DateTime, f: seq<Directive>, x: Directive)
    ensures Strftime(d, f + [x]) == Strftime(d, f) + DirectiveText(x, d)
  {
    assert (f + [x])[..|f|] == f;
  }

  lemma StrftimeOne(d: DateTime, x: Directive)
    ensures Strftime(d, [x]) == DirectiveText(x, d)
  {
    assert [x][..0] == [];
  }

  /** `'%Y%m%d'` */
  const DayFormat: seq<Directive> := [FullYear, Month2, Day2]

  /** `'%Y-%m-%d %H:%M:%S'` */
  const StampFormat: seq<Directive> :=
    [FullYear] + [Lit("-")] + [Month2] + [Lit("-")] + [Day2] + [Lit(" ")]
      + [Hour2] + [Lit(":")] + [Minute2] + [Lit(":")] + [Second2]

  /** `strftime('%Y%m%d')`, the day in a patch name. */
  function DayStamp(d: DateTime): (s: string)
    ensures s == NatToString(d.year) + Pad2(d.month) + Pad2(d.day)
    ensures AllDigits(s)
  {
    DayFormatParts(d);
    Strftime(d, DayFormat)
  }

  /** `strftime('%Y-%m-%d %H:%M:%S')`, the time of a register line. */
  function Stamp(d: DateTime): (s: string)
    ensures s == NatToString(d.year) + "-" + Pad2(d.month) + "-" + Pad2(d.day) + " "
                 + Pad2(d.hour) + ":" + Pad2(d.minute) + ":" + Pad2(d.second)
  {
    StampFormatParts(d);
    Strftime(d, StampFormat)
  }

  lemma DayFormatParts(d: DateTime)
    ensures Strftime(d, DayFormat) == NatToString(d.year) + Pad2(d.month) + Pad2(d.day)
  {
    var f1, f2 := [FullYear], [FullYear, Month2];
    assert f1[..0] == [] && f2[..1] == f1 && DayFormat[..2] == f2;
    assert Strftime(d, f1) == "" + NatToString(d.year) == NatToString(d.year);
    assert Strftime(d, f2) == NatToString(d.year) + Pad2(d.month);
  }

  lemma StampFormatParts(d: DateTime)
    ensures Strftime(d, StampFormat) == NatToString(d.year) + "-" + Pad2(d.month) + "-" + Pad2(d.day) + " "
                                        + Pad2(d.hour) + ":" + Pad2(d.minute) + ":" + Pad2(d.second)
  {
    var f1 := [FullYear];
    StrftimeOne(d, FullYear);
    var f2 := f1 + [Lit("-")];
    StrftimeSnoc(d, f1, Lit("-"));
    var f3 := f2 + [Month2];
    StrftimeSnoc(d, f2, Month2);
    var f4 := f3 + [Lit("-")];
    StrftimeSnoc(d, f3, Lit("-"));
    var f5 := f4 + [Day2];
    StrftimeSnoc(d, f4, Day2);
    var f6 := f5 + [Lit(" ")];
    StrftimeSnoc(d, f5, Lit(" "));
    var f7 := f6 + [Hour2];
    StrftimeSnoc(d, f6, Hour2);
    var f8 := f7 + [Lit(":")];
    StrftimeSnoc(d, f7, Lit(":"));
    var f9 := f8 + [Minute2];
    StrftimeSnoc(d, f8, Minute2);
    var f10 := f9 + [Lit(":")];
    StrftimeSnoc(d, f9, Lit(":"));
    StrftimeSnoc(d, f10, Second2);
  }




  lemma {:induction false} FourDigits(n: nat)
    requires 1000 <= n < 10000
    ensures |NatToString(n)| == 4
  {
    assert NatToString(n) == NatToString(n / 10) + [DigitChar(n % 10)];
    assert NatToString(n / 10) == NatToString(n / 100) + [DigitChar(n / 10 % 10)];
    assert NatToString(n / 100) == NatToString(n / 1000) + [DigitChar(n / 100 % 10)];
  }

  /** `str(n)` has no leading zero. */
  lemma {:induction false} LeadingNonZero(n: nat)
    requires n >= 1
    ensures NatToString(n)[0] != '0'
  {
    if n >= 10 {
      LeadingNonZero(n / 10);
    }
  }

  lemma Pad2Injective(a: nat, b: nat)
    requires a < 100 && b < 100 && Pad2(a) == Pad2(b)
    ensures a == b
  {
    if a >= 10 {
      LeadingNonZero(a);
    }
    if b >= 10 {
      LeadingNonZero(b);
    }
    if a < 10 && b < 10 {
      assert NatToString(a) == Pad2(a)[1..];
      assert NatToString(b) == Pad2(b)[1..];
      NatToStringInjective(a, b);
    } else if a >= 10 && b >= 10 {
      NatToStringInjective(a, b);
    }
  }

  /** With four-digit years and two-digit months and days, two dates share a
      patch name exactly when they fall on the same day, whatever their
      times: scenes of one day with different timestamps form different
      groups that are patched under the same name. */
  lemma DayStampSameDay(d: DateTime, e: DateTime)
    requires 1000 <= d.year < 10000 && 1000 <= e.year < 10000
    requires d.month < 100 && d.day < 100 && e.month < 100 && e.day < 100
    ensures DayStamp(d) == DayStamp(e) <==> d.year == e.year && d.month == e.month && d.day == e.day
  {
    if DayStamp(d) == DayStamp(e) {
      FourDigits(d.year);
      FourDigits(e.year);
      var x, y := DayStamp(d), DayStamp(e);
      assert NatToString(d.year) == x[..4] && NatToString(e.year) == y[..4];
      assert Pad2(d.month) == x[4..6] && Pad2(e.month) == y[4..6];
      assert Pad2(d.day) == x[6..] && Pad2(e.day) == y[6..];
      NatToStringInjective(d.year, e.year);
      Pad2Injective(d.month, e.month);
      Pad2Injective(d.day, e.day);
    }
  }

  // ---------------------------------------------------------------------------
  // grouping by timestamp

  /** `all_dates`: the date of every scene, in scene order. */
  function Dates(keys: seq<string>, t: SceneTable): (ds: seq<Option<DateTime>>)
    requires forall k :: k in keys ==> k in t.scenes
    ensures |ds| == |keys| && forall i :: 0 <= i < |keys| ==> ds[i] == t.scenes[keys[i]].date
  {
    seq(|keys|, i requires 0 <= i < |keys| => t.scenes[keys[i]].date)
  }

  /** `list(set(all_dates))`, read as the distinct dates in first-occurrence
      order (the order of a Python set is not specified). */
  function UniqueDates(t: SceneTable): seq<Option<DateTime>>
    requires forall k :: k in t.order ==> k in t.scenes
  {
    Dedup(Dates(t.order, t))
  }

  /** One entry of `dates_scenes`. */
  datatype DateGroup = DateGroup(date: Option<DateTime>, scenes: seq<string>, clouds: seq<string>, shadows: seq<string>)

  /** The scenes with exactly the given timestamp, in scene order. */
  function Members(date: Option<DateTime>, keys: seq<string>, t: SceneTable): (ms: seq<string>)
    requires forall k :: k in keys ==> k in t.scenes
    ensures forall k :: k in ms <==> k in keys && t.scenes[k].date == date
    ensures |ms| <= |keys|
  {
    if |keys| == 0 then []
    else
      var k := keys[|keys| - 1];
      Members(date, keys[..|keys| - 1], t) + (if t.scenes[k].date == date then [k] else [])
  }

  /** The name of a scene's shadow mask (`s2_scene['shadows']`). */
  function ShadowName(s: Scene): string
  {
    if s.shadows.Some? then s.shadows.value else "None"
  }

  function CloudsOf(ms: seq<string>, t: SceneTable): (cs: seq<string>)
    requires forall k :: k in ms ==> k in t.scenes
    ensures |cs| == |ms| && forall i :: 0 <= i < |ms| ==> cs[i] == t.scenes[ms[i]].clouds
  {
    seq(|ms|, i requires 0 <= i < |ms| => t.scenes[ms[i]].clouds)
  }

  function ShadowsOf(ms: seq<string>, t: SceneTable): (ss: seq<string>)
    requires forall k :: k in ms ==> k in t.scenes
    ensures |ss| == |ms| && forall i :: 0 <= i < |ms| ==> ss[i] == ShadowName(t.scenes[ms[i]])
  {
    seq(|ms|, i requires 0 <= i < |ms| => ShadowName(t.scenes[ms[i]]))
  }

  /** The group of one date: its scenes with their cloud masks, and their
      shadow masks when shadows are requested. */
  function GroupOf(date: Option<DateTime>, t: SceneTable, withShadows: bool): DateGroup
    requires forall k :: k in t.order ==> k in t.scenes
  {
    GroupOfKeys(date, t.order, t, withShadows)
  }

  function GroupOfKeys(date: Option<DateTime>, keys: seq<string>, t: SceneTable, withShadows: bool): DateGroup
    requires forall k :: k in keys ==> k in t.scenes
  {
    var ms := Members(date, keys, t);
    DateGroup(date, ms, CloudsOf(ms, t), if withShadows then ShadowsOf(ms, t) else [])
  }

  function Groups(dates: seq<Option<DateTime>>, t: SceneTable, withShadows: bool): (gs: seq<DateGroup>)
    requires forall k :: k in t.order ==> k in t.scenes
    ensures |gs| == |dates|
  {
    if |dates| == 0 then []
    else Groups(dates[..|dates| - 1], t, withShadows) + [GroupOf(dates[|dates| - 1], t, withShadows)]
  }

  /** The group at each position is the group of the date at that position. */
  lemma {:induction false} GroupsAt(dates: seq<Option<DateTime>>, t: SceneTable, withShadows: bool, i: nat)
    requires forall k :: k in t.order ==> k in t.scenes
    requires i < |dates|
    ensures Groups(dates, t, withShadows)[i] == GroupOf(dates[i], t, withShadows)
  {
    var init := dates[..|dates| - 1];
    var gs, g := Groups(init, t, withShadows), GroupOf(dates[|dates| - 1], t, withShadows);
    assert Groups(dates, t, withShadows) == gs + [g];
    if i < |init| {
      GroupsAt(init, t, withShadows, i);
      assert init[i] == dates[i];
      assert (gs + [g])[i] == gs[i];
    } else {
      assert (gs + [g])[i] == g;
    }
  }

  lemma DatesStep(keys: seq<string>, t: SceneTable, i: nat)
    requires forall k :: k in keys ==> k in t.scenes
    requires i < |keys|
    ensures Dates(keys[..i + 1], t) == Dates(keys[..i], t) + [t.scenes[keys[i]].date]
  {
    var a, b := Dates(keys[..i + 1], t), Dates(keys[..i], t) + [t.scenes[keys[i]].date];
    forall j | 0 <= j < i + 1 ensures a[j] == b[j] {
      if j < i {
        assert keys[..i + 1][j] == keys[..i][j];
      }
    }
  }

  lemma GroupsStep(dates: seq<Option<DateTime>>, t: SceneTable, withShadows: bool, i: nat)
    requires forall k :: k in t.order ==> k in t.scenes
    requires i < |dates|
    ensures Groups(dates[..i + 1], t, withShadows) == Groups(dates[..i], t, withShadows) + [GroupOf(dates[i], t, withShadows)]
  {
    assert dates[..i + 1][..i] == dates[..i];
  }

  /** One more scene extends the group exactly when it has the group's date. */
  lemma GroupStep(date: Option<DateTime>, keys: seq<string>, k: string, t: SceneTable, withShadows: bool)
    requires forall x :: x in keys ==> x in t.scenes
    requires k in t.scenes
    ensures var g := GroupOfKeys(date, keys, t, withShadows);
      GroupOfKeys(date, keys + [k], t, withShadows) ==
        if t.scenes[k].date == date then
          DateGroup(date, g.scenes + [k], g.clouds + [t.scenes[k].clouds],
                    if withShadows then g.shadows + [ShadowName(t.scenes[k])] else g.shadows)
        else g
  {
    assert (keys + [k])[..|keys|] == keys;
    var ms := Members(date, keys, t);
    if t.scenes[k].date == date {
      assert CloudsOf(ms + [k], t) == CloudsOf(ms, t) + [t.scenes[k].clouds];
      assert ShadowsOf(ms + [k], t) == ShadowsOf(ms, t) + [ShadowName(t.scenes[k])];
    }
  }

  /** The inner loop of the grouping: the scenes of one date. */
  method CollectGroup(date: Option<DateTime>, t: SceneTable, withShadows: bool) returns (g: DateGroup)
    requires forall k :: k in t.order ==> k in t.scenes
    ensures g == GroupOf(date, t, withShadows)
  {
    var scenelist: seq<string> := [];
    var cloudlist: seq<string> := [];
    var shadowlist: seq<string> := [];
    for j := 0 to |t.order|
      invariant DateGroup(date, scenelist, cloudlist, shadowlist) == GroupOfKeys(date, t.order[..j], t, withShadows)
    {
      var k := t.order[j];
      assert t.order[..j + 1] == t.order[..j] + [k];
      GroupStep(date, t.order[..j], k, t, withShadows);
      if t.scenes[k].date == date {
        scenelist := scenelist + [k];
        cloudlist := cloudlist + [t.scenes[k].clouds];
        if withShadows {
          shadowlist := shadowlist + [ShadowName(t.scenes[k])];
        }
      }
    }
    assert t.order[..|t.order|] == t.order;
    g := DateGroup(date, scenelist, cloudlist, shadowlist);
  }

  /** `dates_scenes`: one group per distinct date. */
  method GroupByDate(t: SceneTable, withShadows: bool) returns (groups: seq<DateGroup>)
    requires forall k :: k in t.order ==> k in t.scenes
    ensures groups == Groups(UniqueDates(t), t, withShadows)
  {
    var allDates: seq<Option<DateTime>> := [];
    for i := 0 to |t.order|
      invariant allDates == Dates(t.order[..i], t)
    {
      DatesStep(t.order, t, i);
      allDates := allDates + [t.scenes[t.order[i]].date];
    }
    assert t.order[..|t.order|] == t.order;
    var uniqueDates := Dedup(allDates);
    groups := [];
    for i := 0 to |uniqueDates|
      invariant groups == Groups(uniqueDates[..i], t, withShadows)
    {
      var g := CollectGroup(uniqueDates[i], t, withShadows);
      GroupsStep(uniqueDates, t, withShadows, i);
      groups := groups + [g];
    }
    assert uniqueDates[..|uniqueDates|] == uniqueDates;
  }

  /** The groups partition the scenes: a scene is in a group exactly when
      it has the group's timestamp, so it is in exactly one group. */
  lemma GroupsPartition(t: SceneTable, withShadows: bool)
    requires forall k :: k in t.order ==> k in t.scenes
    ensures var gs := Groups(UniqueDates(t), t, withShadows);
      (forall i, k :: 0 <= i < |gs| ==> (k in gs[i].scenes <==> k in t.order && t.scenes[k].date == gs[i].date))
      && (forall k :: k in t.order ==> exists i :: 0 <= i < |gs| && k in gs[i].scenes)
      && (forall i, j, k :: 0 <= i < |gs| && 0 <= j < |gs| && k in gs[i].scenes && k in gs[j].scenes ==> i == j)
  {
    GroupsMembers(t, withShadows);
    GroupsCover(t, withShadows);
    GroupsDisjoint(t, withShadows);
  }

  lemma GroupsMembers(t: SceneTable, withShadows: bool)
    requires forall k :: k in t.order ==> k in t.scenes
    ensures var ds, gs := UniqueDates(t), Groups(UniqueDates(t), t, withShadows);
      forall i :: 0 <= i < |gs| ==>
        gs[i].date == ds[i] && forall k :: k in gs[i].scenes <==> k in t.order && t.scenes[k].date == ds[i]
  {
    var gs := Groups(UniqueDates(t), t, withShadows);
    forall i | 0 <= i < |gs|
      ensures gs[i].date == UniqueDates(t)[i]
      ensures forall k :: k in gs[i].scenes <==> k in t.order && t.scenes[k].date == UniqueDates(t)[i]
    {
      GroupAt(t, withShadows, i);
    }
  }

  predicate InSomeGroup(gs: seq<DateGroup>, k: string)
  {
    exists i :: 0 <= i < |gs| && k in gs[i].scenes
  }

  lemma GroupsCover(t: SceneTable, withShadows: bool)
    requires forall k :: k in t.order ==> k in t.scenes
    ensures forall k :: k in t.order ==> InSomeGroup(Groups(UniqueDates(t), t, withShadows), k)
  {
    var ds := UniqueDates(t);
    var gs := Groups(ds, t, withShadows);
    forall k | k in t.order ensures InSomeGroup(gs, k) {
      var n :| 0 <= n < |t.order| && t.order[n] == k;
      var all := Dates(t.order, t);
      assert all[n] == t.scenes[k].date;
      assert t.scenes[k].date in ds;
      var i :| 0 <= i < |ds| && ds[i] == t.scenes[k].date;
      GroupAt(t, withShadows, i);
      assert k in gs[i].scenes;
    }
  }

  lemma GroupsDisjoint(t: SceneTable, withShadows: bool)
    requires forall k :: k in t.order ==> k in t.scenes
    ensures var gs := Groups(UniqueDates(t), t, withShadows);
      forall i, j, k :: 0 <= i < |gs| && 0 <= j < |gs| && k in gs[i].scenes && k in gs[j].scenes ==> i == j
  {
    var ds := UniqueDates(t);
    var gs := Groups(ds, t, withShadows);
    forall i, j, k | 0 <= i < |gs| && 0 <= j < |gs| && k in gs[i].scenes && k in gs[j].scenes
      ensures i == j
    {
      GroupAt(t, withShadows, i);
      GroupAt(t, withShadows, j);
      assert ds[i] == ds[j];
      assert NoDuplicates(ds);
    }
  }

  /** The group at a position holds the scenes with that position's date. */
  lemma GroupAt(t: SceneTable, withShadows: bool, i: nat)
    requires forall k :: k in t.order ==> k in t.scenes
    requires i < |UniqueDates(t)|
    ensures var ds, gs := UniqueDates(t), Groups(UniqueDates(t), t, withShadows);
      gs[i].date == ds[i] && forall k :: k in gs[i].scenes <==> k in t.order && t.scenes[k].date == ds[i]
  {
    GroupsAt(UniqueDates(t), t, withShadows, i);
  }

  /** Every group has a date and only scenes of the table. */
  lemma AllGroupsFit(t: SceneTable, withShadows: bool)
    requires forall k' :: k' in t.order ==> k' in t.scenes && t.scenes[k'].date.Some?
    ensures var gs := Groups(UniqueDates(t), t, withShadows);
      forall i :: 0 <= i < |gs| ==> GroupFits(gs[i], t)
  {
    var ds := UniqueDates(t);
    var gs := Groups(ds, t, withShadows);
    forall i | 0 <= i < |gs| ensures GroupFits(gs[i], t) {
      GroupAt(t, withShadows, i);
      var n :| 0 <= n < |t.order| && Dates(t.order, t)[n] == ds[i];
    }
  }

  /** The one group a scene of the table belongs to. */
  lemma SceneGroup(t: SceneTable, withShadows: bool, k: string) returns (i: nat)
    requires forall k' :: k' in t.order ==> k' in t.scenes
    requires k in t.order
    ensures var gs := Groups(UniqueDates(t), t, withShadows);
      i < |gs| && gs[i] == GroupOf(t.scenes[k].date, t, withShadows) && k in gs[i].scenes
      && forall j :: 0 <= j < |gs| && k in gs[j].scenes ==> j == i
  {
    var ds := UniqueDates(t);
    var gs := Groups(ds, t, withShadows);
    GroupsPartition(t, withShadows);
    i :| 0 <= i < |gs| && k in gs[i].scenes;
    GroupAt(t, withShadows, i);
    GroupsAt(ds, t, withShadows, i);
  }

  // ---------------------------------------------------------------------------
  // patching same-date scenes

  /** `'clouds_patched_{}'.format(date.strftime('%Y%m%d'))` and the shadow
      counterpart. */
  function PatchName(prefix: string, d: DateTime): string
  {
    prefix + DayStamp(d)
  }

  /** A scene record once its masks point at the patched rasters. */
  function Patched(s: Scene, cp: string, sp: Option<string>): Scene
  {
    s.(clouds := cp, shadows := if sp.Some? then sp else s.shadows)
  }

  /** The member loop: every member's masks point at the patch. */
  function SetMasks(scenes: map<string, Scene>, members: seq<string>, cp: string, sp: Option<string>): (r: map<string, Scene>)
    requires forall k :: k in members ==> k in scenes
    ensures r.Keys == scenes.Keys
    ensures forall k :: k in scenes ==> r[k] == if k in members then Patched(scenes[k], cp, sp) else scenes[k]
  {
    if |members| == 0 then scenes
    else
      var init := SetMasks(scenes, members[..|members| - 1], cp, sp);
      var m := members[|members| - 1];
      assert forall k :: k in members[..|members| - 1] ==> k in members;
      var r := init[m := Patched(scenes[m], cp, sp)];
      assert forall k :: k in scenes && k in members && k != m ==> k in members[..|members| - 1];
      r
  }

  predicate GroupFits(g: DateGroup, t: SceneTable)
  {
    g.date.Some? && forall k :: k in g.scenes ==> k in t.scenes
  }

  /** The patched cloud mask of a group. */
  function CloudPatch(g: DateGroup): string
    requires g.date.Some?
  {
    PatchName("clouds_patched_", g.date.value)
  }

  /** The patched shadow mask of a group, when shadows are requested. */
  function ShadowPatch(g: DateGroup, withShadows: bool): Option<string>
    requires g.date.Some?
  {
    if withShadows then Some(PatchName("shadows_patched_", g.date.value)) else None
  }

  /** One group: a group of more than one scene is patched, its old masks
      are queued for removal and its members are rewritten. */
  function PatchGroup(t: SceneTable, g: DateGroup, withShadows: bool): (r: (SceneTable, seq<string>))
    requires GroupFits(g, t)
    ensures r.0.order == t.order && r.0.scenes.Keys == t.scenes.Keys
  {
    if |g.scenes| > 1 then
      (SceneTable(t.order, SetMasks(t.scenes, g.scenes, CloudPatch(g), ShadowPatch(g, withShadows))),
       g.clouds + (if withShadows then g.shadows else []))
    else (t, [])
  }

  /** All groups, in order, with the removals they queue. */
  function PatchAll(groups: seq<DateGroup>, t: SceneTable, withShadows: bool): (r: (SceneTable, seq<string>))
    requires forall i :: 0 <= i < |groups| ==> GroupFits(groups[i], t)
    ensures r.0.order == t.order && r.0.scenes.Keys == t.scenes.Keys
  {
    if |groups| == 0 then (t, [])
    else
      var before := PatchAll(groups[..|groups| - 1], t, withShadows);
      var g := groups[|groups| - 1];
      assert GroupFits(g, t);
      assert forall k :: k in t.scenes ==> k in before.0.scenes;
      assert GroupFits(g, before.0);
      var here := PatchGroup(before.0, g, withShadows);
      (here.0, before.1 + here.1)
  }

  lemma SetMasksSnoc(scenes: map<string, Scene>, members: seq<string>, x: string, cp: string, sp: Option<string>)
    requires forall k :: k in members ==> k in scenes
    requires x in scenes
    ensures SetMasks(scenes, members + [x], cp, sp) == SetMasks(scenes, members, cp, sp)[x := Patched(scenes[x], cp, sp)]
  {
    assert (members + [x])[..|members|] == members;
  }

  /** The member loop over one group. */
  method SetMembers(scenes: map<string, Scene>, members: seq<string>, cp: string, sp: Option<string>) returns (m: map<string, Scene>)
    requires forall k :: k in members ==> k in scenes
    ensures m == SetMasks(scenes, members, cp, sp)
  {
    m := scenes;
    for j := 0 to |members|
      invariant m == SetMasks(scenes, members[..j], cp, sp)
    {
      assert members[..j + 1] == members[..j] + [members[j]];
      SetMasksSnoc(scenes, members[..j], members[j], cp, sp);
      m := m[members[j] := Patched(scenes[members[j]], cp, sp)];
    }
    assert members[..|members|] == members;
  }

  /** The body of the patch loop for one date. */
  method PatchOne(t: SceneTable, g: DateGroup, withShadows: bool) returns (r: SceneTable, rm: seq<string>)
    requires GroupFits(g, t)
    ensures (r, rm) == PatchGroup(t, g, withShadows)
  {
    if |g.scenes| > 1 {
      var day := g.date.value;
      var cloudPatch := PatchName("clouds_patched_", day);
      var shadowPatch: Option<string> := None;
      rm := g.clouds;
      if withShadows {
        shadowPatch := Some(PatchName("shadows_patched_", day));
        rm := rm + g.shadows;
      } else {
        assert rm + [] == rm;
      }
      var scenes := SetMembers(t.scenes, g.scenes, cloudPatch, shadowPatch);
      r := SceneTable(t.order, scenes);
    } else {
      r, rm := t, [];
    }
  }

  /** The patch loop of `main`. */
  method PatchGroups(t: SceneTable, groups: seq<DateGroup>, withShadows: bool) returns (r: SceneTable, rm: seq<string>)
    requires forall i :: 0 <= i < |groups| ==> GroupFits(groups[i], t)
    ensures (r, rm) == PatchAll(groups, t, withShadows)
  {
    r, rm := t, [];
    for i := 0 to |groups|
      invariant (r, rm) == PatchAll(groups[..i], t, withShadows)
    {
      assert groups[..i + 1][..i] == groups[..i];
      var g := groups[i];
      assert GroupFits(g, t);
      assert forall k :: k in t.scenes ==> k in r.scenes;
      var r1, added := PatchOne(r, g, withShadows);
      r, rm := r1, rm + added;
    }
    assert groups[..|groups|] == groups;
  }

  /** The last group is patched onto the table the earlier groups left. */
  lemma PatchAllLast(groups: seq<DateGroup>, t: SceneTable, withShadows: bool)
    requires forall i :: 0 <= i < |groups| ==> GroupFits(groups[i], t)
    requires |groups| > 0
    ensures var n := |groups| - 1;
      var before := PatchAll(groups[..n], t, withShadows);
      GroupFits(groups[n], before.0)
      && PatchAll(groups, t, withShadows).0 == PatchGroup(before.0, groups[n], withShadows).0
  {
  }

  /** What one group does to one scene: a member of a group of several
      scenes points at the group's patches, any other scene is unchanged. */
  lemma PatchGroupAt(t: SceneTable, g: DateGroup, withShadows: bool, k: string)
    requires GroupFits(g, t)
    requires k in t.scenes
    ensures PatchGroup(t, g, withShadows).0.scenes[k] ==
      if k in g.scenes && |g.scenes| > 1 then Patched(t.scenes[k], CloudPatch(g), ShadowPatch(g, withShadows)) else t.scenes[k]
  {
  }

  /** A scene that is in no group of several scenes keeps its masks through
      the patch loop. */
  lemma {:induction false} PatchUntouched(groups: seq<DateGroup>, t: SceneTable, withShadows: bool, k: string)
    requires forall i :: 0 <= i < |groups| ==> GroupFits(groups[i], t)
    requires k in t.scenes
    requires forall i :: 0 <= i < |groups| && k in groups[i].scenes ==> |groups[i].scenes| <= 1
    ensures PatchAll(groups, t, withShadows).0.scenes[k] == t.scenes[k]
  {
    if |groups| > 0 {
      var n := |groups| - 1;
      var prefix := groups[..n];
      assert forall i :: 0 <= i < n ==> prefix[i] == groups[i];
      PatchUntouched(prefix, t, withShadows, k);
      PatchAllLast(groups, t, withShadows);
      PatchGroupAt(PatchAll(prefix, t, withShadows).0, groups[n], withShadows, k);
    }
  }

  /** A scene whose one group has several scenes ends up pointing at that
      group's patches. */
  lemma {:induction false} PatchTouched(groups: seq<DateGroup>, t: SceneTable, withShadows: bool, k: string, i: nat)
    requires forall j :: 0 <= j < |groups| ==> GroupFits(groups[j], t)
    requires k in t.scenes
    requires i < |groups| && k in groups[i].scenes && |groups[i].scenes| > 1
    requires forall j :: 0 <= j < |groups| && k in groups[j].scenes ==> j == i
    ensures PatchAll(groups, t, withShadows).0.scenes[k] ==
      Patched(t.scenes[k], CloudPatch(groups[i]), ShadowPatch(groups[i], withShadows))
  {
    var n := |groups| - 1;
    var prefix := groups[..n];
    assert forall j :: 0 <= j < n ==> prefix[j] == groups[j];
    if i == n {
      PatchUntouched(prefix, t, withShadows, k);
    } else {
      PatchTouched(prefix, t, withShadows, k, i);
    }
    PatchAllLast(groups, t, withShadows);
    PatchGroupAt(PatchAll(prefix, t, withShadows).0, groups[n], withShadows, k);
  }

  /** A mask name a group queues for removal: an old mask of one of its
      scenes, when the group is patched. */
  predicate Queued(g: DateGroup, withShadows: bool, c: string)
  {
    |g.scenes| > 1 && (c in g.clouds || (withShadows && c in g.shadows))
  }

  /** The removals of one group are exactly the names it queues. */
  lemma PatchGroupQueues(t: SceneTable, g: DateGroup, withShadows: bool)
    requires GroupFits(g, t)
    ensures forall c :: c in PatchGroup(t, g, withShadows).1 <==> Queued(g, withShadows, c)
  {
  }

  /** The removals of all groups are those of the earlier groups followed by
      those of the last one. */
  lemma PatchAllLastQueues(groups: seq<DateGroup>, t: SceneTable, withShadows: bool)
    requires forall i :: 0 <= i < |groups| ==> GroupFits(groups[i], t)
    requires |groups| > 0
    ensures var n := |groups| - 1;
      var before := PatchAll(groups[..n], t, withShadows);
      GroupFits(groups[n], before.0)
      && PatchAll(groups, t, withShadows).1 == before.1 + PatchGroup(before.0, groups[n], withShadows).1
  {
  }

  /** Exactly the old masks of the scenes in groups of several scenes are
      queued for removal. */
  lemma {:induction false} PatchRemoves(groups: seq<DateGroup>, t: SceneTable, withShadows: bool)
    requires forall i :: 0 <= i < |groups| ==> GroupFits(groups[i], t)
    ensures forall i, c :: 0 <= i < |groups| && Queued(groups[i], withShadows, c) ==> c in PatchAll(groups, t, withShadows).1
    ensures forall c :: c in PatchAll(groups, t, withShadows).1 ==> exists i :: 0 <= i < |groups| && Queued(groups[i], withShadows, c)
  {
    if |groups| > 0 {
      var n := |groups| - 1;
      var prefix := groups[..n];
      assert forall i :: 0 <= i < n ==> prefix[i] == groups[i];
      PatchRemoves(prefix, t, withShadows);
      PatchAllLastQueues(groups, t, withShadows);
      var before := PatchAll(prefix, t, withShadows);
      var rm := PatchAll(groups, t, withShadows).1;
      PatchGroupQueues(before.0, groups[n], withShadows);
      forall i, c | 0 <= i < |groups| && Queued(groups[i], withShadows, c) ensures c in rm {
        if i < n {
          assert Queued(prefix[i], withShadows, c);
        }
      }
      forall c | c in rm ensures exists i :: 0 <= i < |groups| && Queued(groups[i], withShadows, c) {
        if c in before.1 {
          var i :| 0 <= i < n && Queued(prefix[i], withShadows, c);
          assert Queued(groups[i], withShadows, c);
        } else {
          assert Queued(groups[n], withShadows, c);
        }
      }
    }
  }

  /** Every scene of the table, once patched: a scene sharing its timestamp
      with another scene points at the day's patches; a scene alone at its
      timestamp keeps its own masks. */
  lemma PatchedScene(t: SceneTable, withShadows: bool, k: string)
    requires forall k' :: k' in t.order ==> k' in t.scenes && t.scenes[k'].date.Some?
    requires k in t.order
    ensures var gs := Groups(UniqueDates(t), t, withShadows);
      var g := GroupOf(t.scenes[k].date, t, withShadows);
      (forall i :: 0 <= i < |gs| ==> GroupFits(gs[i], t))
      && PatchAll(gs, t, withShadows).0.scenes[k] ==
         if |g.scenes| > 1 then Patched(t.scenes[k], CloudPatch(g), ShadowPatch(g, withShadows)) else t.scenes[k]
  {
    var gs := Groups(UniqueDates(t), t, withShadows);
    AllGroupsFit(t, withShadows);
    var i := SceneGroup(t, withShadows, k);
    if |gs[i].scenes| > 1 {
      PatchTouched(gs, t, withShadows, k, i);
    } else {
      PatchUntouched(gs, t, withShadows, k);
    }
  }

  /** Two scenes with the same timestamp, when there are several, end with
      the same masks, so the deduplicating register loop writes one line for
      the whole group. */
  lemma PatchedGroupShares(t: SceneTable, withShadows: bool, k1: string, k2: string)
    requires forall k' :: k' in t.order ==> k' in t.scenes && t.scenes[k'].date.Some?
    requires k1 in t.order && k2 in t.order && k1 != k2
    requires t.scenes[k1].date == t.scenes[k2].date
    ensures var gs := Groups(UniqueDates(t), t, withShadows);
      (forall i :: 0 <= i < |gs| ==> GroupFits(gs[i], t))
      && var r := PatchAll(gs, t, withShadows).0;
         r.scenes[k1].clouds == r.scenes[k2].clouds && r.scenes[k1].clouds == CloudPatch(GroupOf(t.scenes[k1].date, t, withShadows))
         && (withShadows ==> r.scenes[k1].shadows == r.scenes[k2].shadows)
  {
    var g := GroupOf(t.scenes[k1].date, t, withShadows);
    assert k1 in g.scenes && k2 in g.scenes;
    TwoMembers(g.scenes, k1, k2);
    PatchedScene(t, withShadows, k1);
    PatchedScene(t, withShadows, k2);
  }

  /** Two scenes with the same timestamp end up on one line of the cloud
      register: they share the patched mask, and that mask is registered
      exactly once. */
  lemma MergedGroupOneLine(t: SceneTable, withShadows: bool, k1: string, k2: string)
    requires forall k' :: k' in t.order ==> k' in t.scenes && t.scenes[k'].date.Some?
    requires k1 in t.order && k2 in t.order && k1 != k2
    requires t.scenes[k1].date == t.scenes[k2].date
    ensures var gs := Groups(UniqueDates(t), t, withShadows);
      (forall i :: 0 <= i < |gs| ==> GroupFits(gs[i], t))
      && var r := PatchAll(gs, t, withShadows).0;
         Dated(r.order, r) && r.scenes[k1].clouds == r.scenes[k2].clouds
         && Count(RegisterOf(Entries(r.order, r, false)).registered, r.scenes[k1].clouds) == 1
  {
    PatchedGroupShares(t, withShadows, k1, k2);
    var gs := Groups(UniqueDates(t), t, withShadows);
    var r := PatchAll(gs, t, withShadows).0;
    forall k | k in r.order
      ensures k in r.scenes && r.scenes[k].date.Some?
    {
      PatchedScene(t, withShadows, k);
    }
    assert Dated(r.order, r);
    var es := Entries(r.order, r, false);
    EntriesNames(r.order, r, false);
    var i :| 0 <= i < |r.order| && r.order[i] == k1;
    assert Firsts(es)[i] == r.scenes[k1].clouds;
    RegisteredDistinct(es);
    CountOnce(RegisterOf(es).registered, r.scenes[k1].clouds);
  }

  lemma TwoMembers(s: seq<string>, a: string, b: string)
    requires a in s && b in s && a != b
    ensures |s| > 1
  {
  }

  // ---------------------------------------------------------------------------
  // register files of the cloud and shadow STRDS

  /** The mask a register line names: `s2_scene['clouds']`, or
      `s2_scene['shadows']` for the shadow STRDS. */
  function MaskName(s: Scene, shadows: bool): string
  {
    if shadows then ShadowName(s) else s.clouds
  }

  /** One register line, `name|%Y-%m-%d %H:%M:%S`. */
  function MaskLine(s: Scene, shadows: bool): string
    requires s.date.Some?
  {
    MaskName(s, shadows) + "|" + Stamp(s.date.value)
  }

  /** Every listed scene has a record with a timestamp (after the row loop
      every scene has one, see `ScenesDate`). */
  predicate Dated(keys: seq<string>, t: SceneTable)
  {
    forall k :: k in keys ==> k in t.scenes && t.scenes[k].date.Some?
  }

  /** The (mask, line) a scene contributes to a register file. */
  function Entry(s: Scene, shadows: bool): (string, string)
    requires s.date.Some?
  {
    (MaskName(s, shadows), MaskLine(s, shadows))
  }

  function Entries(keys: seq<string>, t: SceneTable, shadows: bool): (es: seq<(string, string)>)
    requires Dated(keys, t)
    ensures |es| == |keys|
  {
    if |keys| == 0 then []
    else Entries(keys[..|keys| - 1], t, shadows) + [Entry(t.scenes[keys[|keys| - 1]], shadows)]
  }

  /** The mask names of the listed scenes. */
  function MaskNames(keys: seq<string>, t: SceneTable, shadows: bool): (ns: seq<string>)
    requires forall k :: k in keys ==> k in t.scenes
    ensures |ns| == |keys| && forall i :: 0 <= i < |keys| ==> ns[i] == MaskName(t.scenes[keys[i]], shadows)
  {
    seq(|keys|, i requires 0 <= i < |keys| => MaskName(t.scenes[keys[i]], shadows))
  }

  /** The entries name the masks of the listed scenes, in order. */
  lemma {:induction false} EntriesNames(keys: seq<string>, t: SceneTable, shadows: bool)
    requires Dated(keys, t)
    ensures Firsts(Entries(keys, t, shadows)) == MaskNames(keys, t, shadows)
  {
    if |keys| > 0 {
      var init, last := keys[..|keys| - 1], keys[|keys| - 1];
      var x := Entry(t.scenes[last], shadows);
      EntriesNames(init, t, shadows);
      FirstsSnoc(Entries(init, t, shadows), x);
      assert x.0 == MaskName(t.scenes[last], shadows);
      MaskNamesSnoc(keys, t, shadows);
    }
  }

  lemma MaskNamesSnoc(keys: seq<string>, t: SceneTable, shadows: bool)
    requires |keys| > 0 && forall k :: k in keys ==> k in t.scenes
    ensures MaskNames(keys, t, shadows) == MaskNames(keys[..|keys| - 1], t, shadows) + [MaskName(t.scenes[keys[|keys| - 1]], shadows)]
  {
  }

  lemma EntriesStep(keys: seq<string>, t: SceneTable, shadows: bool, i: nat)
    requires Dated(keys, t) && i < |keys|
    ensures Entries(keys[..i + 1], t, shadows) == Entries(keys[..i], t, shadows) + [Entry(t.scenes[keys[i]], shadows)]
  {
    assert keys[..i + 1][..i] == keys[..i];
  }



  /** The lines written so far and the `clouds_registered` (or
      `shadows_registered`) list. */
  datatype RegisterFile = RegisterFile(lines: seq<string>, registered: seq<string>)

  /** The newer script's register loop: an entry's line is written only when
      its mask is not registered yet. */
  function RegisterOf(es: seq<(string, string)>): (r: RegisterFile)
    ensures |r.lines| == |r.registered|
    ensures forall j :: 0 <= j < |es| ==> es[j].0 in r.registered
  {
    if |es| == 0 then RegisterFile([], [])
    else
      var init := es[..|es| - 1];
      assert forall j :: 0 <= j < |init| ==> init[j] == es[j];
      var f := RegisterOf(init);
      var e := es[|es| - 1];
      if e.0 in f.registered then f
      else RegisterFile(f.lines + [e.1], f.registered + [e.0])
  }

  lemma RegisterStep(es: seq<(string, string)>, e: (string, string))
    ensures var f := RegisterOf(es);
      RegisterOf(es + [e]) == if e.0 in f.registered then f else RegisterFile(f.lines + [e.1], f.registered + [e.0])
  {
    assert (es + [e])[..|es|] == es;
  }

  /** The registered masks are the distinct mask names in scene order, so
      no mask is registered twice. */
  lemma {:induction false} RegisteredDistinct(es: seq<(string, string)>)
    ensures RegisterOf(es).registered == Dedup(Firsts(es))
    ensures NoDuplicates(RegisterOf(es).registered)
  {
    if |es| > 0 {
      var init := es[..|es| - 1];
      RegisteredDistinct(init);
      assert Firsts(es)[..|es| - 1] == Firsts(init);
    }
  }

  /** The index of the first entry with mask `name`, or `|es|`. */
  function FirstWith(es: seq<(string, string)>, name: string): (j: nat)
    ensures j <= |es|
    ensures j < |es| ==> es[j].0 == name
    ensures forall j' :: 0 <= j' < j ==> es[j'].0 != name
  {
    if |es| == 0 || es[0].0 == name then 0 else 1 + FirstWith(es[1..], name)
  }

  lemma {:induction false} FirstWithPrefix(es: seq<(string, string)>, e: (string, string), name: string)
    requires FirstWith(es, name) < |es|
    ensures FirstWith(es + [e], name) == FirstWith(es, name)
  {
    if es[0].0 != name {
      assert (es + [e])[1..] == es[1..] + [e];
      FirstWithPrefix(es[1..], e, name);
    }
  }

  lemma {:induction false} FirstWithLast(es: seq<(string, string)>, e: (string, string))
    requires forall j :: 0 <= j < |es| ==> es[j].0 != e.0
    ensures FirstWith(es + [e], e.0) == |es|
  {
    if |es| > 0 {
      assert (es + [e])[1..] == es[1..] + [e];
      FirstWithLast(es[1..], e);
    }
  }

  /** Each line is the line of the first entry with its mask. */
  lemma {:induction false} RegisterLinesFirst(es: seq<(string, string)>)
    ensures forall i :: 0 <= i < |RegisterOf(es).lines| ==>
      var name := RegisterOf(es).registered[i];
      FirstWith(es, name) < |es| && es[FirstWith(es, name)] == (name, RegisterOf(es).lines[i])
  {
    if |es| > 0 {
      var n := |es| - 1;
      var init := es[..n];
      assert es == init + [es[n]];
      RegisterLinesFirst(init);
      var f, g := RegisterOf(init), RegisterOf(es);
      forall i | 0 <= i < |g.lines|
        ensures FirstWith(es, g.registered[i]) < |es| && es[FirstWith(es, g.registered[i])] == (g.registered[i], g.lines[i])
      {
        if i < |f.lines| {
          assert g.registered[i] == f.registered[i] && g.lines[i] == f.lines[i];
          FirstWithPrefix(init, es[n], f.registered[i]);
          assert es[FirstWith(init, f.registered[i])] == init[FirstWith(init, f.registered[i])];
        } else {
          assert es[n].0 !in f.registered;
          assert forall j :: 0 <= j < n ==> init[j].0 in f.registered;
          FirstWithLast(init, es[n]);
        }
      }
    }
  }

  /** The newer script's register file, built by its loop. */
  method WriteMaskRegister(t: SceneTable, shadows: bool) returns (lines: seq<string>)
    requires Dated(t.order, t)
    ensures lines == RegisterOf(Entries(t.order, t, shadows)).lines
  {
    lines := [];
    var registered: seq<string> := [];
    for i := 0 to |t.order|
      invariant RegisterFile(lines, registered) == RegisterOf(Entries(t.order[..i], t, shadows))
    {
      var e := Entry(t.scenes[t.order[i]], shadows);
      var name, line := e.0, e.1;
      EntriesStep(t.order, t, shadows, i);
      RegisterStep(Entries(t.order[..i], t, shadows), e);
      if name !in registered {
        lines := lines + [line];
        registered := registered + [name];
      }
    }
    assert t.order[..|t.order|] == t.order;
  }

  /** The grass-gis-addons variant writes one line per scene. */
  method WriteMaskRegisterLegacy(t: SceneTable, shadows: bool) returns (lines: seq<string>)
    requires Dated(t.order, t)
    ensures lines == Seconds(Entries(t.order, t, shadows))
  {
    lines := [];
    for i := 0 to |t.order|
      invariant lines == Seconds(Entries(t.order[..i], t, shadows))
    {
      LegacyLineStep(t, shadows, i);
      lines := lines + [MaskLine(t.scenes[t.order[i]], shadows)];
    }
    assert t.order[..|t.order|] == t.order;
  }

  lemma LegacyLineStep(t: SceneTable, shadows: bool, i: nat)
    requires Dated(t.order, t) && i < |t.order|
    ensures Seconds(Entries(t.order[..i + 1], t, shadows)) ==
      Seconds(Entries(t.order[..i], t, shadows)) + [MaskLine(t.scenes[t.order[i]], shadows)]
  {
    EntriesStep(t.order, t, shadows, i);
    SecondsSnoc(Entries(t.order[..i], t, shadows), Entry(t.scenes[t.order[i]], shadows));
  }



  /** When no two scenes share a mask, the two variants write the same
      register file. */
  lemma {:induction false} RegistersAgree(es: seq<(string, string)>)
    requires NoDuplicates(Firsts(es))
    ensures RegisterOf(es).lines == Seconds(es)
  {
    if |es| > 0 {
      var n := |es| - 1;
      var init, e := es[..n], es[n];
      assert es == init + [e];
      FirstsSnoc(init, e);
      SecondsSnoc(init, e);
      assert Firsts(init) == Firsts(es)[..n];
      RegistersAgree(init);
      RegisteredDistinct(init);
      RegisterStep(init, e);
    }
  }

  /** Before patching every scene has its own cloud mask, so the
      deduplicating loop of the newer script and the one-line-per-scene loop
      of the grass-gis-addons variant write the same cloud register file. */
  lemma UnpatchedRegistersAgree(rows: seq<Row>, cfg: MaskConfig, legacy: bool)
    requires ScenesOf(rows, cfg, legacy).Ok?
    ensures var t := ScenesOf(rows, cfg, legacy).value;
      Dated(t.order, t) && RegisterOf(Entries(t.order, t, false)).lines == Seconds(Entries(t.order, t, false))
  {
    var t := ScenesOf(rows, cfg, legacy).value;
    ScenesShape(rows, cfg, legacy);
    var ns := Firsts(Entries(t.order, t, false));
    EntriesNames(t.order, t, false);
    forall i, j | 0 <= i < j < |ns| ensures ns[i] != ns[j] {
      if ns[i] == ns[j] {
        CloudNamesDistinct(t.order[i], t.order[j]);
      }
    }
    RegistersAgree(Entries(t.order, t, false));
  }
}
