/** The cleaning script end to end: the append-only log, the output table whose numeric
    columns are sanitised and imputed in place, and the pure specification of the
    finished table that the imperative run is proved to produce. */
module Pipeline {
  import opened Wrappers
  import opened Text
  import opened Resolve
  import opened Coerce
  import opened Cleaning
  import opened Features

  /** Candidate raw names for each canonical field, in priority order. */
  const HOURS_ALIASES: seq<string> := ["Avg_Daily_Usage_Hours"]
  const SLEEP_ALIASES: seq<string> := ["Sleep_Hours_Per_Night"]
  const PLATFORM_ALIASES: seq<string> := ["Most_Used_Platform"]
  const ACAD_ALIASES: seq<string> := ["Affects_Academic_Performance"]
  const ADDICTION_ALIASES: seq<string> := ["Addicted_Score"]

  /** Hours in a day: the upper sanity bound for daily usage and for sleep. */
  const DAY_HOURS: real := 24.0

  /** The cleaned table as values: one entry per output column. */
  datatype CleanRecord = CleanRecord(
    hours: Column,
    sleep: Column,
    platform: RawColumn,
    acad: Column,
    addiction: Column,
    gpa: Column,
    heavyUser: seq<Flag>,
    sleepOk: seq<Flag>,
    platformGroup: seq<string>)

  /** The cleaning steps on the mapped columns: each numeric field range-masked (hours and
      sleep to [0, 24], academic impact to at least 0; the addiction score is not masked)
      and median-imputed; a placeholder all-missing GPA; then the derived columns. */
  function Cleaned(n: nat, hoursIn: Column, sleepIn: Column, platform: RawColumn,
      acadIn: Column, addictionIn: Column): (r: CleanRecord)
    requires |hoursIn| == n && |sleepIn| == n && Size(platform) == n && |acadIn| == n && |addictionIn| == n
    ensures |r.hours| == n && |r.sleep| == n && Size(r.platform) == n
    ensures |r.acad| == n && |r.addiction| == n && |r.gpa| == n
    ensures |r.heavyUser| == n && |r.sleepOk| == n && |r.platformGroup| == n
    ensures forall i :: 0 <= i < |r.gpa| ==> r.gpa[i].None?
  {
    var hours := Imputed(Masked(hoursIn, 0.0, Some(DAY_HOURS)));
    var sleep := Imputed(Masked(sleepIn, 0.0, Some(DAY_HOURS)));
    var acad := Imputed(Masked(acadIn, 0.0, None));
    var addiction := Imputed(addictionIn);
    CleanRecord(hours, sleep, platform, acad, addiction, AllMissing(n),
                HeavyUser(hours), SleepOk(sleep), PlatformGroups(platform))
  }

  /** What the script writes for a raw table: the columns of the mapping step, cleaned.
      Every column keeps one entry per raw row: no row is ever dropped. */
  function CleanSpec(raw: RawTable): (r: CleanRecord)
    requires WellFormed(raw)
    ensures |r.hours| == raw.rows && |r.sleep| == raw.rows && Size(r.platform) == raw.rows
    ensures |r.acad| == raw.rows && |r.addiction| == raw.rows && |r.gpa| == raw.rows
    ensures |r.heavyUser| == raw.rows && |r.sleepOk| == raw.rows && |r.platformGroup| == raw.rows
  {
    Cleaned(raw.rows, NumericField(raw, HOURS_ALIASES), NumericField(raw, SLEEP_ALIASES),
            RawField(raw, PLATFORM_ALIASES), NumericField(raw, ACAD_ALIASES),
            NumericField(raw, ADDICTION_ALIASES))
  }

  /** The sanity bounds hold in the written table: every present hours and sleep value is
      within [0, 24] and every present academic-impact value is at least 0, imputed cells
      included. */
  lemma CleanBounds(raw: RawTable)
    requires WellFormed(raw)
    ensures var r := CleanSpec(raw);
            && (forall i :: 0 <= i < |r.hours| && r.hours[i].Some? ==> 0.0 <= r.hours[i].value <= DAY_HOURS)
            && (forall i :: 0 <= i < |r.sleep| && r.sleep[i].Some? ==> 0.0 <= r.sleep[i].value <= DAY_HOURS)
            && (forall i :: 0 <= i < |r.acad| && r.acad[i].Some? ==> 0.0 <= r.acad[i].value)
  {
    ImputedKeepsBounds(Masked(NumericField(raw, HOURS_ALIASES), 0.0, Some(DAY_HOURS)), 0.0, Some(DAY_HOURS));
    ImputedKeepsBounds(Masked(NumericField(raw, SLEEP_ALIASES), 0.0, Some(DAY_HOURS)), 0.0, Some(DAY_HOURS));
    ImputedKeepsBounds(Masked(NumericField(raw, ACAD_ALIASES), 0.0, None), 0.0, None);
  }

  /** When some hours value survives the sanity mask, the written hours column has no gap,
      every row gets a 0/1 heavy-user flag, and at least one row is flagged. */
  lemma CleanHeavyUserDefined(raw: RawTable)
    requires WellFormed(raw)
    requires HasValue(Masked(NumericField(raw, HOURS_ALIASES), 0.0, Some(DAY_HOURS)))
    ensures var r := CleanSpec(raw);
            && (forall i :: 0 <= i < |r.hours| ==> r.hours[i].Some?)
            && (forall i :: 0 <= i < |r.heavyUser| ==> r.heavyUser[i] == Some(0) || r.heavyUser[i] == Some(1))
            && (exists i :: 0 <= i < |r.heavyUser| && r.heavyUser[i] == Some(1))
  {
    var m := Masked(NumericField(raw, HOURS_ALIASES), 0.0, Some(DAY_HOURS));
    var hours := Imputed(m);
    var i :| 0 <= i < |m| && m[i].Some?;
    assert hours[i].Some?;
    SomeHeavyUser(hours);
  }

  /** A table with no hours column (no alias resolves) gets an all-`pd.NA` heavy-user
      column. */
  lemma MissingHoursNoFlags(raw: RawTable)
    requires WellFormed(raw)
    requires FirstPresent(HOURS_ALIASES, raw.columns).None?
    ensures forall i :: 0 <= i < raw.rows ==> CleanSpec(raw).heavyUser[i].None?
  {
    var m := Masked(NumericField(raw, HOURS_ALIASES), 0.0, Some(DAY_HOURS));
    assert !HasValue(m);
    assert !HasValue(Imputed(m));
  }

  /** The text a picked name prints as in an f-string: the name, or "None". */
  function NameText(c: Option<string>): (r: string)
    ensures c.Some? ==> r == c.value
    ensures c.None? ==> r == "None"
  {
    match c
    case None => "None"
    case Some(n) => n
  }

  /** The canonical field names as the mapping lines print them, padded to one width. */
  const HOURS_LABEL: string := "hours_social_media"
  const SLEEP_LABEL: string := "sleep_hours      "
  const PLATFORM_LABEL: string := "platform_primary "
  const ACAD_LABEL: string := "acad_impact (DV) "
  const ADDICTION_LABEL: string := "addiction_score  "

  /** The first log line: the source path and the table's shape, rows then columns. It
      opens with the source path and closes the shape with a parenthesis. */
  function LoadLine(raw: RawTable, src: string): (r: string)
    ensures |r| > 12 + |src| && r[..12 + |src|] == "Loaded raw: " + src
    ensures r[12 + |src|..] == " | shape=(" + NatToString(raw.rows) + ", " + NatToString(|raw.columns|) + ")"
  {
    var head := "Loaded raw: " + src;
    var shape := " | shape=(" + NatToString(raw.rows) + ", " + NatToString(|raw.columns|) + ")";
    assert |head| == 12 + |src|;
    head + shape
  }

  /** The second log line: the raw header names, comma-separated, after a fixed prefix. */
  function HeaderLine(raw: RawTable): (r: string)
    ensures |r| >= 13 && r[..13] == "Raw columns: "
    ensures raw.columns == [] ==> r == "Raw columns: "
    ensures |raw.columns| > 0 ==> |r| == 13 + TotalLength(raw.columns) + 2 * (|raw.columns| - 1)
  {
    "Raw columns: " + Join(raw.columns, ", ")
  }

  /** A header with one more column adds ", " and that column's name at the end of the
      header line: the names appear in header order with one separator between
      neighbours and none after the last. */
  lemma HeaderLineAppend(raw: RawTable, more: RawTable, c: string)
    requires raw.columns != [] && more.columns == raw.columns + [c]
    ensures HeaderLine(more) == HeaderLine(raw) + ", " + c
  {
    JoinAppend(raw.columns, c, ", ");
  }

  /** One mapping line: the canonical field's label, an arrow, and the picked raw name
      (or "None"), which ends the line. */
  function MapLine(field: string, c: Option<string>): (r: string)
    ensures |r| >= 4 + |field| && r[..4 + |field|] == "Map " + field
    ensures c.Some? ==> |r| == 8 + |field| + |c.value| && r[|r| - |c.value|..] == c.value
    ensures c.None? ==> r[|r| - 4..] == "None"
  {
    "Map " + field + " <- " + NameText(c)
  }

  /** The five mapping lines, one per canonical field, for the resolved raw names. */
  function MapLines(h: Option<string>, s: Option<string>, p: Option<string>, y: Option<string>,
      a: Option<string>): (r: seq<string>)
    ensures |r| == 5
  {
    [ MapLine(HOURS_LABEL, h), MapLine(SLEEP_LABEL, s), MapLine(PLATFORM_LABEL, p),
      MapLine(ACAD_LABEL, y), MapLine(ADDICTION_LABEL, a) ]
  }

  /** The log lines the script adds up to the column mapping: the load line with the
      raw shape, the raw header, and one line per canonical field naming its resolved raw
      column. */
  function LogSpec(raw: RawTable, src: string): (r: seq<string>)
    ensures |r| == 7
  {
    [LoadLine(raw, src), HeaderLine(raw)]
    + MapLines(FirstPresent(HOURS_ALIASES, raw.columns), FirstPresent(SLEEP_ALIASES, raw.columns),
               FirstPresent(PLATFORM_ALIASES, raw.columns), FirstPresent(ACAD_ALIASES, raw.columns),
               FirstPresent(ADDICTION_ALIASES, raw.columns))
  }

  /** A mapping line reads "None" exactly when the field is unresolved or its raw name is
      itself the text "None": the line alone cannot tell those two apart. */
  lemma MapLineReportsNone(field: string, c: Option<string>)
    ensures MapLine(field, c) == MapLine(field, None) <==> c.None? || c.value == "None"
  {
    var pre := "Map " + field + " <- ";
    assert MapLine(field, c) == pre + NameText(c);
    assert MapLine(field, None) == pre + "None";
    assert (pre + NameText(c))[|pre|..] == NameText(c);
    assert (pre + "None")[|pre|..] == "None";
  }

  /** The hours mapping line reports "None" (`Map hours_social_media <- None`) exactly when
      no hours alias is a raw column. */
  lemma LogReportsMissingHours(raw: RawTable, src: string)
    ensures LogSpec(raw, src)[2] == MapLine(HOURS_LABEL, None)
            <==> "Avg_Daily_Usage_Hours" !in raw.columns
  {
    var r := FirstPresent(HOURS_ALIASES, raw.columns);
    MapLineReportsNone(HOURS_LABEL, r);
    assert LogSpec(raw, src)[2] == MapLine(HOURS_LABEL, r);
    if r.Some? {
      assert r.value == "Avg_Daily_Usage_Hours";
    }
  }

  /** The append-only cleaning log that the script's `add` helper writes to. */
  class CleaningLog {
    var lines: seq<string>

    constructor ()
      ensures lines == []
    {
      lines := [];
    }

    /** Adding a message: it goes at the end; earlier lines are kept as they were. */
    method Add(msg: string)
      modifies this
      ensures lines == old(lines) + [msg]
    {
      lines := lines + [msg];
    }
  }

  /** The output frame `out`. Numeric columns are arrays the script overwrites in place;
      the derived columns are assigned once, whole. */
  class CleanTable {
    const rows: nat
    const hours: array<Option<real>>
    const sleep: array<Option<real>>
    const acad: array<Option<real>>
    const addiction: array<Option<real>>
    const gpa: array<Option<real>>
    const platform: RawColumn
    var heavyUser: seq<Flag>
    var sleepOk: seq<Flag>
    var platformGroup: seq<string>

    /** One cell per row in every stored column, and no two columns share storage. */
    ghost predicate Valid()
      reads this
    {
      && hours.Length == rows && sleep.Length == rows && acad.Length == rows
      && addiction.Length == rows && gpa.Length == rows && Size(platform) == rows
      && hours != sleep && hours != acad && hours != addiction && hours != gpa
      && sleep != acad && sleep != addiction && sleep != gpa
      && acad != addiction && acad != gpa && addiction != gpa
    }

    /** The table's current contents as values. */
    function Snapshot(): CleanRecord
      reads this, hours, sleep, acad, addiction, gpa
    {
      CleanRecord(hours[..], sleep[..], platform, acad[..], addiction[..], gpa[..],
                  heavyUser, sleepOk, platformGroup)
    }

    /** The output frame as first built: the coerced columns, the raw platform column and an all-missing GPA
        placeholder, each with one cell per raw row; no derived column yet. */
    constructor (n: nat, h: Column, s: Column, p: RawColumn, y: Column, a: Column)
      requires |h| == n && |s| == n && Size(p) == n && |y| == n && |a| == n
      ensures Valid() && rows == n
      ensures hours[..] == h && sleep[..] == s && platform == p && acad[..] == y && addiction[..] == a
      ensures gpa[..] == AllMissing(n)
      ensures heavyUser == [] && sleepOk == [] && platformGroup == []
      ensures fresh(hours) && fresh(sleep) && fresh(acad) && fresh(addiction) && fresh(gpa)
    {
      rows := n;
      hours := new Option<real>[n](i requires 0 <= i < n => h[i]);
      sleep := new Option<real>[n](i requires 0 <= i < n => s[i]);
      acad := new Option<real>[n](i requires 0 <= i < n => y[i]);
      addiction := new Option<real>[n](i requires 0 <= i < n => a[i]);
      gpa := new Option<real>[n](i => None);
      platform := p;
      heavyUser, sleepOk, platformGroup := [], [], [];
    }

    /** The sanity bounds: out-of-range hours and sleep (outside [0, 24]) and negative academic
        impact become missing; no row is dropped and no other column changes. */
    method Sanitise()
      requires Valid()
      modifies hours, sleep, acad
      ensures Valid()
      ensures hours[..] == Masked(old(hours[..]), 0.0, Some(DAY_HOURS))
      ensures sleep[..] == Masked(old(sleep[..]), 0.0, Some(DAY_HOURS))
      ensures acad[..] == Masked(old(acad[..]), 0.0, None)
    {
      MaskColumn(hours, 0.0, Some(DAY_HOURS));
      MaskColumn(sleep, 0.0, Some(DAY_HOURS));
      MaskColumn(acad, 0.0, None);
    }

    /** The median-fill step: each of hours, sleep, academic impact and addiction score is filled
        with its own median, when it has any value. */
    method Impute()
      requires Valid()
      modifies hours, sleep, acad, addiction
      ensures Valid()
      ensures hours[..] == Imputed(old(hours[..]))
      ensures sleep[..] == Imputed(old(sleep[..]))
      ensures acad[..] == Imputed(old(acad[..]))
      ensures addiction[..] == Imputed(old(addiction[..]))
    {
      ImputeColumn(hours);
      ImputeColumn(sleep);
      ImputeColumn(acad);
      ImputeColumn(addiction);
    }

    /** The feature step: the heavy-user, sleep and platform-group columns, from the current
        hours, sleep and platform columns. */
    method DeriveFeatures()
      requires Valid()
      modifies this
      ensures Valid()
      ensures heavyUser == HeavyUser(hours[..])
      ensures sleepOk == SleepOk(sleep[..])
      ensures platformGroup == PlatformGroups(platform)
    {
      heavyUser := HeavyUser(hours[..]);
      sleepOk := SleepOk(sleep[..]);
      platformGroup := PlatformGroups(platform);
    }
  }

  /** The load-and-map step: log the load, resolve each canonical field with `pick`, and log the
      mapping. The names are those the alias lists resolve to. */
  method MapColumns(raw: RawTable, src: string) returns (log: CleaningLog, h: Option<string>,
      s: Option<string>, p: Option<string>, y: Option<string>, a: Option<string>)
    ensures fresh(log) && log.lines == LogSpec(raw, src)
    ensures h == FirstPresent(HOURS_ALIASES, raw.columns) && s == FirstPresent(SLEEP_ALIASES, raw.columns)
    ensures p == FirstPresent(PLATFORM_ALIASES, raw.columns) && y == FirstPresent(ACAD_ALIASES, raw.columns)
    ensures a == FirstPresent(ADDICTION_ALIASES, raw.columns)
  {
    log := new CleaningLog();
    log.Add(LoadLine(raw, src));
    log.Add(HeaderLine(raw));
    ghost var loaded := [LoadLine(raw, src), HeaderLine(raw)];
    assert log.lines == loaded;

    h := Pick(raw.columns, HOURS_ALIASES);
    s := Pick(raw.columns, SLEEP_ALIASES);
    p := Pick(raw.columns, PLATFORM_ALIASES);
    y := Pick(raw.columns, ACAD_ALIASES);
    a := Pick(raw.columns, ADDICTION_ALIASES);

    LogMapping(log, h, s, p, y, a);
    assert log.lines == loaded + MapLines(h, s, p, y, a);
  }

  /** The mapping lines: one log entry per canonical field, in order. */
  method LogMapping(log: CleaningLog, h: Option<string>, s: Option<string>, p: Option<string>,
      y: Option<string>, a: Option<string>)
    modifies log
    ensures log.lines == old(log.lines) + MapLines(h, s, p, y, a)
  {
    AddAll(log, MapLines(h, s, p, y, a));
  }

  /** Several messages added one after another, in order. */
  method AddAll(log: CleaningLog, msgs: seq<string>)
    modifies log
    ensures log.lines == old(log.lines) + msgs
  {
    for k := 0 to |msgs|
      invariant log.lines == old(log.lines) + msgs[..k]
    {
      log.Add(msgs[k]);
      assert msgs[..k + 1] == msgs[..k] + [msgs[k]];
    }
    assert msgs[..|msgs|] == msgs;
  }

  /** Everything after the mapping: build the output frame, sanitise, impute, derive the
      features. The table it leaves is the one `Cleaned` describes. */
  method Process(n: nat, hoursIn: Column, sleepIn: Column, platform: RawColumn,
      acadIn: Column, addictionIn: Column) returns (out: CleanTable)
    requires |hoursIn| == n && |sleepIn| == n && Size(platform) == n && |acadIn| == n && |addictionIn| == n
    ensures out.Valid() && out.Snapshot() == Cleaned(n, hoursIn, sleepIn, platform, acadIn, addictionIn)
  {
    out := new CleanTable(n, hoursIn, sleepIn, platform, acadIn, addictionIn);
    out.Sanitise();
    out.Impute();
    out.DeriveFeatures();
  }

  /** The table-building half of the run: the resolved columns, coerced, then processed. The table it leaves is
      the one `CleanSpec` describes. */
  method BuildTable(raw: RawTable, h: Option<string>, s: Option<string>, p: Option<string>,
      y: Option<string>, a: Option<string>) returns (out: CleanTable)
    requires WellFormed(raw)
    requires h == FirstPresent(HOURS_ALIASES, raw.columns) && s == FirstPresent(SLEEP_ALIASES, raw.columns)
    requires p == FirstPresent(PLATFORM_ALIASES, raw.columns) && y == FirstPresent(ACAD_ALIASES, raw.columns)
    requires a == FirstPresent(ADDICTION_ALIASES, raw.columns)
    ensures out.Valid() && out.Snapshot() == CleanSpec(raw)
  {
    var hoursIn, sleepIn, platform, acadIn, addictionIn := CoerceFields(raw, h, s, p, y, a);
    out := Process(raw.rows, hoursIn, sleepIn, platform, acadIn, addictionIn);
    SpecOfFields(raw, hoursIn, sleepIn, platform, acadIn, addictionIn);
  }

  /** The mapped columns of the output frame, from the picked raw names: each numeric
      field coerced, or all missing when its name is unresolved, and the platform column
      as it is. They are the specified fields. */
  method CoerceFields(raw: RawTable, h: Option<string>, s: Option<string>, p: Option<string>,
      y: Option<string>, a: Option<string>)
      returns (hoursIn: Column, sleepIn: Column, platform: RawColumn, acadIn: Column, addictionIn: Column)
    requires WellFormed(raw)
    requires h == FirstPresent(HOURS_ALIASES, raw.columns) && s == FirstPresent(SLEEP_ALIASES, raw.columns)
    requires p == FirstPresent(PLATFORM_ALIASES, raw.columns) && y == FirstPresent(ACAD_ALIASES, raw.columns)
    requires a == FirstPresent(ADDICTION_ALIASES, raw.columns)
    ensures hoursIn == NumericField(raw, HOURS_ALIASES) && sleepIn == NumericField(raw, SLEEP_ALIASES)
    ensures platform == RawField(raw, PLATFORM_ALIASES) && acadIn == NumericField(raw, ACAD_ALIASES)
    ensures addictionIn == NumericField(raw, ADDICTION_ALIASES)
  {
    platform := match Selected(raw, p)
      case None => Numeric(AllMissing(raw.rows))
      case Some(col) => col;
    PickedPlatform(raw, p, platform);
    hoursIn := ToNum(Selected(raw, h), raw.rows);
    sleepIn := ToNum(Selected(raw, s), raw.rows);
    acadIn := ToNum(Selected(raw, y), raw.rows);
    addictionIn := ToNum(Selected(raw, a), raw.rows);
    PickedNumeric(raw, HOURS_ALIASES, h, hoursIn);
    PickedNumeric(raw, SLEEP_ALIASES, s, sleepIn);
    PickedNumeric(raw, ACAD_ALIASES, y, acadIn);
    PickedNumeric(raw, ADDICTION_ALIASES, a, addictionIn);
  }

  /** The specified table is the cleaning of the specified fields. */
  lemma SpecOfFields(raw: RawTable, hoursIn: Column, sleepIn: Column, platform: RawColumn,
      acadIn: Column, addictionIn: Column)
    requires WellFormed(raw)
    requires hoursIn == NumericField(raw, HOURS_ALIASES) && sleepIn == NumericField(raw, SLEEP_ALIASES)
    requires platform == RawField(raw, PLATFORM_ALIASES) && acadIn == NumericField(raw, ACAD_ALIASES)
    requires addictionIn == NumericField(raw, ADDICTION_ALIASES)
    ensures CleanSpec(raw) == Cleaned(raw.rows, hoursIn, sleepIn, platform, acadIn, addictionIn)
  {
  }

  /** A numeric column coerced from the picked name is the field's specified column. */
  lemma PickedNumeric(raw: RawTable, aliases: seq<string>, c: Option<string>, col: Column)
    requires WellFormed(raw) && c == FirstPresent(aliases, raw.columns)
    requires col == ToNum(Selected(raw, c), raw.rows)
    ensures col == NumericField(raw, aliases)
  {
  }

  /** The platform column taken from the picked name is the field's specified column. */
  lemma PickedPlatform(raw: RawTable, c: Option<string>, col: RawColumn)
    requires WellFormed(raw) && c == FirstPresent(PLATFORM_ALIASES, raw.columns)
    requires col == match Selected(raw, c) case None => Numeric(AllMissing(raw.rows)) case Some(x) => x
    ensures col == RawField(raw, PLATFORM_ALIASES)
  {
  }

  /** The script's run: the log holds the lines `LogSpec` lists and the table is the one
      `CleanSpec` describes. */
  method Clean(raw: RawTable, src: string) returns (out: CleanTable, log: CleaningLog)
    requires WellFormed(raw)
    ensures fresh(log) && log.lines == LogSpec(raw, src)
    ensures out.Valid() && out.Snapshot() == CleanSpec(raw)
  {
    var h, s, p, y, a;
    log, h, s, p, y, a := MapColumns(raw, src);
    out := BuildTable(raw, h, s, p, y, a);
  }
}
