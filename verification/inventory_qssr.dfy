/** The variable inventory of the research write-up: a fixed eight-row table in which
    only the social-media-hours and productivity rows compute "Present In", by a lookup
    that fails on a variable without an alias entry. */
module InventoryQssr {
  import opened Wrappers
  import opened Presence

  /** Candidate raw column names per canonical variable. */
  const ALIASES: map<string, seq<string>> := map[
    "hours_social_media" := ["Time spent on social media (hours)", "hours_social_media"],
    "gpa" := ["Grade", "gpa", "cgpa"],
    "sleep_hours" := ["Sleep (hours)", "sleep_hours"],
    "study_hours" := ["study_hours", "Study time (hours)"],
    "work_hours" := ["work_hours", "employment_hours"],
    "platform_primary" := ["Most used platform", "platform_primary"],
    "productivity_index" := ["productivity_score", "Productivity score"],
    "addiction_score" := ["Social Media Addiction", "addiction_score"]]

  /** The exception `ALIASES[name]` raises for a missing key. */
  datatype KeyError = KeyError(key: string)

  /** The output columns, in order. */
  const COLUMNS: seq<string> := ["Variable", "Type", "Description", "Role", "Present In"]

  datatype InventoryRow = InventoryRow(variable: string, kind: string, description: string,
                                       role: string, presentIn: string)

  /** A row's cells in column order. */
  function Cells(row: InventoryRow): (r: seq<string>)
    ensures |r| == |COLUMNS|
  {
    [row.variable, row.kind, row.description, row.role, row.presentIn]
  }

  /** `present_in(name)`: a KeyError for a variable without an alias entry, otherwise the
      four-way label for the primary header `pri` and the secondary header `sec`. */
  function PresentIn(name: string, pri: seq<string>, sec: seq<string>): (r: Result<string, KeyError>)
    ensures r.Failure? <==> name !in ALIASES
    ensures r.Failure? ==> r.error == KeyError(name)
    ensures r.Success? ==> (r.value == BOTH <==>
              (exists c :: c in ALIASES[name] && c in pri) && (exists c :: c in ALIASES[name] && c in sec))
    ensures r.Success? ==> (r.value == PRIMARY <==>
              (exists c :: c in ALIASES[name] && c in pri) && !(exists c :: c in ALIASES[name] && c in sec))
    ensures r.Success? ==> (r.value == SECONDARY <==>
              !(exists c :: c in ALIASES[name] && c in pri) && (exists c :: c in ALIASES[name] && c in sec))
    ensures r.Success? ==> (r.value == NOWHERE <==>
              !(exists c :: c in ALIASES[name] && c in pri) && !(exists c :: c in ALIASES[name] && c in sec))
  {
    if name !in ALIASES then Failure(KeyError(name))
    else Success(Classify(AnyIn(ALIASES[name], pri), AnyIn(ALIASES[name], sec)))
  }

  /** Exchanging the two tables exchanges "Primary" and "Secondary" and keeps the rest;
      a missing key fails either way. */
  lemma PresentInSwap(name: string, pri: seq<string>, sec: seq<string>)
    ensures PresentIn(name, sec, pri).Success? == PresentIn(name, pri, sec).Success?
    ensures PresentIn(name, pri, sec).Success? ==>
              PresentIn(name, sec, pri).value == Swapped(PresentIn(name, pri, sec).value)
  {
    if name in ALIASES {
      ClassifySwap(AnyIn(ALIASES[name], pri), AnyIn(ALIASES[name], sec));
    }
  }

  /** The variables of the eight rows, in the table's order. */
  const VARIABLES: seq<string> := ["gpa", "hours_social_media", "platform_primary", "sleep_hours",
                                   "study_hours", "work_hours", "productivity_index", "addiction_score"]

  /** The eight literal rows, given the two computed labels: the variables come in the
      listed order, rows 1 and 6 carry the computed labels, and the other six say
      "Primary" whatever the data. */
  function RowsWith(hoursIn: string, productivityIn: string): (r: seq<InventoryRow>)
    ensures |r| == 8
    ensures forall i :: 0 <= i < 8 ==> r[i].variable == VARIABLES[i]
    ensures r[1].presentIn == hoursIn && r[6].presentIn == productivityIn
    ensures forall i :: 0 <= i < 8 && i != 1 && i != 6 ==> r[i].presentIn == PRIMARY
  {
    [ InventoryRow(VARIABLES[0], "Continuous", "GPA or academic score (0\U{2013}4 normalized)", "Dependent Variable", PRIMARY),
      InventoryRow(VARIABLES[1], "Continuous", "Self-reported hours per day on social media", "Independent Variable (Main)", hoursIn),
      InventoryRow(VARIABLES[2], "Categorical", "Most-used social media platform", "Independent Variable", PRIMARY),
      InventoryRow(VARIABLES[3], "Continuous", "Average nightly sleep duration (hours)", "Control Variable", PRIMARY),
      InventoryRow(VARIABLES[4], "Continuous", "Average daily study time (hours)", "Control Variable", PRIMARY),
      InventoryRow(VARIABLES[5], "Continuous", "Weekly paid work hours", "Control Variable", PRIMARY),
      InventoryRow(VARIABLES[6], "Continuous", "Self-rated productivity or efficiency score", "Secondary Outcome (Validation)", productivityIn),
      InventoryRow(VARIABLES[7], "Continuous", "Social media addiction/self-control index", "Supplementary Variable", PRIMARY) ]
  }

  /** The table as written: the literal rows, two of which call `present_in`. A failed
      lookup would abort the script, so the table is a Result. */
  function Table(pri: seq<string>, sec: seq<string>): (r: Result<seq<InventoryRow>, KeyError>)
    ensures r.Success? ==> |r.value| == 8
  {
    var hours := PresentIn("hours_social_media", pri, sec);
    var productivity := PresentIn("productivity_index", pri, sec);
    if hours.Failure? then Failure(hours.error)
    else if productivity.Failure? then Failure(productivity.error)
    else Success(RowsWith(hours.value, productivity.value))
  }

  /** The two computed rows ask for variables that have alias entries, so the table is
      always built; only rows 1 and 6 depend on the data, and the other six say "Primary"
      whatever the tables hold. */
  lemma TableShape(pri: seq<string>, sec: seq<string>)
    ensures Table(pri, sec).Success?
    ensures var rows := Table(pri, sec).value;
            && (forall i :: 0 <= i < 8 ==> rows[i].variable == VARIABLES[i])
            && rows[1].presentIn == PresentIn("hours_social_media", pri, sec).value
            && rows[6].presentIn == PresentIn("productivity_index", pri, sec).value
            && forall i :: 0 <= i < 8 && i != 1 && i != 6 ==> rows[i].presentIn == PRIMARY
  {
    assert "hours_social_media" in ALIASES && "productivity_index" in ALIASES;
  }

  /** With two empty headers the hard-coded rows still say "Primary" while the computed
      rows say "—". */
  lemma TableOfEmptyTables()
    ensures Table([], []).Success?
    ensures Table([], []).value[0].presentIn == PRIMARY
    ensures Table([], []).value[1].presentIn == NOWHERE
  {
    TableShape([], []);
  }
}
