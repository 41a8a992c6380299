/** The simple variable inventory: one row per schema entry, with the entry's fields
    copied and a "Present In" label computed from the alias table, where a variable with
    no alias entry counts as present nowhere. */
module InventorySimple {
  import opened Presence

  /** Candidate raw column names per canonical variable. */
  const ALIASES: map<string, seq<string>> := map[
    "hours_social_media" := ["Time spent on social media (hours)", "hours_social_media"],
    "gpa" := ["Grade", "gpa", "cgpa"],
    "productivity_index" := ["productivity_score", "Productivity score", "productivity_index"],
    "sleep_hours" := ["Sleep (hours)", "sleep_hours"],
    "study_hours" := ["study_hours", "Study time (hours)"],
    "work_hours" := ["work_hours", "employment_hours"],
    "platform_primary" := ["Most used platform", "platform_primary"]]

  /** One schema entry: variable, type, description, relevance. */
  datatype SchemaEntry = SchemaEntry(variable: string, kind: string, description: string, relevance: string)

  const SCHEMA: seq<SchemaEntry> := [
    SchemaEntry("hours_social_media", "Continuous", "Self reported hours per day on social media", "Key"),
    SchemaEntry("gpa", "Continuous", "GPA or academic score proxy", "Key"),
    SchemaEntry("productivity_index", "Continuous", "Productivity / self efficacy score", "Key"),
    SchemaEntry("sleep_hours", "Continuous", "Average nightly sleep", "Control"),
    SchemaEntry("study_hours", "Continuous", "Average study time", "Control"),
    SchemaEntry("platform_primary", "Categorical", "Most used platform", "Feature"),
    SchemaEntry("work_hours", "Continuous", "Weekly paid work hours", "Control")]

  /** The output columns, in order. */
  const COLUMNS: seq<string> := ["Variable", "Type", "Description", "Relevance", "Present In"]

  datatype InventoryRow = InventoryRow(variable: string, kind: string, description: string,
                                       relevance: string, presentIn: string)

  /** A row's cells in column order. */
  function Cells(row: InventoryRow): (r: seq<string>)
    ensures |r| == |COLUMNS|
  {
    [row.variable, row.kind, row.description, row.relevance, row.presentIn]
  }

  /** `ALIASES.get(name, [])`. */
  function AliasesOf(name: string): (r: seq<string>)
    ensures name !in ALIASES ==> r == []
    ensures name in ALIASES ==> r == ALIASES[name]
  {
    if name in ALIASES then ALIASES[name] else []
  }

  /** `present_in(name)` against the primary header `pri` and the secondary header `sec`. */
  function PresentIn(name: string, pri: seq<string>, sec: seq<string>): (r: string)
    ensures r == BOTH <==> (exists c :: c in AliasesOf(name) && c in pri) && (exists c :: c in AliasesOf(name) && c in sec)
    ensures r == PRIMARY <==> (exists c :: c in AliasesOf(name) && c in pri) && !(exists c :: c in AliasesOf(name) && c in sec)
    ensures r == SECONDARY <==> !(exists c :: c in AliasesOf(name) && c in pri) && (exists c :: c in AliasesOf(name) && c in sec)
    ensures r == NOWHERE <==> !(exists c :: c in AliasesOf(name) && c in pri) && !(exists c :: c in AliasesOf(name) && c in sec)
  {
    Classify(AnyIn(AliasesOf(name), pri), AnyIn(AliasesOf(name), sec))
  }

  /** A variable without an alias entry is present nowhere, and asking for it does not fail. */
  lemma UnknownIsNowhere(name: string, pri: seq<string>, sec: seq<string>)
    requires name !in ALIASES
    ensures PresentIn(name, pri, sec) == NOWHERE
  {
  }

  /** The inventory rows: one per schema entry, in schema order, the entry's fields copied
      and "Present In" computed for its variable. */
  function Rows(pri: seq<string>, sec: seq<string>): (r: seq<InventoryRow>)
    ensures |r| == |SCHEMA|
    ensures forall i :: 0 <= i < |r| ==>
              && r[i].variable == SCHEMA[i].variable && r[i].kind == SCHEMA[i].kind
              && r[i].description == SCHEMA[i].description && r[i].relevance == SCHEMA[i].relevance
              && r[i].presentIn == PresentIn(SCHEMA[i].variable, pri, sec)
  {
    seq(|SCHEMA|, i requires 0 <= i < |SCHEMA| =>
      var e := SCHEMA[i];
      InventoryRow(e.variable, e.kind, e.description, e.relevance, PresentIn(e.variable, pri, sec)))
  }

  /** Every schema variable has an alias entry, so no row is "—" merely for want of one. */
  lemma SchemaVariablesHaveAliases()
    ensures forall i :: 0 <= i < |SCHEMA| ==> SCHEMA[i].variable in ALIASES
  {
  }

  /** A variable is "Both" when the two tables have it under different aliases: the hours
      row with the survey's long column name in one table and the canonical name in the
      other. */
  lemma RowsBothUnderDifferentNames()
    ensures Rows(["Time spent on social media (hours)"], ["hours_social_media"])[0].presentIn == BOTH
  {
    var pri := ["Time spent on social media (hours)"];
    var sec := ["hours_social_media"];
    assert "Time spent on social media (hours)" in AliasesOf("hours_social_media") && "Time spent on social media (hours)" in pri;
    assert "hours_social_media" in AliasesOf("hours_social_media") && "hours_social_media" in sec;
  }

  /** With two empty headers, every row is "—". */
  lemma RowsOfEmptyTables()
    ensures forall i :: 0 <= i < |SCHEMA| ==> Rows([], [])[i].presentIn == NOWHERE
  {
  }
}
