/** The four-way "Present In" classification shared by the two variable-inventory
    scripts: which of the primary and secondary tables has a column under any of a
    variable's alias names. */
module Presence {

  const BOTH: string := "Both"
  const PRIMARY: string := "Primary"
  const SECONDARY: string := "Secondary"
  /** An em dash: neither table has the variable. */
  const NOWHERE: string := "\U{2014}"

  /** Whether any of the aliases is a column of the table. */
  function AnyIn(aliases: seq<string>, columns: seq<string>): (r: bool)
    ensures r <==> exists c :: c in aliases && c in columns
  {
    if aliases == [] then false
    else aliases[0] in columns || AnyIn(aliases[1..], columns)
  }

  /** The label for the two membership tests, "Both" taking precedence: the
      four labels are distinct and each answers exactly one combination. */
  function Classify(p: bool, s: bool): (r: string)
    ensures r == BOTH <==> p && s
    ensures r == PRIMARY <==> p && !s
    ensures r == SECONDARY <==> !p && s
    ensures r == NOWHERE <==> !p && !s
  {
    if p && s then BOTH else if p then PRIMARY else if s then SECONDARY else NOWHERE
  }

  /** The label with the two tables' roles exchanged. */
  function Swapped(tag: string): string {
    if tag == PRIMARY then SECONDARY else if tag == SECONDARY then PRIMARY else tag
  }

  /** Exchanging the tables exchanges "Primary" and "Secondary" and keeps "Both" and "—". */
  lemma ClassifySwap(p: bool, s: bool)
    ensures Classify(s, p) == Swapped(Classify(p, s))
  {
  }

  /** `any` reads its aliases as a set: reordering or repeating aliases changes nothing. */
  lemma {:induction false} AnyInOrderFree(a: seq<string>, b: seq<string>, columns: seq<string>)
    requires forall c :: c in a <==> c in b
    ensures AnyIn(a, columns) == AnyIn(b, columns)
  {
    if AnyIn(a, columns) {
      var c :| c in a && c in columns;
      assert c in b;
    }
    if AnyIn(b, columns) {
      var c :| c in b && c in columns;
      assert c in a;
    }
  }
}
