/** Alias resolution: `pick` returns the first candidate raw name, in the alias list's
    priority order, that is a column of the raw table. */
module Resolve {
  import opened Wrappers

  /** The first name of `names`, in list order, that is among `columns`; None if none is. */
  function FirstPresent(names: seq<string>, columns: seq<string>): (r: Option<string>)
    ensures r.Some? ==> r.value in names && r.value in columns
    ensures r.Some? ==> exists k :: 0 <= k < |names| && names[k] == r.value
                                    && forall j :: 0 <= j < k ==> names[j] !in columns
    ensures r.None? ==> forall k :: 0 <= k < |names| ==> names[k] !in columns
  {
    if names == [] then None
    else if names[0] in columns then Some(names[0])
    else
      var r := FirstPresent(names[1..], columns);
      if r.Some? then
        var k :| 0 <= k < |names[1..]| && names[1..][k] == r.value
                 && forall j :: 0 <= j < k ==> names[1..][j] !in columns;
        assert names[k + 1] == r.value && forall j :: 0 <= j < k + 1 ==> names[j] !in columns;
        r
      else r
  }

  /** `pick(df, names)`: the early-return loop over the candidate names. */
  method Pick(columns: seq<string>, names: seq<string>) returns (r: Option<string>)
    ensures r == FirstPresent(names, columns)
  {
    for i := 0 to |names|
      invariant FirstPresent(names, columns) == FirstPresent(names[i..], columns)
    {
      assert names[i..][1..] == names[i + 1..];
      if names[i] in columns {
        return Some(names[i]);
      }
    }
    return None;
  }

  /** First match wins: once a name of `names` is a column, the aliases listed after
      `names` never change the outcome. */
  lemma {:induction false} EarlierAliasWins(names: seq<string>, later: seq<string>, columns: seq<string>)
    requires FirstPresent(names, columns).Some?
    ensures FirstPresent(names + later, columns) == FirstPresent(names, columns)
  {
    assert names != [];
    assert (names + later)[0] == names[0];
    if names[0] !in columns {
      assert (names + later)[1..] == names[1..] + later;
      EarlierAliasWins(names[1..], later, columns);
    }
  }

  /** Resolving against the raw header again from the chosen name alone picks that name:
      resolution is idempotent. */
  lemma ResolveIdempotent(names: seq<string>, columns: seq<string>)
    requires FirstPresent(names, columns).Some?
    ensures var c := FirstPresent(names, columns).value;
            FirstPresent([c], columns) == Some(c)
  {
  }
}
