/** Derived features of the cleaned table: the heavy-user flag (at or above the 0.75
    quantile of daily hours), the sleep flag (at least 7 hours a night), and the platform
    group found by ordered keyword search. */
module Features {
  import opened Wrappers
  import opened Stats
  import opened Cleaning
  import opened Text
  import opened Coerce

  /** A nullable integer flag (pandas' `Int64` dtype): None is `pd.NA`, else 0 or 1. */
  type Flag = Option<int>

  /** `heavy_user`: when any hours are present, 1 for a row at or above the 0.75 quantile
      of the present hours and 0 otherwise (a missing row compares false); with no hours
      at all, the whole column is `pd.NA`. */
  function HeavyUser(hours: Column): (r: seq<Flag>)
    ensures |r| == |hours|
    ensures !HasValue(hours) ==> forall i :: 0 <= i < |r| ==> r[i].None?
    ensures HasValue(hours) ==> forall i :: 0 <= i < |r| ==> r[i] == Some(0) || r[i] == Some(1)
    ensures HasValue(hours) ==> forall i :: 0 <= i < |r| ==>
              (r[i] == Some(1) <==> hours[i].Some? && Quantile75(Present(hours)) <= hours[i].value)
  {
    if HasValue(hours) then
      var cut := Quantile75(Present(hours));
      seq(|hours|, i requires 0 <= i < |hours| =>
        if hours[i].Some? && cut <= hours[i].value then Some(1) else Some(0))
    else seq(|hours|, i => None)
  }

  /** The cut is attained: whenever any hours are present, at least one row is flagged as
      a heavy user (the cut never exceeds the largest present value). */
  lemma SomeHeavyUser(hours: Column)
    requires HasValue(hours)
    ensures exists i :: 0 <= i < |hours| && HeavyUser(hours)[i] == Some(1)
  {
    var vs := Present(hours);
    QuantileBetweenValues(vs);
    var j :| 0 <= j < |vs| && Quantile75(vs) <= vs[j];
    PresentValues(hours, vs[j]);
    var i :| 0 <= i < |hours| && hours[i] == Some(vs[j]);
    assert HeavyUser(hours)[i] == Some(1);
  }

  /** Hours 1, 2, 3, 4, 10: the linear 0.75 quantile is 4, so the last two rows are heavy. */
  lemma HeavyUserExample(hours: Column)
    requires hours == [Some(1.0), Some(2.0), Some(3.0), Some(4.0), Some(10.0)]
    ensures HeavyUser(hours) == [Some(0), Some(0), Some(0), Some(1), Some(1)]
  {
    CutExample(hours);
    var r := HeavyUser(hours);
    assert hours[0].Some?;
    assert r[0] == Some(0) && r[1] == Some(0) && r[2] == Some(0);
    assert r[3] == Some(1) && r[4] == Some(1);
  }

  /** For those hours the cut is 4. */
  lemma CutExample(hours: Column)
    requires hours == [Some(1.0), Some(2.0), Some(3.0), Some(4.0), Some(10.0)]
    ensures HasValue(hours) && Quantile75(Present(hours)) == 4.0
  {
    PresentExample(hours);
    QuantileExample();
  }

  lemma PresentExample(hours: Column)
    requires hours == [Some(1.0), Some(2.0), Some(3.0), Some(4.0), Some(10.0)]
    ensures Present(hours) == [1.0, 2.0, 3.0, 4.0, 10.0]
  {
    assert hours[4..][1..] == [];
    assert Present(hours[4..]) == [10.0];
    assert hours[3..][1..] == hours[4..];
    assert Present(hours[3..]) == [4.0, 10.0];
    assert hours[2..][1..] == hours[3..];
    assert Present(hours[2..]) == [3.0, 4.0, 10.0];
    assert hours[1..][1..] == hours[2..];
    assert Present(hours[1..]) == [2.0, 3.0, 4.0, 10.0];
  }

  /** The fewest hours of sleep a night that count as enough. */
  const SLEEP_OK_HOURS: real := 7.0

  /** `sleep_ok`: when any sleep value is present, 1 for at least seven hours and 0
      otherwise (a missing row compares false); with none at all, the column is `pd.NA`. */
  function SleepOk(sleep: Column): (r: seq<Flag>)
    ensures |r| == |sleep|
    ensures !HasValue(sleep) ==> forall i :: 0 <= i < |r| ==> r[i].None?
    ensures HasValue(sleep) ==> forall i :: 0 <= i < |r| ==> r[i] == Some(0) || r[i] == Some(1)
    ensures HasValue(sleep) ==> forall i :: 0 <= i < |r| ==>
              (r[i] == Some(1) <==> sleep[i].Some? && SLEEP_OK_HOURS <= sleep[i].value)
  {
    if HasValue(sleep) then
      seq(|sleep|, i requires 0 <= i < |sleep| =>
        if sleep[i].Some? && SLEEP_OK_HOURS <= sleep[i].value then Some(1) else Some(0))
    else seq(|sleep|, i => None)
  }

  const SHORT_VIDEO: string := "Short-video"
  const IMAGE_CENTRIC: string := "Image-centric"
  const PROFESSIONAL_FORUM: string := "Professional/Forum"
  const OTHER: string := "Other"

  /** The keyword lists, searched in this order; the first list with a hit decides. */
  const SHORT_VIDEO_KEYS: seq<string> := ["tiktok", "short", "reels", "youtube"]
  const IMAGE_CENTRIC_KEYS: seq<string> := ["instagram", "insta", "snap", "pinterest"]
  const FORUM_KEYS: seq<string> := ["linkedin", "reddit", "quora", "discord"]

  /** Whether any keyword of the group occurs in the text. */
  predicate AnyKeyword(s: string, keys: seq<string>)
    ensures keys == [] ==> !AnyKeyword(s, keys)
    ensures "" in keys ==> AnyKeyword(s, keys)
    ensures forall i :: 0 <= i < |keys| && Contains(s, keys[i]) ==> AnyKeyword(s, keys)
  {
    exists k :: k in keys && Contains(s, k)
  }

  /** `map_platform(x)`: a missing value is "Other"; otherwise the lower-cased text is
      searched for the short-video keywords, then the image-centric ones, then the
      professional/forum ones, and the first group with a hit is the answer. */
  function MapPlatform(x: Option<string>): (r: string)
    ensures r == SHORT_VIDEO || r == IMAGE_CENTRIC || r == PROFESSIONAL_FORUM || r == OTHER
    ensures x.None? ==> r == OTHER
    ensures x.Some? ==> (r == SHORT_VIDEO <==> AnyKeyword(Lower(x.value), SHORT_VIDEO_KEYS))
    ensures x.Some? ==> (r == IMAGE_CENTRIC <==>
              !AnyKeyword(Lower(x.value), SHORT_VIDEO_KEYS) && AnyKeyword(Lower(x.value), IMAGE_CENTRIC_KEYS))
    ensures x.Some? ==> (r == PROFESSIONAL_FORUM <==>
              !AnyKeyword(Lower(x.value), SHORT_VIDEO_KEYS) && !AnyKeyword(Lower(x.value), IMAGE_CENTRIC_KEYS)
              && AnyKeyword(Lower(x.value), FORUM_KEYS))
  {
    match x
    case None => OTHER
    case Some(t) =>
      var s := Lower(t);
      if AnyKeyword(s, SHORT_VIDEO_KEYS) then SHORT_VIDEO
      else if AnyKeyword(s, IMAGE_CENTRIC_KEYS) then IMAGE_CENTRIC
      else if AnyKeyword(s, FORUM_KEYS) then PROFESSIONAL_FORUM
      else OTHER
  }

  /** Lower-casing twice is lower-casing once. */
  lemma LowerIdempotent(s: string)
    ensures Lower(Lower(s)) == Lower(s)
  {
  }

  /** The grouping ignores letter case: the text and its lower-case form get one group. */
  lemma MapPlatformIgnoresCase(t: string)
    ensures MapPlatform(Some(t)) == MapPlatform(Some(Lower(t)))
  {
    LowerIdempotent(t);
  }

  /** Every text holding "instagram" also holds "insta", so the longer keyword never
      decides a group on its own. */
  lemma InstagramImpliesInsta(s: string)
    requires Contains(s, "instagram")
    ensures Contains(s, "insta")
  {
    var i :| 0 <= i <= |s| && OccursAt(s, "instagram", i);
    assert s[i..i + 5] == s[i..i + 9][..5];
    assert OccursAt(s, "insta", i);
  }

  /** Order decides between groups: a text naming both a short-video and an image-centric
      platform is short-video. */
  lemma MapPlatformExample()
    ensures MapPlatform(Some("TikTok Reels and Instagram")) == SHORT_VIDEO
  {
    var s := Lower("TikTok Reels and Instagram");
    assert s[0..6] == "tiktok";
    assert OccursAt(s, "tiktok", 0);
    assert "tiktok" in SHORT_VIDEO_KEYS && Contains(s, "tiktok");
  }

  /** "Snapchat" has no short-video keyword and holds "snap", so it is image-centric. */
  lemma MapPlatformSnapchat()
    ensures MapPlatform(Some("Snapchat")) == IMAGE_CENTRIC
  {
    var s := Lower("Snapchat");
    assert s == "snapchat";
    forall k | k in SHORT_VIDEO_KEYS ensures !Contains(s, k) {
      var j := if k == "tiktok" then 5 else if k == "youtube" then 0 else if k == "short" then 2 else 1;
      MissingCharNotContained(s, k, j);
    }
    assert OccursAt(s, "snap", 0);
    assert "snap" in IMAGE_CENTRIC_KEYS && Contains(s, "snap");
  }

  /** A text cannot hold a keyword one of whose characters it lacks. */
  lemma MissingCharNotContained(s: string, k: string, j: int)
    requires 0 <= j < |k| && k[j] !in s
    ensures !Contains(s, k)
  {
    forall i | 0 <= i <= |s| ensures !OccursAt(s, k, i) {
      if i + |k| <= |s| {
        assert s[i..i + |k|][j] == s[i + j];
      }
    }
  }

  /** The `platform_group` column: `map_platform` applied to each cell of the platform
      column. A present numeric cell renders as digits, a point, a sign or an exponent,
      which hold no keyword, so it maps to "Other" like a missing cell. */
  function PlatformGroups(col: RawColumn): (r: seq<string>)
    ensures |r| == Size(col)
    ensures col.Textual? ==> forall i :: 0 <= i < |r| ==> r[i] == MapPlatform(col.cells[i])
    ensures col.Numeric? ==> forall i :: 0 <= i < |r| ==> r[i] == OTHER
  {
    match col
    case Numeric(v) => seq(|v|, i => OTHER)
    case Textual(cells) => seq(|cells|, i requires 0 <= i < |cells| => MapPlatform(cells[i]))
  }
}
