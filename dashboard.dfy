/**
 * The dashboard page: burns per upload day for the chart, the total burns figure,
 * the three most recent versions with a shortened description, the version with
 * the latest upload date, and the stable and beta tabs.
 */
module Dashboard {
  import opened Common
  import opened Sorting
  import opened Catalog
  import opened Grouping

  // ---------------------------------------------------------------------------
  // Burns per day

  /** The calendar day of an upload, the part of `toISOString()` before the `T`. */
  datatype CalendarDay = CalendarDay(year: int, month: Month, day: Day)

  function DayOf(fw: Firmware): CalendarDay {
    CalendarDay(fw.dateUploaded.year, fw.dateUploaded.month, fw.dateUploaded.day)
  }

  /** `burnDataByDate` and `Object.values` of it: one point per upload day with that day's burns. */
  method BurnChartData(data: seq<Firmware>) returns (points: seq<Bucket<CalendarDay>>)
    ensures points == Grouped(data, DayOf, BurnsOf)
  {
    points := GroupBurns(data, DayOf, BurnsOf);
  }

  /** The daily points add up to the "Total Device Burns" figure, with one point per day. */
  lemma ChartMatchesTotal(data: seq<Firmware>)
    ensures Sum(Grouped(data, DayOf, BurnsOf), BucketBurns) == TotalBurns(data)
    ensures DistinctBy(Grouped(data, DayOf, BurnsOf), BucketKey)
  {
    GroupedTotals(data, DayOf, BurnsOf);
    GroupedKeys(data, DayOf, BurnsOf);
  }

  // ---------------------------------------------------------------------------
  // Most recent versions

  /** The comparator `(a, b) => b.dateUploaded.getTime() - a.dateUploaded.getTime()`. */
  predicate NewerFirst(a: Firmware, b: Firmware) {
    GetTime(b.dateUploaded) - GetTime(a.dateUploaded) <= 0
  }

  lemma NewerFirstIsOrder()
    ensures Total(NewerFirst) && Transitive(NewerFirst)
  {
  }

  function ByNewest(data: seq<Firmware>): (s: seq<Firmware>)
    ensures multiset(s) == multiset(data)
    ensures |s| == |data|
    ensures Sorted(s, NewerFirst)
  {
    NewerFirstIsOrder();
    SortBySorted(data, NewerFirst);
    SortBy(data, NewerFirst)
  }

  /** `latestVersions`: a sorted copy cut to three; at most three entries, newest first, all from the catalogue. */
  function LatestVersions(data: seq<Firmware>): (r: seq<Firmware>)
    ensures |r| == Min(3, |data|)
    ensures multiset(r) <= multiset(data)
    ensures forall i, j :: 0 <= i < j < |r| ==> GetTime(r[i].dateUploaded) >= GetTime(r[j].dateUploaded)
  {
    var k := Min(3, |data|);
    NewestPrefix(data, k);
    ByNewest(data)[..k]
  }

  /** The first `k` entries newest first are taken from the catalogue and are in upload order. */
  lemma NewestPrefix(data: seq<Firmware>, k: nat)
    requires k <= |data|
    ensures var r := ByNewest(data)[..k];
      && multiset(r) <= multiset(data)
      && forall i, j :: 0 <= i < j < |r| ==> GetTime(r[i].dateUploaded) >= GetTime(r[j].dateUploaded)
  {
    var s := ByNewest(data);
    SortedPrefix(s, NewerFirst, k);
    assert forall i, j :: 0 <= i < j < k ==> NewerFirst(s[..k][i], s[..k][j]);
  }

  /** No entry left out of `latestVersions` was uploaded after an entry it shows. */
  lemma LatestVersionsNewest(data: seq<Firmware>)
    ensures var r := LatestVersions(data);
      forall x, y :: x in multiset(data) - multiset(r) && y in r ==>
        GetTime(x.dateUploaded) <= GetTime(y.dateUploaded)
  {
    var s := ByNewest(data);
    var k := Min(3, |data|);
    SortedPrefixFirst(s, NewerFirst, k);
    assert LatestVersions(data) == s[..k];
  }

  /** No record of `data` was uploaded after `x`. */
  predicate IsLatest(data: seq<Firmware>, x: Firmware) {
    forall y :: y in data ==> GetTime(y.dateUploaded) <= GetTime(x.dateUploaded)
  }

  /** The record the "Latest Version" card shows: the first of the newest-first copy. */
  function LatestEntry(data: seq<Firmware>): (r: Option<Firmware>)
    ensures r.None? <==> data == []
    ensures r.Some? ==> r.value in data
    ensures r.Some? ==> IsLatest(data, r.value)
  {
    if data == [] then None
    else
      var s := ByNewest(data);
      assert s[0] in multiset(data);
      assert forall x :: x in data ==> x in multiset(s);
      assert forall k :: 0 < k < |s| ==> NewerFirst(s[0], s[k]);
      Some(s[0])
  }

  /**
   * The "Latest Version" card's text: the version of the latest upload. The page reads
   * its fixed, non-empty sample list, so it never meets the empty case; there
   * `[0].version` would throw, which is the `None` here.
   */
  function LatestVersion(data: seq<Firmware>): (v: Option<string>)
    ensures v.None? <==> data == []
    ensures v.Some? ==> exists x :: x in data && x.version == v.value && IsLatest(data, x)
  {
    match LatestEntry(data)
    case None => None
    case Some(fw) => Some(fw.version)
  }

  // ---------------------------------------------------------------------------
  // Description preview and tabs

  /** `description.slice(0, 40)` followed by "..." when the description is longer than 40. */
  function DescriptionPreview(description: string): (p: string)
    ensures |description| <= 40 ==> p == description
    ensures |description| > 40 ==> |p| == 43 && p[..40] == description[..40] && p[40..] == "..."
  {
    description[..Min(40, |description|)] + (if |description| > 40 then "..." else "")
  }

  predicate IsStable(fw: Firmware) { fw.status == Stable }
  predicate IsBeta(fw: Firmware) { fw.status == Beta }

  /** The stable tab: exactly the stable records, in catalogue order. */
  function StableTab(data: seq<Firmware>): (r: seq<Firmware>)
    ensures forall x :: x in r <==> x in data && x.status == Stable
    ensures forall x :: multiset(r)[x] == if x.status == Stable then multiset(data)[x] else 0
    ensures IsSubsequence(r, data)
  {
    FilterIsSubsequence(data, IsStable);
    Filter(data, IsStable)
  }

  /** The beta tab: exactly the beta records, in catalogue order. */
  function BetaTab(data: seq<Firmware>): (r: seq<Firmware>)
    ensures forall x :: x in r <==> x in data && x.status == Beta
    ensures forall x :: multiset(r)[x] == if x.status == Beta then multiset(data)[x] else 0
    ensures IsSubsequence(r, data)
  {
    FilterIsSubsequence(data, IsBeta);
    Filter(data, IsBeta)
  }
}
