/**
 * The statistics computed from the catalogue: one entry per version with its burns
 * and size, the versions ordered by burns, burns grouped by firmware name, by
 * status and by upload month, the month series in calendar order, and the total.
 * The statistics hook computes these from the loaded catalogue; the statistics page
 * computes the same from its built-in sample list, which is a parameter here.
 */
module Statistics {
  import opened Common
  import opened Text
  import opened Sorting
  import opened Catalog
  import opened Grouping

  // ---------------------------------------------------------------------------
  // Per-version entries

  /** `Math.round(size / 1024)`: the size in KiB, halves rounded up. */
  function RoundKiB(size: int): (k: int)
    ensures 1024 * k - 512 <= size < 1024 * k + 512
  {
    (size + 512) / 1024
  }

  datatype VersionEntry = VersionEntry(name: string, burns: int, size: int, status: Status)

  /** The chart entry of one record: "name version", its burns, its rounded size and its status. */
  function VersionEntryOf(fw: Firmware): VersionEntry {
    VersionEntry(fw.name + " " + fw.version, fw.burnCount, RoundKiB(fw.size), fw.status)
  }

  function VersionEntries(data: seq<Firmware>): seq<VersionEntry> {
    seq(|data|, i requires 0 <= i < |data| => VersionEntryOf(data[i]))
  }

  /** The comparator `(a, b) => b.burns - a.burns`, read as "a may come before b". */
  predicate MoreBurnsFirst(a: VersionEntry, b: VersionEntry) {
    b.burns - a.burns <= 0
  }

  lemma MoreBurnsFirstIsOrder()
    ensures Total(MoreBurnsFirst) && Transitive(MoreBurnsFirst)
  {
  }

  /** `[...versions].sort((a, b) => b.burns - a.burns)`: the same entries, most burns first. */
  function SortedByBurns(versions: seq<VersionEntry>): (r: seq<VersionEntry>)
    ensures multiset(r) == multiset(versions)
    ensures forall i, j :: 0 <= i < j < |r| ==> r[i].burns >= r[j].burns
  {
    MoreBurnsFirstIsOrder();
    SortBySorted(versions, MoreBurnsFirst);
    SortBy(versions, MoreBurnsFirst)
  }

  // ---------------------------------------------------------------------------
  // Month keys

  /** The key ``${getMonth() + 1}/${getFullYear()}``. */
  function MonthKey(d: Date): string {
    IntToString(d.month + 1) + "/" + IntToString(d.year)
  }

  function MonthOf(fw: Firmware): string {
    MonthKey(fw.dateUploaded)
  }

  /** Part `n` of `key.split('/').map(Number)`. */
  function KeyPart(key: string, n: nat): int {
    var parts := Split(key, '/');
    if n < |parts| then ParseInt(parts[n]) else 0
  }

  function KeyMonth(key: string): int { KeyPart(key, 0) }
  function KeyYear(key: string): int { KeyPart(key, 1) }

  /** Reading a month key back gives the month (counted from 1) and the year it was made from. */
  lemma MonthKeyRoundTrip(d: Date)
    ensures KeyMonth(MonthKey(d)) == d.month + 1
    ensures KeyYear(MonthKey(d)) == d.year
  {
    var m := IntToString(d.month + 1);
    var y := IntToString(d.year);
    assert '/' !in m && '/' !in y;
    assert MonthKey(d) == m + ['/'] + y;
    SplitConcat(m, y, '/');
    SplitWithoutSeparator(m, '/');
    SplitWithoutSeparator(y, '/');
    assert Split(MonthKey(d), '/') == [m, y];
    ParseIntToString(d.month + 1);
    ParseIntToString(d.year);
  }

  /** The month part of every key is between 1 and 12. */
  lemma MonthKeyMonthInRange(d: Date)
    ensures 1 <= KeyMonth(MonthKey(d)) <= 12
  {
    MonthKeyRoundTrip(d);
  }

  /** Two dates share a month key exactly when they fall in the same month of the same year. */
  lemma MonthKeySameMonth(a: Date, b: Date)
    ensures MonthKey(a) == MonthKey(b) <==> a.year == b.year && a.month == b.month
  {
    MonthKeyRoundTrip(a);
    MonthKeyRoundTrip(b);
  }

  /** The series comparator: by year, then by month, both read back from the key. */
  predicate SeriesLe(a: Bucket<string>, b: Bucket<string>) {
    (if KeyYear(a.key) != KeyYear(b.key) then KeyYear(a.key) - KeyYear(b.key)
     else KeyMonth(a.key) - KeyMonth(b.key)) <= 0
  }

  lemma SeriesLeIsOrder()
    ensures Total(SeriesLe) && Transitive(SeriesLe)
  {
  }

  /** The month series: each month's total, ordered by year and then month. */
  function TimeSeries(months: seq<Bucket<string>>): (r: seq<Bucket<string>>)
    ensures multiset(r) == multiset(months)
    ensures Sorted(r, SeriesLe)
  {
    SeriesLeIsOrder();
    SortBySorted(months, SeriesLe);
    SortBy(months, SeriesLe)
  }

  // ---------------------------------------------------------------------------
  // The chart data

  datatype ChartData = ChartData(
    sortedByBurns: seq<VersionEntry>,
    firmwareTypeData: seq<Bucket<string>>,  // key: the name; count: the `versions` field
    statusData: seq<Bucket<Status>>,        // key: the status (`name`); burns: the `value` field
    timeSeriesData: seq<Bucket<string>>,    // key: the month `date`; burns
    totalBurns: int)

  /** The value `prepareChartData` returns for loaded data. */
  function ChartDataOf(data: seq<Firmware>): ChartData {
    ChartData(
      SortedByBurns(VersionEntries(data)),
      Grouped(data, NameOf, BurnsOf),
      Grouped(data, StatusOf, BurnsOf),
      MonthSeries(data),
      TotalBurns(data))
  }

  /** The month series of a catalogue. */
  function MonthSeries(data: seq<Firmware>): seq<Bucket<string>> {
    TimeSeries(Grouped(data, MonthOf, BurnsOf))
  }

  /** `key` is the month key of one of the records. */
  predicate IsMonthKeyOf(data: seq<Firmware>, key: string) {
    exists n :: 0 <= n < |data| && key == MonthKey(data[n].dateUploaded)
  }

  /** `prepareChartData`: nothing before the catalogue has loaded, the chart data after. */
  method PrepareChartData(firmwareData: Option<seq<Firmware>>) returns (chart: Option<ChartData>)
    ensures firmwareData.None? <==> chart.None?
    ensures firmwareData.Some? ==> chart == Some(ChartDataOf(firmwareData.value))
  {
    if firmwareData.None? {
      return None;
    }
    var data := firmwareData.value;
    var sortedByBurns := SortedByBurns(VersionEntries(data));
    var byName := GroupBurns(data, NameOf, BurnsOf);
    var byStatus := GroupBurns(data, StatusOf, BurnsOf);
    var byMonth := GroupBurns(data, MonthOf, BurnsOf);
    var series := TimeSeries(byMonth);
    chart := Some(ChartData(sortedByBurns, byName, byStatus, series, TotalBurns(data)));
  }

  /** The burns chart lists every version entry once, most burns first. */
  lemma ChartSortedByBurns(data: seq<Firmware>)
    ensures var r := ChartDataOf(data).sortedByBurns;
      && multiset(r) == multiset(VersionEntries(data))
      && (forall i, j :: 0 <= i < j < |r| ==> r[i].burns >= r[j].burns)
      && |r| == |data|
  {
    var r := ChartDataOf(data).sortedByBurns;
    assert |r| == |multiset(r)| == |multiset(VersionEntries(data))|;
  }

  /**
   * Grouping by name: one entry per distinct name, each holding the burns and the
   * number of versions of that name; the burns add up to the total and the version
   * counts to the number of records.
   */
  lemma ChartNameGroups(data: seq<Firmware>)
    ensures var c := ChartDataOf(data);
      && Sum(c.firmwareTypeData, BucketBurns) == c.totalBurns
      && Sum(c.firmwareTypeData, BucketCount) == |data|
      && DistinctBy(c.firmwareTypeData, BucketKey)
      && (forall n | 0 <= n < |data| :: exists i :: 0 <= i < |c.firmwareTypeData| && c.firmwareTypeData[i].key == data[n].name)
      && (forall i | 0 <= i < |c.firmwareTypeData| ::
            c.firmwareTypeData[i].burns == Sum(data, BurnsUnder(NameOf, BurnsOf, c.firmwareTypeData[i].key)))
  {
    GroupedTotals(data, NameOf, BurnsOf);
    GroupedKeys(data, NameOf, BurnsOf);
    GroupedEntries(data, NameOf, BurnsOf);
  }

  /** Entries with distinct statuses number at most three. */
  lemma AtMostThreeStatuses(r: seq<Bucket<Status>>)
    requires DistinctBy(r, BucketKey)
    ensures |r| <= 3
  {
    if |r| > 3 {
      var a, b, c, d := r[0].key, r[1].key, r[2].key, r[3].key;
      assert a != b && a != c && a != d && b != c && b != d && c != d by {
        assert BucketKey(r[0]) != BucketKey(r[1]) && BucketKey(r[0]) != BucketKey(r[2]) && BucketKey(r[0]) != BucketKey(r[3]);
        assert BucketKey(r[1]) != BucketKey(r[2]) && BucketKey(r[1]) != BucketKey(r[3]) && BucketKey(r[2]) != BucketKey(r[3]);
      }
      assert false;
    }
  }

  /** Grouping by status: at most one entry per status, and the values add up to the total. */
  lemma ChartStatusGroups(data: seq<Firmware>)
    ensures var c := ChartDataOf(data);
      && Sum(c.statusData, BucketBurns) == c.totalBurns
      && DistinctBy(c.statusData, BucketKey)
      && |c.statusData| <= 3
  {
    GroupedTotals(data, StatusOf, BurnsOf);
    GroupedKeys(data, StatusOf, BurnsOf);
    AtMostThreeStatuses(ChartDataOf(data).statusData);
  }

  /** Every key of the month series is the month key of some record. */
  lemma SeriesKeysAreMonthKeys(data: seq<Firmware>)
    ensures var r := MonthSeries(data);
      forall i | 0 <= i < |r| :: IsMonthKeyOf(data, r[i].key)
  {
    var months := Grouped(data, MonthOf, BurnsOf);
    var r := MonthSeries(data);
    forall i | 0 <= i < |r|
      ensures IsMonthKeyOf(data, r[i].key)
    {
      assert r[i] in multiset(months);
      GroupedKeyOccurs(data, MonthOf, BurnsOf, r[i]);
    }
  }

  /** The month series' burns add up to the total. */
  lemma SeriesTotal(data: seq<Firmware>)
    ensures Sum(MonthSeries(data), BucketBurns) == TotalBurns(data)
  {
    var months := Grouped(data, MonthOf, BurnsOf);
    GroupedTotals(data, MonthOf, BurnsOf);
    SumSortBy(months, SeriesLe, BucketBurns);
  }

  /** The month series has one point per month key. */
  lemma SeriesDistinct(data: seq<Firmware>)
    ensures DistinctBy(MonthSeries(data), BucketKey)
  {
    var months := Grouped(data, MonthOf, BurnsOf);
    GroupedKeys(data, MonthOf, BurnsOf);
    assert DistinctBy(months, BucketKey);
    SortByDistinctBy(months, SeriesLe, BucketKey);
  }

  /** Every point's month is between 1 and 12. */
  lemma SeriesMonthRange(data: seq<Firmware>)
    ensures var r := MonthSeries(data);
      forall i | 0 <= i < |r| :: 1 <= KeyMonth(r[i].key) <= 12
  {
    var r := MonthSeries(data);
    SeriesKeysAreMonthKeys(data);
    forall i | 0 <= i < |r|
      ensures 1 <= KeyMonth(r[i].key) <= 12
    {
      var n :| 0 <= n < |data| && r[i].key == MonthKey(data[n].dateUploaded);
      MonthKeyMonthInRange(data[n].dateUploaded);
    }
  }

  /** The month series is strictly increasing by year and then by month. */
  lemma ChartTimeSeriesOrdered(data: seq<Firmware>)
    ensures var r := MonthSeries(data);
      forall i, j | 0 <= i < j < |r| ::
        KeyYear(r[i].key) < KeyYear(r[j].key)
        || (KeyYear(r[i].key) == KeyYear(r[j].key) && KeyMonth(r[i].key) < KeyMonth(r[j].key))
  {
    var r := MonthSeries(data);
    SeriesDistinct(data);
    SeriesKeysAreMonthKeys(data);
    forall i, j | 0 <= i < j < |r|
      ensures KeyYear(r[i].key) < KeyYear(r[j].key)
        || (KeyYear(r[i].key) == KeyYear(r[j].key) && KeyMonth(r[i].key) < KeyMonth(r[j].key))
    {
      assert SeriesLe(r[i], r[j]);
      assert r[i].key != r[j].key;
      MonthKeysStrictlyBefore(data, r[i].key, r[j].key);
    }
  }

  /** Two different month keys of the records in series order are in strict calendar order. */
  lemma MonthKeysStrictlyBefore(data: seq<Firmware>, a: string, b: string)
    requires IsMonthKeyOf(data, a) && IsMonthKeyOf(data, b) && a != b
    requires (if KeyYear(a) != KeyYear(b) then KeyYear(a) - KeyYear(b) else KeyMonth(a) - KeyMonth(b)) <= 0
    ensures KeyYear(a) < KeyYear(b) || (KeyYear(a) == KeyYear(b) && KeyMonth(a) < KeyMonth(b))
  {
    var n :| 0 <= n < |data| && a == MonthKey(data[n].dateUploaded);
    var m :| 0 <= m < |data| && b == MonthKey(data[m].dateUploaded);
    MonthKeyRoundTrip(data[n].dateUploaded);
    MonthKeyRoundTrip(data[m].dateUploaded);
    MonthKeySameMonth(data[n].dateUploaded, data[m].dateUploaded);
  }

  /** On the statistics page, the status values, the name groups and the month series all add up to the "Total Burns" figure. */
  lemma PageTotalsAgree(data: seq<Firmware>)
    ensures var c := ChartDataOf(data);
      && Sum(c.statusData, BucketBurns) == TotalBurns(data)
      && Sum(c.firmwareTypeData, BucketBurns) == TotalBurns(data)
      && Sum(c.timeSeriesData, BucketBurns) == TotalBurns(data)
  {
    ChartNameGroups(data);
    ChartStatusGroups(data);
    SeriesTotal(data);
  }

  // ---------------------------------------------------------------------------
  // Name grouping as the pages write it

  /**
   * The property names a plain `{}` inherits from `Object.prototype`: `acc[name]` is
   * already truthy for these, so the pages never create an own entry for them.
   */
  const InheritedNames: seq<string> := [
    "constructor", "__defineGetter__", "__defineSetter__", "hasOwnProperty",
    "__lookupGetter__", "__lookupSetter__", "isPrototypeOf", "propertyIsEnumerable",
    "toString", "valueOf", "__proto__", "toLocaleString"]

  predicate HasOwnSlot(fw: Firmware) {
    fw.name !in InheritedNames
  }

  /**
   * The name grouping as written with `!acc[baseName]` on `{}`: a record whose name is
   * inherited adds its burns to the inherited member, which `Object.values` does not
   * list, so the result is the grouping of the other records only.
   */
  function NameGroupsAsWritten(data: seq<Firmware>): seq<Bucket<string>> {
    Grouped(Filter(data, HasOwnSlot), NameOf, BurnsOf)
  }

  /** With no inherited names in the catalogue, the written grouping is the intended one. */
  lemma AsWrittenWithoutInheritedNames(data: seq<Firmware>)
    requires forall i :: 0 <= i < |data| ==> HasOwnSlot(data[i])
    ensures NameGroupsAsWritten(data) == Grouped(data, NameOf, BurnsOf)
  {
    FilterAll(data, HasOwnSlot);
  }

  /** One firmware named "toString" with 5 burns: the written grouping shows 0 burns out of a total of 5. */
  lemma AsWrittenLosesInheritedName()
    ensures var fw := Firmware("id-1", "toString", "1.0.0", None, 2048, None, Date(2024, 0, 1, 0),
                               Some(5), 5, None, [], Stable);
      && Sum(NameGroupsAsWritten([fw]), BucketBurns) == 0
      && TotalBurns([fw]) == 5
      && Sum(Grouped([fw], NameOf, BurnsOf), BucketBurns) == 5
  {
    var fw := Firmware("id-1", "toString", "1.0.0", None, 2048, None, Date(2024, 0, 1, 0),
                       Some(5), 5, None, [], Stable);
    assert InheritedNames[8] == "toString";
    assert !HasOwnSlot(fw);
    assert Filter([fw], HasOwnSlot) == [];
    GroupedTotals([], NameOf, BurnsOf);
    GroupedTotals([fw], NameOf, BurnsOf);
    assert [fw][..0] == [];
  }
}
