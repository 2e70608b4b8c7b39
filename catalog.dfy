/**
 * The firmware catalogue as the dashboard loads it: the stored row, the record the
 * pages work with, and the load step of the `firmware` query, which copies each
 * row and fills in the upload date, the burn count and the tag list.
 */
module Catalog {
  import opened Common

  /** The `firmware_status` enumeration. */
  datatype Status = Stable | Beta | Draft

  function StatusName(s: Status): string {
    match s
    case Stable => "stable"
    case Beta => "beta"
    case Draft => "draft"
  }

  lemma StatusNameInjective(a: Status, b: Status)
    ensures StatusName(a) == StatusName(b) <==> a == b
  {
  }

  type Month = m: int | 0 <= m < 12
  type Day = d: int | 1 <= d <= 31 witness 1
  type MsOfDay = t: int | 0 <= t < 86400000

  /**
   * A point in time as `Date` exposes it: `getFullYear()`, `getMonth()` (0 for
   * January), `getDate()` and the milliseconds into the day.
   */
  datatype Date = Date(year: int, month: Month, day: Day, msOfDay: MsOfDay)

  /** A stand-in for `getTime()` that orders dates exactly as the calendar does. */
  function GetTime(d: Date): int {
    ((d.year * 12 + d.month) * 31 + (d.day - 1)) * 86400000 + d.msOfDay
  }

  /** Calendar order: by year, then month, then day, then time of day. */
  predicate CalendarLe(a: Date, b: Date) {
    a.year < b.year
    || (a.year == b.year && (a.month < b.month
    || (a.month == b.month && (a.day < b.day
    || (a.day == b.day && a.msOfDay <= b.msOfDay)))))
  }

  function DayIndex(d: Date): int {
    (d.year * 12 + d.month) * 31 + (d.day - 1)
  }

  lemma DayIndexOrder(a: Date, b: Date)
    ensures DayIndex(a) < DayIndex(b) <==>
      a.year < b.year || (a.year == b.year && (a.month < b.month || (a.month == b.month && a.day < b.day)))
  {
    var ma := a.year * 12 + a.month;
    var mb := b.year * 12 + b.month;
    assert ma < mb <==> a.year < b.year || (a.year == b.year && a.month < b.month);
  }

  /** Comparing `getTime()` values compares dates in calendar order, and equal times are equal dates. */
  lemma {:induction false} GetTimeOrder(a: Date, b: Date)
    ensures GetTime(a) <= GetTime(b) <==> CalendarLe(a, b)
    ensures GetTime(a) == GetTime(b) <==> a == b
  {
    DayIndexOrder(a, b);
    DayIndexOrder(b, a);
    assert GetTime(a) == DayIndex(a) * 86400000 + a.msOfDay;
    assert GetTime(b) == DayIndex(b) * 86400000 + b.msOfDay;
    if DayIndex(a) < DayIndex(b) {
      assert DayIndex(a) * 86400000 + 86400000 <= DayIndex(b) * 86400000;
    } else if DayIndex(b) < DayIndex(a) {
      assert DayIndex(b) * 86400000 + 86400000 <= DayIndex(a) * 86400000;
    }
  }

  /** A row of the `firmware` table; `date_uploaded` is shown already read as a date. */
  datatype FirmwareRow = FirmwareRow(
    id: string,
    name: string,
    version: string,
    description: Option<string>,
    size: int,
    dateUploadedRaw: Option<Date>,
    burnCountRaw: Option<int>,
    fileUrl: Option<string>,
    status: Status,
    tagsRaw: Option<seq<string>>)

  /** The `Firmware` record the pages use: the row's fields plus the filled-in ones. */
  datatype Firmware = Firmware(
    id: string,
    name: string,
    version: string,
    description: Option<string>,
    size: int,
    dateUploadedRaw: Option<Date>,
    dateUploaded: Date,
    burnCountRaw: Option<int>,
    burnCount: int,
    fileUrl: Option<string>,
    tags: seq<string>,
    status: Status)

  /** The stored row a record was made from, with the tag list it ended up with. */
  function RowOf(fw: Firmware): FirmwareRow {
    FirmwareRow(fw.id, fw.name, fw.version, fw.description, fw.size,
      fw.dateUploadedRaw, fw.burnCountRaw, fw.fileUrl, fw.status, Some(fw.tags))
  }

  /**
   * One step of the query's `map`: the row spread into the record, the upload date
   * falling back to the current time `now`, `burn_count || 0` and `tags || []`.
   * A stored count of 0 is 0 either way, so `|| 0` only matters for null.
   */
  function Normalize(row: FirmwareRow, now: Date): (fw: Firmware)
    ensures fw.burnCount == (if row.burnCountRaw.Some? && row.burnCountRaw.value != 0 then row.burnCountRaw.value else 0)
    ensures fw.tags == (if row.tagsRaw.Some? then row.tagsRaw.value else [])
    ensures fw.dateUploaded == (if row.dateUploadedRaw.Some? then row.dateUploadedRaw.value else now)
    ensures RowOf(fw) == row.(tagsRaw := Some(fw.tags))
  {
    Firmware(row.id, row.name, row.version, row.description, row.size,
      row.dateUploadedRaw,
      match row.dateUploadedRaw case Some(d) => d case None => now,
      row.burnCountRaw,
      match row.burnCountRaw case Some(n) => n case None => 0,
      row.fileUrl,
      match row.tagsRaw case Some(t) => t case None => [],
      row.status)
  }

  /** Normalising the row of a record with a stored upload date gives the record back. */
  lemma NormalizeRowOf(fw: Firmware, now: Date)
    requires fw.dateUploadedRaw == Some(fw.dateUploaded)
    requires fw.burnCount == (if fw.burnCountRaw.Some? then fw.burnCountRaw.value else 0)
    ensures Normalize(RowOf(fw), now) == fw
  {
  }

  /** What the store answers to the catalogue query. */
  datatype QueryResult = QueryError(message: string) | QueryRows(rows: seq<FirmwareRow>)

  /** The outcome of the query function: it throws the store's error or returns the records. */
  datatype Loaded = Thrown(message: string) | Records(items: seq<Firmware>)

  /** The catalogue query's `queryFn` once the store has answered. */
  function LoadFirmware(answer: QueryResult, now: Date): (r: Loaded)
    ensures answer.QueryError? <==> r.Thrown?
    ensures answer.QueryError? ==> r.message == answer.message
    ensures answer.QueryRows? ==> r.Records? && |r.items| == |answer.rows|
    ensures answer.QueryRows? ==> forall i :: 0 <= i < |answer.rows| ==> r.items[i] == Normalize(answer.rows[i], now)
  {
    match answer
    case QueryError(m) => Thrown(m)
    case QueryRows(rows) => Records(seq(|rows|, i requires 0 <= i < |rows| => Normalize(rows[i], now)))
  }

  /** Loading keeps each row's identity and position. */
  lemma LoadKeepsOrder(rows: seq<FirmwareRow>, now: Date, i: int)
    requires 0 <= i < |rows|
    ensures LoadFirmware(QueryRows(rows), now).items[i].id == rows[i].id
    ensures RowOf(LoadFirmware(QueryRows(rows), now).items[i]).(tagsRaw := rows[i].tagsRaw) == rows[i]
  {
  }

  /** What the catalogue query asks of the store. */
  datatype CatalogQuery = CatalogQuery(table: string, orderColumn: string, ascending: bool)

  /** `from("firmware").select("*").order("date_uploaded", { ascending: false })`: every row, newest upload first. */
  function FirmwareQuery(): (q: CatalogQuery)
    ensures q.table == "firmware" && q.orderColumn == "date_uploaded" && !q.ascending
  {
    CatalogQuery("firmware", "date_uploaded", false)
  }

  /**
   * `a` may come before `b` under a descending order on `date_uploaded`: a row without
   * a date comes first (PostgreSQL puts nulls first in a descending order), then later
   * uploads before earlier ones.
   */
  predicate UploadedNoEarlier(a: FirmwareRow, b: FirmwareRow) {
    a.dateUploadedRaw.None?
    || (b.dateUploadedRaw.Some? && GetTime(a.dateUploadedRaw.value) >= GetTime(b.dateUploadedRaw.value))
  }

  /** The rows are in the order `FirmwareQuery` asks for. */
  predicate InQueryOrder(rows: seq<FirmwareRow>) {
    forall i, j :: 0 <= i < j < |rows| ==> UploadedNoEarlier(rows[i], rows[j])
  }

  /**
   * When the store answers in the order the query asks for and no stored upload date
   * lies after `now`, the loaded records are newest first by their filled-in date.
   */
  lemma LoadedNewestFirst(rows: seq<FirmwareRow>, now: Date)
    requires InQueryOrder(rows)
    requires forall i :: 0 <= i < |rows| && rows[i].dateUploadedRaw.Some? ==>
      GetTime(rows[i].dateUploadedRaw.value) <= GetTime(now)
    ensures var items := LoadFirmware(QueryRows(rows), now).items;
      forall i, j :: 0 <= i < j < |items| ==> GetTime(items[i].dateUploaded) >= GetTime(items[j].dateUploaded)
  {
    var items := LoadFirmware(QueryRows(rows), now).items;
    forall i, j | 0 <= i < j < |items|
      ensures GetTime(items[i].dateUploaded) >= GetTime(items[j].dateUploaded)
    {
      assert UploadedNoEarlier(rows[i], rows[j]);
    }
  }

  // Field accessors passed to the generic grouping and summing functions.

  function BurnsOf(fw: Firmware): int { fw.burnCount }
  function NameOf(fw: Firmware): string { fw.name }
  function StatusOf(fw: Firmware): Status { fw.status }

  /** The "Total Device Burns" figure: `reduce((sum, fw) => sum + fw.burnCount, 0)`. */
  function TotalBurns(data: seq<Firmware>): int {
    Sum(data, BurnsOf)
  }
}
