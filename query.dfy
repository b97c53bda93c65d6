/**
 * The queries the admin dashboard sends to the `customers` collection, what
 * it means for a list of documents to answer one, and the export's date
 * range.
 *
 * Time zones: a timestamp is an instant in ms since the Unix epoch (UTC); the
 * browser's local time is UTC + `offset` ms. A date input yields a calendar
 * day, counted here in days since 1970-01-01.
 */
module Query {
  import opened Store

  const MsPerDay := 86400000
  const MsPerHour := 3600000

  /** `limit(100)`: the number of candidates a search scans. */
  const ScanCap := 100

  /** A calendar day, in days since 1970-01-01. */
  type Day = int

  /** The local calendar day of an instant. */
  function LocalDay(t: Timestamp, offset: int): Day {
    (t + offset) / MsPerDay
  }

  /** Local 00:00:00.000 of a day. */
  function StartOfLocalDay(d: Day, offset: int): Timestamp {
    d * MsPerDay - offset
  }

  /** Local 23:59:59.999 of a day. */
  function EndOfLocalDay(d: Day, offset: int): Timestamp {
    StartOfLocalDay(d + 1, offset) - 1
  }

  /** The bounds are inclusive: an instant lies between them iff its local day does. */
  lemma InclusiveWindow(t: Timestamp, s: Day, e: Day, offset: int)
    ensures StartOfLocalDay(s, offset) <= t <==> s <= LocalDay(t, offset)
    ensures t <= EndOfLocalDay(e, offset) <==> LocalDay(t, offset) <= e
  {
  }

  /** Every instant lies between the start and the end of its own local day. */
  lemma LocalDayBounds(t: Timestamp, offset: int)
    ensures StartOfLocalDay(LocalDay(t, offset), offset) <= t <= EndOfLocalDay(LocalDay(t, offset), offset)
  {
  }

  // ---------------------------------------------------------------------
  // The date bounds as the dashboard computes them. `new Date("YYYY-MM-DD")`
  // parses a date-only string as midnight UTC; `setHours` then moves to the
  // start or end of the LOCAL day that instant falls in.

  function ParsedDateInput(d: Day): Timestamp {
    d * MsPerDay
  }

  /** `startDateObj.setHours(0, 0, 0, 0)`. */
  function AsWrittenStartBound(d: Day, offset: int): Timestamp {
    StartOfLocalDay(LocalDay(ParsedDateInput(d), offset), offset)
  }

  /** `endDateObj.setHours(23, 59, 59, 999)`. */
  function AsWrittenEndBound(d: Day, offset: int): Timestamp {
    EndOfLocalDay(LocalDay(ParsedDateInput(d), offset), offset)
  }

  /** At UTC or east of it the computed bounds are those of the chosen days. */
  lemma AsWrittenAgreesEastOfUtc(d: Day, offset: int)
    requires 0 <= offset < MsPerDay
    ensures AsWrittenStartBound(d, offset) == StartOfLocalDay(d, offset)
    ensures AsWrittenEndBound(d, offset) == EndOfLocalDay(d, offset)
  {
    assert (d * MsPerDay + offset) / MsPerDay == d;
  }

  /** West of UTC both computed bounds belong to the day before the chosen one. */
  lemma AsWrittenIsOneDayEarlyWestOfUtc(d: Day, offset: int)
    requires -MsPerDay < offset < 0
    ensures AsWrittenStartBound(d, offset) == StartOfLocalDay(d - 1, offset)
    ensures AsWrittenEndBound(d, offset) == EndOfLocalDay(d - 1, offset)
  {
    assert (d * MsPerDay + offset) / MsPerDay == d - 1;
  }

  /**
   * At UTC-5, a customer added at local noon on 2024-01-31 (day 19753) falls
   * outside a range that ends on 2024-01-31.
   */
  lemma AsWrittenDropsLastDay()
    ensures var offset, d := -5 * MsPerHour, 19753;
            var t := StartOfLocalDay(d, offset) + 12 * MsPerHour;
            LocalDay(t, offset) == d && t > AsWrittenEndBound(d, offset)
  {
    AsWrittenIsOneDayEarlyWestOfUtc(19753, -5 * MsPerHour);
  }

  /** The lower bound of the range: local midnight at the start of the chosen day. */
  function StartBound(d: Option<Day>, offset: int): Option<Timestamp> {
    if d.Some? then Some(StartOfLocalDay(d.value, offset)) else None
  }

  /** The upper bound of the range: the last millisecond of the chosen day. */
  function EndBound(d: Option<Day>, offset: int): Option<Timestamp> {
    if d.Some? then Some(EndOfLocalDay(d.value, offset)) else None
  }

  // ---------------------------------------------------------------------
  // Queries and their answers.

  datatype OrderField = NameField | EmailField | TimestampField
  datatype Direction = Ascending | Descending
  datatype SearchType = ByName | ByEmail

  datatype CustomerQuery = CustomerQuery(
    order: OrderField,
    direction: Direction,
    from: Option<Timestamp>,
    until: Option<Timestamp>,
    limit: Option<nat>)

  /** The search query: ordered by the searched field, at most `ScanCap` documents. */
  function SearchQuery(t: SearchType): CustomerQuery {
    CustomerQuery(if t == ByName then NameField else EmailField, Ascending, None, None, Some(ScanCap))
  }

  /**
   * The filtered export as the dashboard sends it: newest first, `where`
   * clauses only for the dates that are set, with the bounds as computed.
   */
  function AsWrittenExportQuery(start: Option<Day>, end: Option<Day>, offset: int): CustomerQuery {
    CustomerQuery(TimestampField, Descending,
                  if start.Some? then Some(AsWrittenStartBound(start.value, offset)) else None,
                  if end.Some? then Some(AsWrittenEndBound(end.value, offset)) else None,
                  None)
  }

  /** The filtered export with the bounds of the chosen local days. */
  function ExportQuery(start: Option<Day>, end: Option<Day>, offset: int): CustomerQuery {
    CustomerQuery(TimestampField, Descending, StartBound(start, offset), EndBound(end, offset), None)
  }

  /** The unfiltered export. */
  function DirectExportQuery(): CustomerQuery {
    CustomerQuery(TimestampField, Descending, None, None, None)
  }

  /** With neither date set, the filtered export sends the unfiltered export's query. */
  lemma ExportWithoutDatesIsDirect(offset: int)
    ensures AsWrittenExportQuery(None, None, offset) == DirectExportQuery()
    ensures ExportQuery(None, None, offset) == DirectExportQuery()
  {
  }

  /** At UTC or east of it, the query the dashboard sends is the one with the chosen days' bounds. */
  lemma AsWrittenExportQueryEastOfUtc(start: Option<Day>, end: Option<Day>, offset: int)
    requires 0 <= offset < MsPerDay
    ensures AsWrittenExportQuery(start, end, offset) == ExportQuery(start, end, offset)
  {
    if start.Some? {
      AsWrittenAgreesEastOfUtc(start.value, offset);
    }
    if end.Some? {
      AsWrittenAgreesEastOfUtc(end.value, offset);
    }
  }

  /** Lexicographic order on strings, character by character (code points). */
  predicate StringLe(a: string, b: string) {
    a == [] || (b != [] && (a[0] < b[0] || (a[0] == b[0] && StringLe(a[1..], b[1..]))))
  }

  /** Missing (null) values sort before every present value. */
  predicate OptStringLe(a: Option<string>, b: Option<string>) {
    a.None? || (b.Some? && StringLe(a.value, b.value))
  }

  predicate OptTimeLe(a: Option<Timestamp>, b: Option<Timestamp>) {
    a.None? || (b.Some? && a.value <= b.value)
  }

  predicate KeyLe(f: OrderField, a: Customer, b: Customer) {
    match f
    case NameField => OptStringLe(a.name, b.name)
    case EmailField => OptStringLe(a.email, b.email)
    case TimestampField => OptTimeLe(a.timestamp, b.timestamp)
  }

  /** `a` may come before `b` in the query's order. */
  predicate InOrder(q: CustomerQuery, a: Customer, b: Customer) {
    if q.direction == Ascending then KeyLe(q.order, a, b) else KeyLe(q.order, b, a)
  }

  /** The document has the field the query orders by; `orderBy` leaves out documents without it. */
  predicate HasKey(f: OrderField, c: Customer) {
    match f
    case NameField => c.name.Some?
    case EmailField => c.email.Some?
    case TimestampField => c.timestamp.Some?
  }

  /** The document passes the query's `where` clauses. */
  predicate InWindow(q: CustomerQuery, c: Customer) {
    && (q.from.Some? ==> c.timestamp.Some? && q.from.value <= c.timestamp.value)
    && (q.until.Some? ==> c.timestamp.Some? && c.timestamp.value <= q.until.value)
  }

  /** The document under `id` is listed. */
  predicate Listed(docs: seq<Customer>, id: Id) {
    exists k :: 0 <= k < |docs| && docs[k].id == id
  }

  /**
   * `docs` is a possible answer of the store to `q`: distinct stored documents
   * that pass the filter, in the query's order, within the limit, and the
   * first ones in that order: every passing document that has the order
   * field and is left out sorts at or after the last one listed, and none is
   * left out when the limit was not hit.
   */
  ghost predicate Answers(q: CustomerQuery, store: map<Id, Customer>, docs: seq<Customer>) {
    && (forall i, j :: 0 <= i < j < |docs| ==> docs[i].id != docs[j].id)
    && (forall k :: 0 <= k < |docs| ==> docs[k].id in store && store[docs[k].id] == docs[k])
    && (forall k :: 0 <= k < |docs| ==> InWindow(q, docs[k]))
    && (forall k :: 0 < k < |docs| ==> InOrder(q, docs[k - 1], docs[k]))
    && (q.limit.Some? ==> |docs| <= q.limit.value)
    && (forall id :: id in store && InWindow(q, store[id]) && HasKey(q.order, store[id]) && !Listed(docs, id) ==>
          q.limit.Some? && |docs| == q.limit.value && |docs| > 0 && InOrder(q, docs[|docs| - 1], store[id]))
  }

  /**
   * A search never sees more than `ScanCap` candidates, and an answer that is
   * shorter holds every customer that has the searched field.
   */
  lemma SearchScanCap(t: SearchType, store: map<Id, Customer>, docs: seq<Customer>)
    requires Answers(SearchQuery(t), store, docs)
    ensures |docs| <= ScanCap
    ensures |docs| < ScanCap ==> forall id :: id in store && HasKey(SearchQuery(t).order, store[id]) ==> Listed(docs, id)
  {
  }

  /** A list of distinct ids, drawn from two ids that are both listed, has exactly two entries. */
  lemma TwoListed(docs: seq<Customer>, a: Id, b: Id)
    requires a != b && Listed(docs, a) && Listed(docs, b)
    requires forall i, j :: 0 <= i < j < |docs| ==> docs[i].id != docs[j].id
    requires forall k :: 0 <= k < |docs| ==> docs[k].id == a || docs[k].id == b
    ensures |docs| == 2
  {
    var i :| 0 <= i < |docs| && docs[i].id == a;
    var j :| 0 <= j < |docs| && docs[j].id == b;
    assert i != j;
    // The last two positions and the first each hold `a` or `b`, so each is `i` or `j`.
    var last := |docs| - 1;
    assert docs[last].id == a || docs[last].id == b;
    assert last == i || last == j;
    assert docs[last - 1].id == a || docs[last - 1].id == b;
    assert last - 1 == i || last - 1 == j;
    assert docs[0].id == a || docs[0].id == b;
    assert 0 == i || 0 == j;
  }

  const JanuaryFirst := Customer("c1", None, None, Some(19723 * MsPerDay + 12 * MsPerHour))
  const JanuaryFifteenth := Customer("c2", None, None, Some(19737 * MsPerDay + 12 * MsPerHour))
  const FebruaryFirst := Customer("c3", None, None, Some(19754 * MsPerDay + 12 * MsPerHour))

  /**
   * Three customers added at noon UTC on 2024-01-01, 2024-01-15 and
   * 2024-02-01; at UTC, the range 2024-01-01 to 2024-01-31 answers exactly
   * the first two, newest first.
   */
  lemma JanuaryExportExample(docs: seq<Customer>)
    requires Answers(ExportQuery(Some(19723), Some(19753), 0),
                     map["c1" := JanuaryFirst, "c2" := JanuaryFifteenth, "c3" := FebruaryFirst], docs)
    ensures docs == [JanuaryFifteenth, JanuaryFirst]
  {
    var store := map["c1" := JanuaryFirst, "c2" := JanuaryFifteenth, "c3" := FebruaryFirst];
    var q := ExportQuery(Some(19723), Some(19753), 0);
    assert InWindow(q, JanuaryFirst) && InWindow(q, JanuaryFifteenth) && !InWindow(q, FebruaryFirst);
    assert Listed(docs, "c1") && Listed(docs, "c2");
    forall k | 0 <= k < |docs| ensures docs[k] == JanuaryFirst || docs[k] == JanuaryFifteenth {
      assert docs[k].id in store && store[docs[k].id] == docs[k];
    }
    TwoListed(docs, "c1", "c2");
    assert InOrder(q, docs[0], docs[1]);
  }
}
