/**
 * The rows of the customer export: a fixed header, then one row per customer
 * in the order the query returned them, each joined with the customer's
 * engagement document (an empty object when there is none).
 */
module Export {
  import opened Store
  import opened Csv

  const Header: seq<string> := [
    "Name",
    "Email",
    "Date Added",
    "Google Review",
    "Instagram Follow",
    "Discount Redeemed",
    "Discount Redeemed Date"
  ]

  const NotAvailable := "N/A"

  function YesNo(b: Option<bool>): string {
    if Truthy(b) then "Yes" else "No"
  }

  /** `value || 'N/A'`: a missing or empty string reads `N/A`. */
  function OrNotAvailable(s: Option<string>): string {
    if Present(s) then s.value else NotAvailable
  }

  /** A date cell: the formatted date, or `N/A` when there is no timestamp. */
  function DateOrNotAvailable(t: Option<Timestamp>, fmt: Timestamp -> string): string {
    if t.Some? then fmt(t.value) else NotAvailable
  }

  /** One customer's row; `engagement` is `None` when the customer has no engagement document. */
  function DataRow(c: Customer, engagement: Option<Engagement>, fmt: Timestamp -> string): (row: seq<string>)
    ensures |row| == |Header|
    ensures engagement.None? ==> row[3..] == ["No", "No", "No", NotAvailable]
    ensures Present(c.name) ==> row[0] == c.name.value
    ensures Present(c.email) ==> row[1] == c.email.value
    ensures row[0] == NotAvailable <==> !Present(c.name) || c.name.value == NotAvailable
    ensures row[1] == NotAvailable <==> !Present(c.email) || c.email.value == NotAvailable
    ensures row[2] == DateOrNotAvailable(c.timestamp, fmt)
    ensures forall k :: 3 <= k < 6 ==> row[k] == "Yes" || row[k] == "No"
    ensures row[3] == "Yes" <==> engagement.Some? && Truthy(engagement.value.googleReviewed)
    ensures row[4] == "Yes" <==> engagement.Some? && Truthy(engagement.value.instagramFollowed)
    ensures row[5] == "Yes" <==> engagement.Some? && Truthy(engagement.value.discountRedeemed)
    ensures row[6] == DateOrNotAvailable(DataOrEmpty(engagement).discountRedeemedAt, fmt)
  {
    var e := DataOrEmpty(engagement);
    [ OrNotAvailable(c.name),
      OrNotAvailable(c.email),
      DateOrNotAvailable(c.timestamp, fmt),
      YesNo(e.googleReviewed),
      YesNo(e.instagramFollowed),
      YesNo(e.discountRedeemed),
      DateOrNotAvailable(e.discountRedeemedAt, fmt) ]
  }

  /** The header followed by one row per customer, in query order. */
  function CsvRows(docs: seq<Customer>, engagement: map<Id, Engagement>, fmt: Timestamp -> string): (rows: seq<seq<string>>)
    ensures |rows| == |docs| + 1 && rows[0] == Header
    ensures forall r :: 0 <= r < |rows| ==> |rows[r]| == |Header|
    ensures forall k :: 0 <= k < |docs| ==> rows[k + 1] == DataRow(docs[k], Lookup(engagement, docs[k].id), fmt)
  {
    [Header] + seq(|docs|, k requires 0 <= k < |docs| => DataRow(docs[k], Lookup(engagement, docs[k].id), fmt))
  }

  /** The rows of an export: a failed engagement read anywhere fails the whole export. */
  function ExportRows(docs: seq<Customer>, engagement: map<Id, Engagement>, unreadable: set<Id>,
                      fmt: Timestamp -> string): Attempt<seq<seq<string>>>
  {
    if Readable(docs, unreadable) then Ok(CsvRows(docs, engagement, fmt)) else Threw
  }

  /** The export loop: reads each customer's engagement document in turn and appends its row. */
  method BuildRows(docs: seq<Customer>, engagement: map<Id, Engagement>, unreadable: set<Id>,
                   fmt: Timestamp -> string) returns (r: Attempt<seq<seq<string>>>)
    ensures r == ExportRows(docs, engagement, unreadable, fmt)
  {
    var rows := [Header];
    for i := 0 to |docs|
      invariant rows == CsvRows(docs[..i], engagement, fmt)
      invariant Readable(docs[..i], unreadable)
    {
      var c := docs[i];
      if c.id in unreadable {
        return Threw;
      }
      var e := if c.id in engagement then Some(engagement[c.id]) else None;
      rows := rows + [DataRow(c, e, fmt)];
      assert docs[..i + 1] == docs[..i] + [c];
    }
    assert docs[..|docs|] == docs;
    return Ok(rows);
  }

  /** What an export produces: the CSV text, nothing to export, or a failure. */
  datatype ExportOutcome = Exported(csv: string) | NothingToExport | ExportFailed

  /** The whole export from the query's answer (or its failure). */
  function ExportResult(snapshot: Attempt<seq<Customer>>, engagement: map<Id, Engagement>,
                        unreadable: set<Id>, fmt: Timestamp -> string): ExportOutcome
  {
    match snapshot
    case Threw => ExportFailed
    case Ok(docs) =>
      if docs == [] then NothingToExport
      else match ExportRows(docs, engagement, unreadable, fmt)
        case Threw => ExportFailed
        case Ok(rows) => Exported(Serialize(rows))
  }

  /**
   * The body of an export handler's `try` block, given the query's answer:
   * stops on an empty answer, builds the rows and serialises them; any
   * failed read fails the export.
   */
  method ExportFile(snapshot: Attempt<seq<Customer>>, engagement: map<Id, Engagement>, unreadable: set<Id>,
                    fmt: Timestamp -> string) returns (outcome: ExportOutcome)
    ensures outcome == ExportResult(snapshot, engagement, unreadable, fmt)
  {
    match snapshot {
      case Threw =>
        return ExportFailed;
      case Ok(docs) =>
        if docs == [] {
          return NothingToExport;
        }
        var r := BuildRows(docs, engagement, unreadable, fmt);
        match r {
          case Threw =>
            return ExportFailed;
          case Ok(rows) =>
            return Exported(Serialize(rows));
        }
    }
  }

  /** No cell drawn from this customer's document holds a line feed. */
  predicate LineFree(c: Customer) {
    (c.name.Some? ==> '\n' !in c.name.value) && (c.email.Some? ==> '\n' !in c.email.value)
  }

  lemma HeaderLineFree()
    ensures forall k :: 0 <= k < |Header| ==> '\n' !in Header[k]
  {
    forall k | 0 <= k < |Header| ensures '\n' !in Header[k] {
      assert k < 7;
    }
  }

  /** A row holds a line feed only if the customer's name or email, or a formatted date, does. */
  lemma DataRowLineFree(c: Customer, engagement: Option<Engagement>, fmt: Timestamp -> string)
    requires LineFree(c)
    requires forall t :: '\n' !in fmt(t)
    ensures forall k :: 0 <= k < |DataRow(c, engagement, fmt)| ==> '\n' !in DataRow(c, engagement, fmt)[k]
  {
    var e := DataOrEmpty(engagement);
    assert '\n' !in "Yes" && '\n' !in "No" && '\n' !in NotAvailable;
    if c.timestamp.Some? {
      var t := c.timestamp.value;
      assert '\n' !in fmt(t);
    }
    if e.discountRedeemedAt.Some? {
      var t := e.discountRedeemedAt.value;
      assert '\n' !in fmt(t);
    }
  }

  /** An export succeeds exactly when the query succeeded, returned someone, and every engagement read succeeded. */
  lemma ExportSucceedsIff(snapshot: Attempt<seq<Customer>>, engagement: map<Id, Engagement>, unreadable: set<Id>,
                          fmt: Timestamp -> string)
    ensures ExportResult(snapshot, engagement, unreadable, fmt).Exported? <==>
              snapshot.Ok? && snapshot.value != [] && Readable(snapshot.value, unreadable)
    ensures ExportResult(snapshot, engagement, unreadable, fmt).NothingToExport? <==> snapshot == Ok([])
  {
  }

  /**
   * An export succeeds exactly when the query succeeded, returned someone, and
   * every engagement read succeeded. Its CSV then reads back as the header and
   * one 7-cell row per customer in query order, provided no name, email or
   * formatted date holds a line feed.
   */
  lemma ExportReadsBack(docs: seq<Customer>, engagement: map<Id, Engagement>, unreadable: set<Id>,
                        fmt: Timestamp -> string)
    requires forall k :: 0 <= k < |docs| ==> LineFree(docs[k])
    requires forall t :: '\n' !in fmt(t)
    ensures ExportResult(Ok(docs), engagement, unreadable, fmt).Exported? <==> docs != [] && Readable(docs, unreadable)
    ensures ExportResult(Ok(docs), engagement, unreadable, fmt).Exported? ==>
              Parse(ExportResult(Ok(docs), engagement, unreadable, fmt).csv) == CsvRows(docs, engagement, fmt)
  {
    var rows := CsvRows(docs, engagement, fmt);
    forall r, k | 0 <= r < |rows| && 0 <= k < |rows[r]| ensures '\n' !in rows[r][k] {
      if r == 0 {
        HeaderLineFree();
      } else {
        DataRowLineFree(docs[r - 1], Lookup(engagement, docs[r - 1].id), fmt);
      }
    }
    if docs != [] && Readable(docs, unreadable) {
      DocumentRoundTrip(rows);
    }
  }
}
