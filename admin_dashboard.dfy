/**
 * The admin dashboard: customer search, discount redemption from the result
 * table, and the two CSV exports (filtered by date range, and of everyone).
 *
 * Each handler receives what its store calls return: the query's answer (or
 * `Threw`), the ids whose engagement read throws, and whether a write gets
 * through. Date formatting is the parameter `fmt`.
 */
module AdminDashboard {
  import opened Store
  import opened Query
  import opened Csv
  import opened Export
  import opened Search
  import Discount

  const NoCustomersInDatabase := "No customers found in the database."
  const NoSearchMatches := "No customers found matching your search criteria."
  const SearchError := "An error occurred while searching. Please try again."
  const RedeemSuccess := "Discount redeemed successfully!"
  const RedeemError := "Failed to redeem discount. Please try again."
  const NoCustomersInRange := "No customers found matching the date criteria."
  const ExportSuccess := "CSV file downloaded successfully!"
  const ExportError := "Failed to export CSV. Please try again."

  /** The error line a search leaves: none when it found someone. */
  function SearchErrorLine(outcome: SearchOutcome): string {
    match outcome
    case Found(_) => ""
    case NoCustomers => NoCustomersInDatabase
    case NoMatches => NoSearchMatches
    case SearchFailed => SearchError
  }

  /** The error line an export leaves, given the message for an empty answer. */
  function ExportErrorLine(outcome: ExportOutcome, emptyMessage: string): string {
    match outcome
    case Exported(_) => ""
    case NothingToExport => emptyMessage
    case ExportFailed => ExportError
  }

  /** A customer offered the redeem button has earned at least 10%. */
  lemma RedeemableHasEarned(e: Entry)
    requires CanRedeem(e)
    ensures Discount.TotalDiscount(Truthy(e.engagement.googleReviewed), Truthy(e.engagement.instagramFollowed)) >= 10
  {
  }

  /** The dashboard's state, over the shared document store. */
  class Dashboard {
    const store: EngagementStore
    var customers: seq<Entry>
    var isLoading: bool
    var error: string
    var successMessage: string
    var redeemingDiscount: bool
    var isExporting: bool
    var startDate: Option<Day>
    var endDate: Option<Day>
    /** The CSV files handed to the browser, in order. */
    var downloads: seq<string>

    constructor (store: EngagementStore)
      ensures this.store == store && customers == [] && downloads == []
      ensures !isLoading && !redeemingDiscount && !isExporting
      ensures error == "" && successMessage == ""
      ensures startDate == None && endDate == None
    {
      this.store := store;
      customers := [];
      isLoading := false;
      error := "";
      successMessage := "";
      redeemingDiscount := false;
      isExporting := false;
      startDate := None;
      endDate := None;
      downloads := [];
    }

    /** The date inputs; an empty input is `None`. */
    method SetDates(start: Option<Day>, end: Option<Day>)
      modifies this
      ensures startDate == start && endDate == end
      ensures customers == old(customers) && error == old(error) && successMessage == old(successMessage)
      ensures isLoading == old(isLoading) && redeemingDiscount == old(redeemingDiscount) && isExporting == old(isExporting)
      ensures downloads == old(downloads)
    {
      startDate := start;
      endDate := end;
    }

    /** The redeem button for an entry: shown when `CanRedeem`, disabled while a redemption runs. */
    predicate RedeemEnabled(e: Entry)
      reads this
    {
      CanRedeem(e) && !redeemingDiscount
    }

    /**
     * The search: clears the messages and the table, sends the search query
     * (`snapshot` is its answer, or `Threw`), and shows the matches or the
     * message for the outcome.
     */
    method Search(t: SearchType, term: string, snapshot: Attempt<seq<Customer>>, unreadable: set<Id>)
      requires snapshot.Ok? ==> Answers(SearchQuery(t), store.customers, snapshot.value)
      modifies this
      ensures var outcome := SearchResult(snapshot, t, term, store.engagement, unreadable);
              && customers == (if outcome.Found? then outcome.entries else [])
              && error == SearchErrorLine(outcome)
      ensures successMessage == "" && !isLoading
      ensures redeemingDiscount == old(redeemingDiscount) && isExporting == old(isExporting)
      ensures startDate == old(startDate) && endDate == old(endDate) && downloads == old(downloads)
    {
      error := "";
      successMessage := "";
      customers := [];
      isLoading := true;
      match snapshot {
      case Threw =>
        error := SearchError;
      case Ok(docs) =>
        if docs == [] {
          error := NoCustomersInDatabase;
        } else {
          var r := CollectMatches(docs, t, term, store.engagement, unreadable);
          match r
          case Threw =>
            error := SearchError;
          case Ok(found) =>
            if found == [] {
              error := NoSearchMatches;
            } else {
              customers := found;
            }
        }
      }
      isLoading := false;
    }

    /**
     * The redemption: updates the customer's engagement document with the
     * server's time (`online` false: the update throws; it also throws when the
     * document does not exist); on success marks the entries of that customer
     * redeemed at the browser's time and says so; otherwise reports the error.
     */
    method RedeemDiscount(id: Id, online: bool, serverTime: Timestamp, clientTime: Timestamp) returns (ok: bool)
      modifies this, store
      ensures ok == (online && id in old(store.engagement))
      ensures store.engagement ==
                if ok then old(store.engagement)[id := Apply(old(store.engagement)[id], Redemption, serverTime)]
                else old(store.engagement)
      ensures store.customers == old(store.customers)
      ensures customers == if ok then RedeemLocal(old(customers), id, clientTime) else old(customers)
      ensures successMessage == (if ok then RedeemSuccess else old(successMessage))
      ensures error == (if ok then old(error) else RedeemError)
      ensures !redeemingDiscount && isLoading == old(isLoading) && isExporting == old(isExporting)
      ensures startDate == old(startDate) && endDate == old(endDate) && downloads == old(downloads)
      ensures forall e :: RedeemEnabled(e) <==> CanRedeem(e)
    {
      redeemingDiscount := true;
      ok := store.Update(id, Redemption, serverTime, online);
      if ok {
        customers := RedeemLocal(customers, id, clientTime);
        successMessage := RedeemSuccess;
      } else {
        error := RedeemError;
      }
      redeemingDiscount := false;
    }

    /**
     * What an export handler does with the export's outcome: hands the file
     * to the browser and says so, or shows the message for an empty answer
     * or a failure.
     */
    method ShowExport(outcome: ExportOutcome, emptyMessage: string)
      modifies this
      ensures downloads == old(downloads) + (if outcome.Exported? then [outcome.csv] else [])
      ensures error == (if outcome.Exported? then old(error) else ExportErrorLine(outcome, emptyMessage))
      ensures successMessage == (if outcome.Exported? then ExportSuccess else old(successMessage))
      ensures isExporting == old(isExporting) && customers == old(customers) && isLoading == old(isLoading)
      ensures redeemingDiscount == old(redeemingDiscount) && startDate == old(startDate) && endDate == old(endDate)
    {
      match outcome {
        case Exported(csv) =>
          downloads := downloads + [csv];
          successMessage := ExportSuccess;
        case NothingToExport =>
          error := emptyMessage;
        case ExportFailed =>
          error := ExportError;
      }
    }

    /**
     * The export both buttons share, given the query's answer (`snapshot`):
     * builds the rows, serialises them and hands the file over; an empty
     * answer leaves `emptyMessage`.
     */
    method RunExport(snapshot: Attempt<seq<Customer>>, unreadable: set<Id>,
                     fmt: Timestamp -> string, emptyMessage: string)
      modifies this
      ensures var outcome := ExportResult(snapshot, store.engagement, unreadable, fmt);
              && downloads == old(downloads) + (if outcome.Exported? then [outcome.csv] else [])
              && error == ExportErrorLine(outcome, emptyMessage)
              && successMessage == (if outcome.Exported? then ExportSuccess else old(successMessage))
      ensures !isExporting
      ensures customers == old(customers) && isLoading == old(isLoading) && redeemingDiscount == old(redeemingDiscount)
      ensures startDate == old(startDate) && endDate == old(endDate)
    {
      isExporting := true;
      error := "";
      var outcome := ExportFile(snapshot, store.engagement, unreadable, fmt);
      ShowExport(outcome, emptyMessage);
      isExporting := false;
    }

    /**
     * "Export as CSV": the customers within the date range as the dashboard
     * computes it (`AsWrittenExportQuery`), newest first.
     */
    method ExportCsv(snapshot: Attempt<seq<Customer>>, unreadable: set<Id>, fmt: Timestamp -> string, offset: int)
      requires snapshot.Ok? ==> Answers(AsWrittenExportQuery(startDate, endDate, offset), store.customers, snapshot.value)
      modifies this
      ensures var outcome := ExportResult(snapshot, store.engagement, unreadable, fmt);
              && downloads == old(downloads) + (if outcome.Exported? then [outcome.csv] else [])
              && error == ExportErrorLine(outcome, NoCustomersInRange)
              && successMessage == (if outcome.Exported? then ExportSuccess else old(successMessage))
      ensures !isExporting && customers == old(customers)
      ensures isLoading == old(isLoading) && redeemingDiscount == old(redeemingDiscount)
      ensures startDate == old(startDate) && endDate == old(endDate)
    {
      RunExport(snapshot, unreadable, fmt, NoCustomersInRange);
    }

    /** "Export All": every customer, newest first. */
    method DirectExportCsv(snapshot: Attempt<seq<Customer>>, unreadable: set<Id>, fmt: Timestamp -> string)
      requires snapshot.Ok? ==> Answers(DirectExportQuery(), store.customers, snapshot.value)
      modifies this
      ensures var outcome := ExportResult(snapshot, store.engagement, unreadable, fmt);
              && downloads == old(downloads) + (if outcome.Exported? then [outcome.csv] else [])
              && error == ExportErrorLine(outcome, NoCustomersInDatabase)
              && successMessage == (if outcome.Exported? then ExportSuccess else old(successMessage))
      ensures !isExporting && customers == old(customers)
      ensures isLoading == old(isLoading) && redeemingDiscount == old(redeemingDiscount)
      ensures startDate == old(startDate) && endDate == old(endDate)
    {
      RunExport(snapshot, unreadable, fmt, NoCustomersInDatabase);
    }
  }
}
