/**
 * The table model applied to the mock rows and filter declarations that the
 * user-management and booking-management pages pass to it.
 */
module DataTableExamples {
  import opened Text
  import opened DataTable
  import opened DataTableView

  const SarahJohnson: Row := map["name" := "Sarah Johnson", "role" := "mother"]
  const EmilyBrown: Row := map["name" := "Emily Brown", "role" := "nanny"]
  const MariaGarcia: Row := map["name" := "Maria Garcia", "role" := "mother"]
  const JenniferSmith: Row := map["name" := "Jennifer Smith", "role" := "nanny"]

  const RoleFilter := Filter("role", "Role", [FilterOption("mother", "Mothers"), FilterOption("nanny", "Nannies")])

  lemma LowerSarahJohnson()
    ensures Lower("Sarah Johnson") == "sarah johnson"
  {
    var first, last := Lower("Sarah"), Lower(" Johnson");
    assert first == "sarah" by {
      assert first[0] == 's' && first[1] == 'a' && first[2] == 'r' && first[3] == 'a' && first[4] == 'h';
    }
    assert last == " johnson" by {
      assert last[0] == ' ' && last[1] == 'j' && last[2] == 'o' && last[3] == 'h';
      assert last[4] == 'n' && last[5] == 's' && last[6] == 'o' && last[7] == 'n';
    }
    LowerAppend("Sarah", " Johnson");
    assert "Sarah" + " Johnson" == "Sarah Johnson";
    assert "sarah" + " johnson" == "sarah johnson";
  }

  lemma LowerTerms()
    ensures Lower("sarah") == "sarah" && Lower("JOHN") == "john" && Lower("xyz") == "xyz"
  {
    var sarah, john, xyz := Lower("sarah"), Lower("JOHN"), Lower("xyz");
    assert sarah[0] == 's' && sarah[1] == 'a' && sarah[2] == 'r' && sarah[3] == 'a' && sarah[4] == 'h';
    assert john[0] == 'j' && john[1] == 'o' && john[2] == 'h' && john[3] == 'n';
    assert xyz[0] == 'x' && xyz[1] == 'y' && xyz[2] == 'z';
  }

  lemma NameContainsSarah()
    ensures Contains("sarah johnson", "sarah")
  {
    assert OccursAt("sarah johnson", "sarah", 0) by { assert "sarah johnson"[0..5] == "sarah"; }
    ContainsIff("sarah johnson", "sarah");
  }

  lemma NameContainsJohn()
    ensures Contains("sarah johnson", "john")
  {
    assert OccursAt("sarah johnson", "john", 6) by { assert "sarah johnson"[6..10] == "john"; }
    ContainsIff("sarah johnson", "john");
  }

  lemma NameLacksXyz()
    ensures !Contains("sarah johnson", "xyz")
  {
    var hay := "sarah johnson";
    assert forall i :: 0 <= i < |hay| ==> hay[i] != 'x';
    assert forall i :: OccursAt(hay, "xyz", i) ==> hay[i..i + 3][0] == 'x';
    ContainsIff(hay, "xyz");
  }

  /** "sarah" and "JOHN" find Sarah Johnson by name; "xyz" does not. */
  lemma SearchSarahJohnson()
    ensures MatchesSearch(SarahJohnson, Query("name", "sarah", [], AllValue))
    ensures MatchesSearch(SarahJohnson, Query("name", "JOHN", [], AllValue))
    ensures !MatchesSearch(SarahJohnson, Query("name", "xyz", [], AllValue))
  {
    LowerSarahJohnson();
    LowerTerms();
    NameContainsSarah();
    NameContainsJohn();
    NameLacksXyz();
  }

  lemma NannyFilter()
    ensures FilteredData([SarahJohnson, EmilyBrown, MariaGarcia, JenniferSmith],
                         Query("", "", [RoleFilter], "nanny")) == [EmilyBrown, JenniferSmith]
  {
    var q := Query("", "", [RoleFilter], "nanny");
    assert !Keeps(SarahJohnson, q) && Keeps(EmilyBrown, q) && !Keeps(MariaGarcia, q) && Keeps(JenniferSmith, q);
    FilteredSnoc([], SarahJohnson, q);
    assert [] + [SarahJohnson] == [SarahJohnson];
    FilteredSnoc([SarahJohnson], EmilyBrown, q);
    assert [SarahJohnson] + [EmilyBrown] == [SarahJohnson, EmilyBrown];
    FilteredSnoc([SarahJohnson, EmilyBrown], MariaGarcia, q);
    assert [SarahJohnson, EmilyBrown] + [MariaGarcia] == [SarahJohnson, EmilyBrown, MariaGarcia];
    FilteredSnoc([SarahJohnson, EmilyBrown, MariaGarcia], JenniferSmith, q);
    assert [SarahJohnson, EmilyBrown, MariaGarcia] + [JenniferSmith] == [SarahJohnson, EmilyBrown, MariaGarcia, JenniferSmith];
  }

  /**
   * The booking page's three mock bookings (`mockBookings`) with all their
   * string fields; the number `amount` and the list `services` are not strings.
   */
  const SarahBooking: Row := map["id" := "BK001", "motherName" := "Sarah Johnson", "nannyName" := "Emily Brown",
    "date" := "2024-01-15", "time" := "09:00 AM", "duration" := "4 hours", "status" := "completed",
    "location" := "Downtown, NYC"]
  const MariaBooking: Row := map["id" := "BK002", "motherName" := "Maria Garcia", "nannyName" := "Jennifer Smith",
    "date" := "2024-01-18", "time" := "02:00 PM", "duration" := "6 hours", "status" := "confirmed",
    "location" := "Brooklyn, NYC"]
  const LisaBooking: Row := map["id" := "BK003", "motherName" := "Lisa Chen", "nannyName" := "Amanda Davis",
    "date" := "2024-01-20", "time" := "10:00 AM", "duration" := "8 hours", "status" := "pending",
    "location" := "Queens, NYC"]
  const MockBookings := [SarahBooking, MariaBooking, LisaBooking]

  /** The booking page's one filter: `status`, with its four options. */
  const BookingStatusFilter := Filter("status", "Status",
    [FilterOption("completed", "Completed"), FilterOption("confirmed", "Confirmed"),
     FilterOption("pending", "Pending"), FilterOption("cancelled", "Cancelled")])

  /** The booking table's query: searched by `motherName`, filtered by status. */
  predicate BookingQuery(q: Query, term: string, status: string) {
    q == Query("motherName", term, [BookingStatusFilter], status)
  }

  /** A row as `filter` passes it on: itself when kept, nothing otherwise. */
  function KeptRow(row: Row, q: Query): seq<Row> {
    if Keeps(row, q) then [row] else []
  }

  lemma FilteredOfThree(a: Row, b: Row, c: Row, q: Query)
    ensures FilteredData([a, b, c], q) == KeptRow(a, q) + KeptRow(b, q) + KeptRow(c, q)
  {
    FilteredSnoc([], a, q);
    assert [] + [a] == [a];
    FilteredSnoc([a], b, q);
    assert [a] + [b] == [a, b];
    FilteredSnoc([a, b], c, q);
    assert [a, b] + [c] == [a, b, c];
  }

  /** With an empty search the whole list is shown under `'all'`. */
  lemma AllBookings(q: Query)
    requires BookingQuery(q, "", AllValue)
    ensures FilteredData(MockBookings, q) == MockBookings
  {
    EmptyTermMatchesPresentField(SarahBooking, q);
    EmptyTermMatchesPresentField(MariaBooking, q);
    EmptyTermMatchesPresentField(LisaBooking, q);
    FilteredOfThree(SarahBooking, MariaBooking, LisaBooking, q);
  }

  /** The status filter `pending` keeps only Lisa Chen's booking. */
  lemma PendingBookings(q: Query)
    requires BookingQuery(q, "", "pending")
    ensures FilteredData(MockBookings, q) == [LisaBooking]
  {
    EmptyTermMatchesPresentField(LisaBooking, q);
    FilteredOfThree(SarahBooking, MariaBooking, LisaBooking, q);
  }

  lemma LowerMotherNames()
    ensures Lower("Maria Garcia") == "maria garcia" && Lower("Lisa Chen") == "lisa chen"
  {
    var maria, garcia := Lower("Maria"), Lower(" Garcia");
    assert maria == "maria" by {
      assert maria[0] == 'm' && maria[1] == 'a' && maria[2] == 'r' && maria[3] == 'i' && maria[4] == 'a';
    }
    assert garcia == " garcia" by {
      assert garcia[0] == ' ' && garcia[1] == 'g' && garcia[2] == 'a' && garcia[3] == 'r';
      assert garcia[4] == 'c' && garcia[5] == 'i' && garcia[6] == 'a';
    }
    LowerAppend("Maria", " Garcia");
    assert "Maria" + " Garcia" == "Maria Garcia";
    assert "maria" + " garcia" == "maria garcia";
    var lisa, chen := Lower("Lisa"), Lower(" Chen");
    assert lisa == "lisa" by {
      assert lisa[0] == 'l' && lisa[1] == 'i' && lisa[2] == 's' && lisa[3] == 'a';
    }
    assert chen == " chen" by {
      assert chen[0] == ' ' && chen[1] == 'c' && chen[2] == 'h' && chen[3] == 'e' && chen[4] == 'n';
    }
    LowerAppend("Lisa", " Chen");
    assert "Lisa" + " Chen" == "Lisa Chen";
    assert "lisa" + " chen" == "lisa chen";
  }

  lemma LowerChen()
    ensures Lower("Chen") == "chen"
  {
    var chen := Lower("Chen");
    assert chen[0] == 'c' && chen[1] == 'h' && chen[2] == 'e' && chen[3] == 'n';
  }

  lemma LisaChenHoldsChen()
    ensures Contains("lisa chen", "chen")
  {
    assert OccursAt("lisa chen", "chen", 5) by { assert "lisa chen"[5..9] == "chen"; }
    ContainsIff("lisa chen", "chen");
  }

  lemma SarahJohnsonLacksChen()
    ensures !Contains("sarah johnson", "chen")
  {
    var hay := "sarah johnson";
    assert forall i :: 0 <= i < |hay| ==> hay[i] != 'c';
    assert forall i :: OccursAt(hay, "chen", i) ==> hay[i..i + 4][0] == 'c';
    ContainsIff(hay, "chen");
  }

  lemma MariaGarciaLacksChen()
    ensures !Contains("maria garcia", "chen")
  {
    var hay := "maria garcia";
    assert forall i :: 0 <= i < 9 ==> hay[i] != 'c';
    assert forall i :: OccursAt(hay, "chen", i) ==> i < 9 && hay[i..i + 4][0] == 'c';
    ContainsIff(hay, "chen");
  }

  lemma ChenMissesSarah(q: Query)
    requires q.searchKey == "motherName" && q.searchTerm == "Chen"
    ensures !MatchesSearch(SarahBooking, q)
  {
    assert SarahBooking["motherName"] == "Sarah Johnson";
    LowerSarahJohnson();
    LowerChen();
    SarahJohnsonLacksChen();
  }

  lemma ChenMissesMaria(q: Query)
    requires q.searchKey == "motherName" && q.searchTerm == "Chen"
    ensures !MatchesSearch(MariaBooking, q)
  {
    assert MariaBooking["motherName"] == "Maria Garcia";
    LowerMotherNames();
    LowerChen();
    MariaGarciaLacksChen();
  }

  lemma ChenFindsLisa(q: Query)
    requires q.searchKey == "motherName" && q.searchTerm == "Chen"
    ensures MatchesSearch(LisaBooking, q)
  {
    assert LisaBooking["motherName"] == "Lisa Chen";
    LowerMotherNames();
    LowerChen();
    LisaChenHoldsChen();
  }

  lemma ChenMatches(q: Query)
    requires q.searchKey == "motherName" && q.searchTerm == "Chen"
    ensures !MatchesSearch(SarahBooking, q) && !MatchesSearch(MariaBooking, q) && MatchesSearch(LisaBooking, q)
  {
    ChenMissesSarah(q);
    ChenMissesMaria(q);
    ChenFindsLisa(q);
  }

  /** Searching "Chen" finds Lisa Chen's booking, whatever the case of the name. */
  lemma SearchChen(q: Query)
    requires BookingQuery(q, "Chen", AllValue)
    ensures FilteredData(MockBookings, q) == [LisaBooking]
  {
    ChenMatches(q);
    FilteredOfThree(SarahBooking, MariaBooking, LisaBooking, q);
  }

  /** "Chen" among the pending bookings still finds Lisa Chen's. */
  lemma ChenPending(q: Query)
    requires BookingQuery(q, "Chen", "pending")
    ensures FilteredData(MockBookings, q) == [LisaBooking]
  {
    ChenMatches(q);
    FilteredOfThree(SarahBooking, MariaBooking, LisaBooking, q);
  }

  /**
   * "Chen" among the completed bookings finds nothing: Sarah Johnson's booking
   * passes the filter but not the search, Lisa Chen's the search but not the filter.
   */
  lemma ChenCompleted(q: Query)
    requires BookingQuery(q, "Chen", "completed")
    ensures MatchesFilter(SarahBooking, q) && !MatchesSearch(SarahBooking, q)
    ensures MatchesSearch(LisaBooking, q) && !MatchesFilter(LisaBooking, q)
    ensures FilteredData(MockBookings, q) == []
  {
    ChenMatches(q);
    FilteredOfThree(SarahBooking, MariaBooking, LisaBooking, q);
  }

  /** What page 1 of the booking table shows once the filter has kept `kept`. */
  lemma FirstPageShows(data: seq<Row>, q: Query, kept: seq<Row>)
    requires FilteredData(data, q) == kept && |kept| <= 10
    ensures TotalPages(|FilteredData(data, q)|, 10) == (if kept == [] then 0 else 1)
    ensures PageSlice(FilteredData(data, q), 1, 10) == kept
  {
  }

  /** The booking page's seven columns; `render` and `className` are not modelled. */
  const BookingColumns := [Column("id", "Booking ID"), Column("motherName", "Mother"), Column("nannyName", "Nanny"),
    Column("date", "Date"), Column("time", "Time"), Column("amount", "Amount"), Column("status", "Status")]

  /**
   * With "Chen" under `completed`, the booking table's body is the single
   * "No results found." cell across its seven columns and the Actions column.
   */
  lemma ChenCompletedBody(q: Query)
    requires BookingQuery(q, "Chen", "completed")
    ensures TableBody(PageSlice(FilteredData(MockBookings, q), 1, 10), BookingColumns, true) == NoResults(8)
  {
    ChenCompleted(q);
  }

  /**
   * The booking table as the page renders it: its columns and rows, searched by
   * mother, filtered by status, ten rows a page, with a view-details action.
   */
  method BookingTable() returns (table: TableView)
    ensures fresh(table) && table.Valid()
    ensures table.columns == BookingColumns && table.hasViewDetails
    ensures table.data == MockBookings && table.searchKey == "motherName"
    ensures table.filters == [BookingStatusFilter] && table.itemsPerPage == 10
    ensures table.currentPage == 1 && table.searchTerm == "" && table.selectedFilter == AllValue
  {
    table := new TableView(BookingColumns, MockBookings, "motherName", [BookingStatusFilter], 10, true);
  }

  /** On the first render all three bookings are on one page. */
  method InitialBookings()
  {
    var table := BookingTable();
    AllBookings(table.CurrentQuery());
    FirstPageShows(table.data, table.CurrentQuery(), MockBookings);
    assert table.PageCount() == 1 && table.CurrentData() == MockBookings;
  }

  /** The filter `pending` leaves Lisa Chen's booking on the one page. */
  method PendingScenario()
  {
    var table := BookingTable();
    var _ := table.HandleFilter("pending", false);
    PendingBookings(table.CurrentQuery());
    FirstPageShows(table.data, table.CurrentQuery(), [LisaBooking]);
    assert table.PageCount() == 1 && table.CurrentData() == [LisaBooking];
  }

  /** Searching "Chen" among the pending bookings keeps Lisa Chen's. */
  method PendingChenScenario()
  {
    var table := BookingTable();
    var _ := table.HandleFilter("pending", false);
    var _ := table.HandleSearch("Chen", false);
    ChenPending(table.CurrentQuery());
    FirstPageShows(table.data, table.CurrentQuery(), [LisaBooking]);
    assert table.PageCount() == 1 && table.CurrentData() == [LisaBooking];
  }

  /** Searching "Chen" finds Lisa Chen's booking on the one page. */
  method SearchChenScenario()
  {
    var table := BookingTable();
    var _ := table.HandleSearch("Chen", false);
    SearchChen(table.CurrentQuery());
    FirstPageShows(table.data, table.CurrentQuery(), [LisaBooking]);
    assert table.PageCount() == 1 && table.CurrentData() == [LisaBooking];
  }

  /**
   * After searching "Chen", switching the filter to `completed` empties the
   * table (`ChenCompletedBody` gives its one cell).
   */
  method CompletedChenScenario()
  {
    var table := BookingTable();
    var _ := table.HandleSearch("Chen", false);
    var _ := table.HandleFilter("completed", false);
    ChenCompleted(table.CurrentQuery());
    FirstPageShows(table.data, table.CurrentQuery(), []);
    assert table.PageCount() == 0 && table.CurrentData() == [];
  }
}
