/**
 * The financial-report list: a search over the report name combined with report-type and status
 * dropdowns, and the three-way status badge.
 */
module FinancialReports {
  import Text
  import Listing

  datatype FinancialReport = FinancialReport(id: int, reportName: string, reportType: string, period: string,
                                             createdDate: string, status: string)

  function KeepWith(term: string, typeFilter: string, statusFilter: string): FinancialReport -> bool {
    (r: FinancialReport) => Text.MatchesIgnoringCase(r.reportName, term) && Listing.Selects(typeFilter, r.reportType) &&
                            Listing.Selects(statusFilter, r.status)
  }

  function FilterReports(reports: seq<FinancialReport>, term: string, typeFilter: string, statusFilter: string): seq<FinancialReport> {
    Listing.Filter(reports, KeepWith(term, typeFilter, statusFilter))
  }

  /** The dropdowns alone, as the empty search leaves them. */
  function ByDropdowns(typeFilter: string, statusFilter: string): FinancialReport -> bool {
    (r: FinancialReport) => Listing.Selects(typeFilter, r.reportType) && Listing.Selects(statusFilter, r.status)
  }

  /** A report is listed iff its name contains the term (ignoring case) and its type and status
      are the selected ones, "all" switching a dropdown off; the list keeps the input order. */
  lemma FilterReportsCorrect(reports: seq<FinancialReport>, term: string, typeFilter: string, statusFilter: string)
    ensures forall r :: r in FilterReports(reports, term, typeFilter, statusFilter) <==>
              && r in reports && Text.MatchesIgnoringCase(r.reportName, term)
              && (typeFilter == "all" || r.reportType == typeFilter)
              && (statusFilter == "all" || r.status == statusFilter)
    ensures forall a, b :: FilterReports(a + b, term, typeFilter, statusFilter) ==
                           FilterReports(a, term, typeFilter, statusFilter) + FilterReports(b, term, typeFilter, statusFilter)
  {
    Listing.FilterMembers(reports, KeepWith(term, typeFilter, statusFilter));
    forall a, b ensures FilterReports(a + b, term, typeFilter, statusFilter) ==
                        FilterReports(a, term, typeFilter, statusFilter) + FilterReports(b, term, typeFilter, statusFilter) {
      Listing.FilterConcat(a, b, KeepWith(term, typeFilter, statusFilter));
    }
  }

  /** With an empty term only the dropdowns decide. */
  lemma EmptySearch(reports: seq<FinancialReport>, typeFilter: string, statusFilter: string)
    ensures FilterReports(reports, "", typeFilter, statusFilter) == Listing.Filter(reports, ByDropdowns(typeFilter, statusFilter))
  {
    forall r | r in reports ensures KeepWith("", typeFilter, statusFilter)(r) == ByDropdowns(typeFilter, statusFilter)(r) {
      Text.MatchesEmptyTerm(r.reportName);
    }
    Listing.FilterAgrees(reports, KeepWith("", typeFilter, statusFilter), ByDropdowns(typeFilter, statusFilter));
  }

  datatype Variant = Default | Secondary | Destructive

  /** `getStatusBadge`: "Completed" is default, "In Progress" secondary, anything else destructive. */
  function StatusBadge(status: string): (r: (Variant, string))
    ensures r.0 == Default <==> status == "Completed"
    ensures r.0 == Secondary <==> status == "In Progress"
    ensures r.0 == Destructive <==> status != "Completed" && status != "In Progress"
    ensures r.1 == status
  {
    (if status == "Completed" then Default else if status == "In Progress" then Secondary else Destructive, status)
  }

  const MockReports: seq<FinancialReport> := [
    FinancialReport(1, "Q4 2024 Income Statement", "Income Statement", "Q4 2024", "2024-01-15", "Completed"),
    FinancialReport(2, "Annual Balance Sheet 2024", "Balance Sheet", "2024", "2024-01-10", "In Progress"),
    FinancialReport(3, "Monthly Cash Flow - Dec 2024", "Cash Flow", "December 2024", "2024-01-05", "Completed")
  ]

  /** With an empty search, the status "Failed" lists nothing and "Completed" lists reports 1 and 3. */
  lemma MockFilters()
    ensures FilterReports(MockReports, "", "all", "Failed") == []
    ensures FilterReports(MockReports, "", "all", "Completed") == [MockReports[0], MockReports[2]]
  {
    MockFailed();
    MockCompleted();
  }

  lemma MockFailed()
    ensures FilterReports(MockReports, "", "all", "Failed") == []
  {
    var m := MockReports;
    assert m == [m[0], m[1], m[2]];
    var failed := KeepWith("", "all", "Failed");
    assert !failed(m[0]) && !failed(m[1]) && !failed(m[2]);
    Listing.FilterThree(m[0], m[1], m[2], failed);
  }

  lemma MockCompleted()
    ensures FilterReports(MockReports, "", "all", "Completed") == [MockReports[0], MockReports[2]]
  {
    var m := MockReports;
    assert m == [m[0], m[1], m[2]];
    var completed := KeepWith("", "all", "Completed");
    Text.MatchesEmptyTerm(m[0].reportName);
    Text.MatchesEmptyTerm(m[2].reportName);
    assert completed(m[0]) && !completed(m[1]) && completed(m[2]);
    Listing.FilterThree(m[0], m[1], m[2], completed);
  }
}
