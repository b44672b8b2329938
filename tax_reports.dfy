/**
 * The tax-report list: a search over the report name combined with tax-type and status dropdowns,
 * and the three-way status badge.
 */
module TaxReports {
  import Text
  import Listing

  datatype TaxReport = TaxReport(id: int, reportName: string, taxType: string, filingPeriod: string,
                                 createdDate: string, status: string)

  function KeepWith(term: string, taxTypeFilter: string, statusFilter: string): TaxReport -> bool {
    (r: TaxReport) => Text.MatchesIgnoringCase(r.reportName, term) && Listing.Selects(taxTypeFilter, r.taxType) &&
                      Listing.Selects(statusFilter, r.status)
  }

  function FilterReports(reports: seq<TaxReport>, term: string, taxTypeFilter: string, statusFilter: string): seq<TaxReport> {
    Listing.Filter(reports, KeepWith(term, taxTypeFilter, statusFilter))
  }

  /** The dropdowns alone, as the empty search leaves them. */
  function ByDropdowns(taxTypeFilter: string, statusFilter: string): TaxReport -> bool {
    (r: TaxReport) => Listing.Selects(taxTypeFilter, r.taxType) && Listing.Selects(statusFilter, r.status)
  }

  /** A report is listed iff its name contains the term (ignoring case) and its tax type and status
      are the selected ones, "all" switching a dropdown off; the list keeps the input order. */
  lemma FilterReportsCorrect(reports: seq<TaxReport>, term: string, taxTypeFilter: string, statusFilter: string)
    ensures forall r :: r in FilterReports(reports, term, taxTypeFilter, statusFilter) <==>
              && r in reports && Text.MatchesIgnoringCase(r.reportName, term)
              && (taxTypeFilter == "all" || r.taxType == taxTypeFilter)
              && (statusFilter == "all" || r.status == statusFilter)
    ensures forall a, b :: FilterReports(a + b, term, taxTypeFilter, statusFilter) ==
                           FilterReports(a, term, taxTypeFilter, statusFilter) + FilterReports(b, term, taxTypeFilter, statusFilter)
  {
    Listing.FilterMembers(reports, KeepWith(term, taxTypeFilter, statusFilter));
    forall a, b ensures FilterReports(a + b, term, taxTypeFilter, statusFilter) ==
                        FilterReports(a, term, taxTypeFilter, statusFilter) + FilterReports(b, term, taxTypeFilter, statusFilter) {
      Listing.FilterConcat(a, b, KeepWith(term, taxTypeFilter, statusFilter));
    }
  }

  /** With an empty term only the dropdowns decide. */
  lemma EmptySearch(reports: seq<TaxReport>, taxTypeFilter: string, statusFilter: string)
    ensures FilterReports(reports, "", taxTypeFilter, statusFilter) == Listing.Filter(reports, ByDropdowns(taxTypeFilter, statusFilter))
  {
    forall r | r in reports ensures KeepWith("", taxTypeFilter, statusFilter)(r) == ByDropdowns(taxTypeFilter, statusFilter)(r) {
      Text.MatchesEmptyTerm(r.reportName);
    }
    Listing.FilterAgrees(reports, KeepWith("", taxTypeFilter, statusFilter), ByDropdowns(taxTypeFilter, statusFilter));
  }

  datatype Variant = Default | Secondary | Destructive

  /** `getStatusBadge`: "Filed" is default, "In Progress" secondary, anything else destructive. */
  function StatusBadge(status: string): (r: (Variant, string))
    ensures r.0 == Default <==> status == "Filed"
    ensures r.0 == Secondary <==> status == "In Progress"
    ensures r.0 == Destructive <==> status != "Filed" && status != "In Progress"
    ensures r.1 == status
  {
    (if status == "Filed" then Default else if status == "In Progress" then Secondary else Destructive, status)
  }

  const MockReports: seq<TaxReport> := [
    TaxReport(1, "Q4 2024 VAT Report", "VAT", "Q4 2024", "2024-01-15", "Filed"),
    TaxReport(2, "Annual Income Tax 2024", "Income Tax", "2024", "2024-01-10", "In Progress"),
    TaxReport(3, "GST Return - December 2024", "GST", "December 2024", "2024-01-05", "Filed")
  ]

  /** With an empty search, the tax type "VAT" lists the first report only and the status "Overdue"
      lists nothing. */
  lemma MockFilters()
    ensures FilterReports(MockReports, "", "VAT", "all") == [MockReports[0]]
    ensures FilterReports(MockReports, "", "all", "Overdue") == []
  {
    var m := MockReports;
    assert m == [m[0], m[1], m[2]];
    var vat := KeepWith("", "VAT", "all");
    Text.MatchesEmptyTerm(m[0].reportName);
    assert vat(m[0]) && !vat(m[1]) && !vat(m[2]);
    Listing.FilterThree(m[0], m[1], m[2], vat);
    var overdue := KeepWith("", "all", "Overdue");
    assert !overdue(m[0]) && !overdue(m[1]) && !overdue(m[2]);
    Listing.FilterThree(m[0], m[1], m[2], overdue);
  }
}
