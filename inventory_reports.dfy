/**
 * The inventory-report list: a search over the report name combined with warehouse and report-type
 * dropdowns, over the page's fixed list of reports.
 */
module InventoryReports {
  import Text
  import Listing

  datatype InventoryReport = InventoryReport(id: int, reportName: string, warehouse: string, reportType: string,
                                             createdDate: string)

  function KeepWith(term: string, warehouseFilter: string, typeFilter: string): InventoryReport -> bool {
    (r: InventoryReport) => Text.MatchesIgnoringCase(r.reportName, term) && Listing.Selects(warehouseFilter, r.warehouse) &&
                            Listing.Selects(typeFilter, r.reportType)
  }

  function FilterReports(reports: seq<InventoryReport>, term: string, warehouseFilter: string,
                         typeFilter: string): seq<InventoryReport>
  {
    Listing.Filter(reports, KeepWith(term, warehouseFilter, typeFilter))
  }

  /** The dropdowns alone, as the empty search leaves them. */
  function ByDropdowns(warehouseFilter: string, typeFilter: string): InventoryReport -> bool {
    (r: InventoryReport) => Listing.Selects(warehouseFilter, r.warehouse) && Listing.Selects(typeFilter, r.reportType)
  }

  /** A report is listed iff its name contains the term (ignoring case) and its warehouse and type
      are the selected ones, "all" switching a dropdown off; the list keeps the input order. */
  lemma FilterReportsCorrect(reports: seq<InventoryReport>, term: string, warehouseFilter: string, typeFilter: string)
    ensures forall r :: r in FilterReports(reports, term, warehouseFilter, typeFilter) <==>
              && r in reports && Text.MatchesIgnoringCase(r.reportName, term)
              && (warehouseFilter == "all" || r.warehouse == warehouseFilter)
              && (typeFilter == "all" || r.reportType == typeFilter)
    ensures forall a, b :: FilterReports(a + b, term, warehouseFilter, typeFilter) ==
                           FilterReports(a, term, warehouseFilter, typeFilter) + FilterReports(b, term, warehouseFilter, typeFilter)
  {
    Listing.FilterMembers(reports, KeepWith(term, warehouseFilter, typeFilter));
    forall a, b ensures FilterReports(a + b, term, warehouseFilter, typeFilter) ==
                        FilterReports(a, term, warehouseFilter, typeFilter) + FilterReports(b, term, warehouseFilter, typeFilter) {
      Listing.FilterConcat(a, b, KeepWith(term, warehouseFilter, typeFilter));
    }
  }

  /** With an empty term only the dropdowns decide, and with both dropdowns at "all" as well every
      report is listed, in order. */
  lemma EmptySearch(reports: seq<InventoryReport>, warehouseFilter: string, typeFilter: string)
    ensures FilterReports(reports, "", warehouseFilter, typeFilter) ==
            Listing.Filter(reports, ByDropdowns(warehouseFilter, typeFilter))
    ensures FilterReports(reports, "", "all", "all") == reports
  {
    forall r | r in reports
      ensures KeepWith("", warehouseFilter, typeFilter)(r) == ByDropdowns(warehouseFilter, typeFilter)(r)
    {
      Text.MatchesEmptyTerm(r.reportName);
    }
    Listing.FilterAgrees(reports, KeepWith("", warehouseFilter, typeFilter), ByDropdowns(warehouseFilter, typeFilter));
    forall r | r in reports ensures KeepWith("", "all", "all")(r) {
      Text.MatchesEmptyTerm(r.reportName);
    }
    Listing.FilterKeepsAll(reports, KeepWith("", "all", "all"));
  }

  const MockReports: seq<InventoryReport> := [
    InventoryReport(1, "Monthly Stock Summary - Jan 2024", "Main Warehouse", "Stock Summary", "2024-01-15"),
    InventoryReport(2, "Low Stock Alert Report", "Secondary Warehouse", "Low Stock", "2024-01-10"),
    InventoryReport(3, "Stock Movement - December 2024", "Main Warehouse", "Stock Movement", "2024-01-05")
  ]

  /** With an empty search, "Main Warehouse" lists reports 1 and 3, "Distribution Center" lists
      nothing, and no filter at all lists the three reports in order. */
  lemma MockFilters()
    ensures FilterReports(MockReports, "", "Main Warehouse", "all") == [MockReports[0], MockReports[2]]
    ensures FilterReports(MockReports, "", "Distribution Center", "all") == []
    ensures FilterReports(MockReports, "", "all", "all") == MockReports
  {
    MockMainWarehouse();
    MockDistributionCenter();
    EmptySearch(MockReports, "all", "all");
  }

  /** Each sample report name matches the empty search. */
  lemma MockNamesMatchEmpty()
    ensures forall i :: 0 <= i < |MockReports| ==> Text.MatchesIgnoringCase(MockReports[i].reportName, "")
  {
    forall i | 0 <= i < |MockReports| ensures Text.MatchesIgnoringCase(MockReports[i].reportName, "") {
      Text.MatchesEmptyTerm(MockReports[i].reportName);
    }
  }

  lemma MockMainWarehouse()
    ensures FilterReports(MockReports, "", "Main Warehouse", "all") == [MockReports[0], MockReports[2]]
  {
    var m := MockReports;
    var keep := KeepWith("", "Main Warehouse", "all");
    MockNamesMatchEmpty();
    assert keep(m[0]) && !keep(m[1]) && keep(m[2]);
    assert m == [m[0], m[1], m[2]];
    Listing.FilterThree(m[0], m[1], m[2], keep);
  }

  lemma MockDistributionCenter()
    ensures FilterReports(MockReports, "", "Distribution Center", "all") == []
  {
    var m := MockReports;
    var keep := KeepWith("", "Distribution Center", "all");
    assert !keep(m[0]) && !keep(m[1]) && !keep(m[2]);
    assert m == [m[0], m[1], m[2]];
    Listing.FilterThree(m[0], m[1], m[2], keep);
  }
}
