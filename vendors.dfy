/**
 * The vendor list: a search over vendor name, contact person and e-mail combined with a status
 * dropdown, the total, active and inactive cards, and the create dialog that appends a vendor under
 * the next `VEND-` identifier.
 */
module Vendors {
  import Text
  import Listing

  datatype Status = Active | Inactive {
    function Name(): string {
      match this
      case Active => "active"
      case Inactive => "inactive"
    }
  }

  datatype Vendor = Vendor(id: string, vendorName: string, contactPerson: string, email: string, phone: string,
                           status: Status)

  /** What the create dialog submits: every field but the identifier. */
  datatype VendorData = VendorData(vendorName: string, contactPerson: string, email: string, phone: string,
                                   status: Status)

  const Prefix: string := "VEND-"

  predicate MatchesSearch(v: Vendor, term: string) {
    Text.MatchesIgnoringCase(v.vendorName, term) || Text.MatchesIgnoringCase(v.contactPerson, term) ||
    Text.MatchesIgnoringCase(v.email, term)
  }

  function KeepWith(term: string, statusFilter: string): Vendor -> bool {
    (v: Vendor) => MatchesSearch(v, term) && Listing.Selects(statusFilter, v.status.Name())
  }

  function FilterVendors(vendors: seq<Vendor>, term: string, statusFilter: string): seq<Vendor> {
    Listing.Filter(vendors, KeepWith(term, statusFilter))
  }

  /** A vendor is listed iff its name, contact person or e-mail contains the term (ignoring case) and
      its status is the selected one or the filter is "all"; the list keeps the input order. */
  lemma FilterVendorsCorrect(vendors: seq<Vendor>, term: string, statusFilter: string)
    ensures forall v :: v in FilterVendors(vendors, term, statusFilter) <==>
              v in vendors && MatchesSearch(v, term) && (statusFilter == "all" || v.status.Name() == statusFilter)
    ensures forall a, b :: FilterVendors(a + b, term, statusFilter) ==
                           FilterVendors(a, term, statusFilter) + FilterVendors(b, term, statusFilter)
  {
    Listing.FilterMembers(vendors, KeepWith(term, statusFilter));
    forall a, b ensures FilterVendors(a + b, term, statusFilter) ==
                        FilterVendors(a, term, statusFilter) + FilterVendors(b, term, statusFilter) {
      Listing.FilterConcat(a, b, KeepWith(term, statusFilter));
    }
  }

  predicate IsActive(v: Vendor) {
    v.status == Active
  }

  predicate IsInactive(v: Vendor) {
    v.status == Inactive
  }

  function ActiveCount(vendors: seq<Vendor>): nat {
    |Listing.Filter(vendors, IsActive)|
  }

  function InactiveCount(vendors: seq<Vendor>): nat {
    |Listing.Filter(vendors, IsInactive)|
  }

  /** The active and inactive cards add up to the total card: a vendor is one or the other. */
  lemma {:induction false} CardsAddUp(vendors: seq<Vendor>)
    ensures ActiveCount(vendors) + InactiveCount(vendors) == |vendors|
  {
    if vendors != [] {
      CardsAddUp(vendors[1..]);
    }
  }

  function IdOf(v: Vendor): string {
    v.id
  }

  /** `handleCreateVendor`: the submitted fields under the next identifier, appended at the end. */
  function Create(vendors: seq<Vendor>, data: VendorData): (r: seq<Vendor>)
    ensures |r| == |vendors| + 1 && r[..|vendors|] == vendors
    ensures r[|vendors|].id == Listing.NextId(Prefix, |vendors|)
    ensures var v := r[|vendors|];
            v.vendorName == data.vendorName && v.contactPerson == data.contactPerson && v.email == data.email &&
            v.phone == data.phone && v.status == data.status
  {
    vendors + [Vendor(Listing.NextId(Prefix, |vendors|), data.vendorName, data.contactPerson, data.email,
                      data.phone, data.status)]
  }

  /** Creating keeps the identifiers sequential, so the new vendor's identifier is new. */
  lemma CreateKeepsIdsSequential(vendors: seq<Vendor>, data: VendorData)
    requires Listing.SequentialIds(vendors, IdOf, Prefix)
    ensures Listing.SequentialIds(Create(vendors, data), IdOf, Prefix)
    ensures forall k :: 0 <= k < |vendors| ==> vendors[k].id != Create(vendors, data)[|vendors|].id
  {
    var r := Create(vendors, data);
    assert r == vendors + [r[|vendors|]];
    Listing.AppendNextId(vendors, r[|vendors|], IdOf, Prefix);
  }

  const MockVendors: seq<Vendor> := [
    Vendor("VEND-001", "Tech Solutions Inc.", "Robert Brown", "robert@techsolutions.com", "+1 555-0101", Active),
    Vendor("VEND-002", "Office Supplies Co.", "Lisa White", "lisa@officesupplies.com", "+1 555-0102", Active),
    Vendor("VEND-003", "Manufacturing Partners", "David Green", "david@manufacturing.com", "+1 555-0103", Inactive)
  ]

  /** The sample vendors carry the identifiers 1 to 3, the next one is "VEND-004", and two of the
      three are active. */
  lemma MockVendorsFacts()
    ensures Listing.SequentialIds(MockVendors, IdOf, Prefix)
    ensures Listing.NextId(Prefix, |MockVendors|) == "VEND-004"
    ensures ActiveCount(MockVendors) == 2 && InactiveCount(MockVendors) == 1
  {
    MockIds();
    MockCounts();
  }

  lemma MockIds()
    ensures Listing.SequentialIds(MockVendors, IdOf, Prefix)
    ensures Listing.NextId(Prefix, |MockVendors|) == "VEND-004"
  {
    Listing.NextIdOneDigit(Prefix, 0);
    Listing.NextIdOneDigit(Prefix, 1);
    Listing.NextIdOneDigit(Prefix, 2);
    Listing.NextIdOneDigit(Prefix, 3);
    assert Text.DigitChar(1) == '1' && Text.DigitChar(2) == '2' && Text.DigitChar(3) == '3';
    assert Text.DigitChar(4) == '4';
  }

  lemma MockCounts()
    ensures ActiveCount(MockVendors) == 2 && InactiveCount(MockVendors) == 1
  {
    var m := MockVendors;
    assert Listing.Filter(m[2..], IsActive) == [];
    assert Listing.Filter(m[1..], IsActive) == [m[1]];
    CardsAddUp(m);
  }

  class VendorsPage {
    var vendors: seq<Vendor>

    constructor()
      ensures vendors == MockVendors
    {
      vendors := MockVendors;
    }

    /** `handleCreateVendor`: the list state becomes the old list with the new vendor appended. */
    method HandleCreate(data: VendorData)
      modifies this
      ensures vendors == Create(old(vendors), data)
    {
      vendors := vendors + [Vendor(Listing.NextId(Prefix, |vendors|), data.vendorName, data.contactPerson,
                                   data.email, data.phone, data.status)];
    }
  }
}
