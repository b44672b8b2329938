/**
 * The customer-group list: a search over group name and description, and the create dialog that
 * appends a group under the next `GRP-` identifier, stamped with today's date.
 */
module CustomerGroups {
  import opened Wrappers
  import Text
  import Listing

  datatype CustomerGroup = CustomerGroup(id: string, groupName: string, description: string, createdDate: string)

  /** What the create dialog submits. A creation date in it, if any, is ignored. */
  datatype GroupData = GroupData(groupName: string, description: string, createdDate: Option<string>)

  const Prefix: string := "GRP-"

  predicate MatchesSearch(g: CustomerGroup, term: string) {
    Text.MatchesIgnoringCase(g.groupName, term) || Text.MatchesIgnoringCase(g.description, term)
  }

  function KeepWith(term: string): CustomerGroup -> bool {
    (g: CustomerGroup) => MatchesSearch(g, term)
  }

  function FilterGroups(groups: seq<CustomerGroup>, term: string): seq<CustomerGroup> {
    Listing.Filter(groups, KeepWith(term))
  }

  /** A group is listed iff its name or description contains the term (ignoring case), in list
      order; an empty term lists every group. */
  lemma FilterGroupsCorrect(groups: seq<CustomerGroup>, term: string)
    ensures forall g :: g in FilterGroups(groups, term) <==> g in groups && MatchesSearch(g, term)
    ensures forall a, b :: FilterGroups(a + b, term) == FilterGroups(a, term) + FilterGroups(b, term)
    ensures FilterGroups(groups, "") == groups
  {
    Listing.FilterMembers(groups, KeepWith(term));
    forall a, b ensures FilterGroups(a + b, term) == FilterGroups(a, term) + FilterGroups(b, term) {
      Listing.FilterConcat(a, b, KeepWith(term));
    }
    forall g | g in groups ensures KeepWith("")(g) {
      Text.MatchesEmptyTerm(g.groupName);
    }
    Listing.FilterKeepsAll(groups, KeepWith(""));
  }

  function IdOf(g: CustomerGroup): string {
    g.id
  }

  /** `handleCreateGroup` at clock reading `now`: the submitted name and description under the next
      identifier, dated with the date part of the clock's ISO timestamp, appended at the end. */
  function Create(groups: seq<CustomerGroup>, data: GroupData, now: nat, isoOf: nat -> string): (r: seq<CustomerGroup>)
    ensures |r| == |groups| + 1 && r[..|groups|] == groups
    ensures r[|groups|].id == Listing.NextId(Prefix, |groups|)
    ensures r[|groups|].groupName == data.groupName && r[|groups|].description == data.description
    ensures Text.IsPrefix(r[|groups|].createdDate, isoOf(now)) && 'T' !in r[|groups|].createdDate
  {
    groups + [CustomerGroup(Listing.NextId(Prefix, |groups|), data.groupName, data.description,
                            Text.BeforeFirst(isoOf(now), 'T'))]
  }

  /** The creation date comes from the clock alone: two submissions that differ only in their own
      creation date create the same group. */
  lemma CreatedDateOverridesSubmitted(groups: seq<CustomerGroup>, data: GroupData, date: Option<string>,
                                      now: nat, isoOf: nat -> string)
    ensures Create(groups, data, now, isoOf) == Create(groups, data.(createdDate := date), now, isoOf)
    ensures var iso := isoOf(now);
            var d := Create(groups, data, now, isoOf)[|groups|].createdDate;
            (exists i :: 0 <= i < |iso| && iso[i] == 'T') ==> |d| < |iso| && iso[|d|] == 'T'
  {
    var iso := isoOf(now);
    var d := Text.BeforeFirst(iso, 'T');
    if |d| == |iso| {
      assert d == iso;
    }
  }

  /** Creating keeps the identifiers sequential, so the new group's identifier is new. */
  lemma CreateKeepsIdsSequential(groups: seq<CustomerGroup>, data: GroupData, now: nat, isoOf: nat -> string)
    requires Listing.SequentialIds(groups, IdOf, Prefix)
    ensures Listing.SequentialIds(Create(groups, data, now, isoOf), IdOf, Prefix)
    ensures forall k :: 0 <= k < |groups| ==> groups[k].id != Create(groups, data, now, isoOf)[|groups|].id
  {
    var r := Create(groups, data, now, isoOf);
    assert r == groups + [r[|groups|]];
    Listing.AppendNextId(groups, r[|groups|], IdOf, Prefix);
  }

  const MockGroups: seq<CustomerGroup> := [
    CustomerGroup("GRP-001", "Standard", "Regular customers with standard pricing", "2024-01-15"),
    CustomerGroup("GRP-002", "Premium", "Premium customers with special discounts", "2024-01-20"),
    CustomerGroup("GRP-003", "VIP", "VIP customers with exclusive benefits", "2024-02-01")
  ]

  /** The sample groups carry the identifiers 1 to 3, and the next one is "GRP-004". */
  lemma MockIds()
    ensures Listing.SequentialIds(MockGroups, IdOf, Prefix)
    ensures Listing.NextId(Prefix, |MockGroups|) == "GRP-004"
  {
    Listing.NextIdOneDigit(Prefix, 0);
    Listing.NextIdOneDigit(Prefix, 1);
    Listing.NextIdOneDigit(Prefix, 2);
    Listing.NextIdOneDigit(Prefix, 3);
    assert Text.DigitChar(1) == '1' && Text.DigitChar(2) == '2' && Text.DigitChar(3) == '3';
    assert Text.DigitChar(4) == '4';
  }

  class CustomerGroupsPage {
    var customerGroups: seq<CustomerGroup>

    constructor()
      ensures customerGroups == MockGroups
    {
      customerGroups := MockGroups;
    }

    /** `handleCreateGroup`: the list state becomes the old list with the new group appended. */
    method HandleCreate(data: GroupData, now: nat, isoOf: nat -> string)
      modifies this
      ensures customerGroups == Create(old(customerGroups), data, now, isoOf)
    {
      customerGroups := customerGroups + [CustomerGroup(Listing.NextId(Prefix, |customerGroups|), data.groupName,
                                                        data.description, Text.BeforeFirst(isoOf(now), 'T'))];
    }
  }
}
