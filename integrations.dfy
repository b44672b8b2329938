/**
 * The integrations page: the enable switch of each integration, the grouping of integrations by
 * category (a `reduce` that pushes each integration into its category's list, creating the list on
 * first sight), the category colours, the connection badge and the "n integration(s)" count.
 */
module Integrations {
  import Text
  import Listing

  datatype Integration = Integration(id: int, name: string, description: string, status: string, enabled: bool,
                                     icon: string, category: string)

  // ---------------------------------------------------------------------------------------------
  // Enable switch

  function Flip(x: Integration, id: int): Integration {
    if x.id == id then x.(enabled := !x.enabled) else x
  }

  /** `prev.map(...)`: the integration with that id gets its `enabled` flag inverted. */
  function Toggle(integrations: seq<Integration>, id: int): (r: seq<Integration>)
    ensures |r| == |integrations|
  {
    seq(|integrations|, i requires 0 <= i < |integrations| => Flip(integrations[i], id))
  }

  /** Toggling inverts `enabled` exactly on the integrations carrying that id and changes no other
      field of any integration. */
  lemma ToggleCorrect(integrations: seq<Integration>, id: int)
    ensures var r := Toggle(integrations, id);
            forall i :: 0 <= i < |r| ==>
              && (r[i].enabled <==> (integrations[i].id == id) != integrations[i].enabled)
              && r[i].(enabled := integrations[i].enabled) == integrations[i]
              && r[i].status == integrations[i].status
    ensures (forall x :: x in integrations ==> x.id != id) ==> Toggle(integrations, id) == integrations
  {
  }

  /** Toggling the same integration twice restores the list. */
  lemma ToggleTwice(integrations: seq<Integration>, id: int)
    ensures Toggle(Toggle(integrations, id), id) == integrations
  {
    var r := Toggle(Toggle(integrations, id), id);
    forall i | 0 <= i < |integrations| ensures r[i] == integrations[i] {
    }
  }

  /** Switches of different integrations do not interfere. */
  lemma ToggleCommutes(integrations: seq<Integration>, a: int, b: int)
    ensures Toggle(Toggle(integrations, a), b) == Toggle(Toggle(integrations, b), a)
  {
    var l, r := Toggle(Toggle(integrations, a), b), Toggle(Toggle(integrations, b), a);
    forall i | 0 <= i < |integrations| ensures l[i] == r[i] {
    }
  }

  // ---------------------------------------------------------------------------------------------
  // Grouping by category

  function HasCategory(c: string): Integration -> bool {
    (x: Integration) => x.category == c
  }

  /** The group of a category: its integrations in list order. */
  function InCategory(integrations: seq<Integration>, c: string): seq<Integration> {
    Listing.Filter(integrations, HasCategory(c))
  }

  predicate Distinct(s: seq<string>) {
    forall i, j :: 0 <= i < j < |s| ==> s[i] != s[j]
  }

  /** The categories in the order their first integration appears: the key order of the grouped
      object, which `Object.entries` reports. */
  function Categories(integrations: seq<Integration>): seq<string> {
    if integrations == [] then []
    else
      var init, last := integrations[..|integrations| - 1], integrations[|integrations| - 1];
      var r := Categories(init);
      if last.category in r then r else r + [last.category]
  }

  /** Each category is listed once, and exactly the categories of the integrations are listed. */
  lemma {:induction false} CategoriesFacts(integrations: seq<Integration>)
    ensures Distinct(Categories(integrations))
    ensures forall c :: c in Categories(integrations) <==> exists x :: x in integrations && x.category == c
  {
    if integrations != [] {
      var init, last := integrations[..|integrations| - 1], integrations[|integrations| - 1];
      CategoriesFacts(init);
      assert integrations == init + [last];
    }
  }

  /** `order` and `groups` are the grouping of `integrations`: the categories in first-appearance
      order, each with its group. */
  ghost predicate Grouped(integrations: seq<Integration>, order: seq<string>, groups: map<string, seq<Integration>>) {
    && order == Categories(integrations)
    && (forall c :: c in groups <==> c in order)
    && (forall c :: c in groups ==> groups[c] == InCategory(integrations, c))
  }

  /** The grouping as the page computes it: one pass, pushing each integration onto its category's
      list and recording a category when its list is created. */
  method GroupByCategory(integrations: seq<Integration>) returns (order: seq<string>, groups: map<string, seq<Integration>>)
    ensures order == Categories(integrations)
    ensures forall c :: c in groups <==> c in order
    ensures forall c :: c in groups ==> groups[c] == InCategory(integrations, c)
  {
    order, groups := [], map[];
    var i := 0;
    while i < |integrations|
      invariant 0 <= i <= |integrations|
      invariant Grouped(integrations[..i], order, groups)
    {
      var x := integrations[i];
      GroupStep(integrations, i, order, groups);
      var group := if x.category in groups then groups[x.category] else [];
      if x.category !in groups {
        order := order + [x.category];
      }
      groups := groups[x.category := group + [x]];
      i := i + 1;
    }
    assert integrations[..i] == integrations;
  }

  /** One step of the grouping: the next integration extends the category list if its category is
      new, and extends its own category's group, created empty if need be. */
  lemma GroupStep(integrations: seq<Integration>, i: nat, order: seq<string>, groups: map<string, seq<Integration>>)
    requires i < |integrations| && Grouped(integrations[..i], order, groups)
    ensures var x := integrations[i];
            var group := if x.category in groups then groups[x.category] else [];
            Grouped(integrations[..i + 1], if x.category in groups then order else order + [x.category],
                    groups[x.category := group + [x]])
  {
    var x, pre, next := integrations[i], integrations[..i], integrations[..i + 1];
    assert next == pre + [x];
    assert x.category in groups <==> x.category in Categories(pre);
    CategoriesAppend(pre, x);
    GroupsAppend(pre, x, order, groups);
    var group := if x.category in groups then groups[x.category] else [];
    var order' := if x.category in groups then order else order + [x.category];
    var groups' := groups[x.category := group + [x]];
    assert order' == Categories(next);
    assert forall c :: c in groups' <==> c in order';
  }

  /** Appending an integration appends its category to the category list unless it is there already. */
  lemma CategoriesAppend(integrations: seq<Integration>, x: Integration)
    ensures Categories(integrations + [x]) ==
            if x.category in Categories(integrations) then Categories(integrations)
            else Categories(integrations) + [x.category]
  {
    assert (integrations + [x])[..|integrations|] == integrations;
  }

  /** Pushing an integration onto its category's group (created empty if need be) keeps the groups
      those of the longer list, with exactly the categories of the longer list as keys. */
  lemma GroupsAppend(integrations: seq<Integration>, x: Integration, order: seq<string>,
                     groups: map<string, seq<Integration>>)
    requires Grouped(integrations, order, groups)
    ensures var group := if x.category in groups then groups[x.category] else [];
            var groups' := groups[x.category := group + [x]];
            && (forall c :: c in groups' <==> c in order || c == x.category)
            && (forall c :: c in groups' ==> groups'[c] == InCategory(integrations + [x], c))
  {
    var group := if x.category in groups then groups[x.category] else [];
    var groups' := groups[x.category := group + [x]];
    if x.category !in groups {
      InCategoryEmpty(integrations, x.category);
    }
    forall c | c in groups' ensures groups'[c] == InCategory(integrations + [x], c) {
      InCategoryAppend(integrations, x, c);
    }
  }

  /** A category no integration has has an empty group. */
  lemma {:induction false} InCategoryEmpty(integrations: seq<Integration>, c: string)
    requires c !in Categories(integrations)
    ensures InCategory(integrations, c) == []
  {
    CategoriesFacts(integrations);
    if integrations != [] {
      CategoriesFacts(integrations[1..]);
      assert integrations[0] in integrations;
      assert forall x :: x in integrations[1..] ==> x in integrations;
      InCategoryEmpty(integrations[1..], c);
    }
  }

  lemma InCategoryAppend(integrations: seq<Integration>, x: Integration, c: string)
    ensures InCategory(integrations + [x], c) == InCategory(integrations, c) + (if x.category == c then [x] else [])
  {
    Listing.FilterConcat(integrations, [x], HasCategory(c));
    assert [x][1..] == [];
  }

  /** The number of integrations summed over the groups of `keys`. */
  function GroupSizes(integrations: seq<Integration>, keys: seq<string>): nat {
    if keys == [] then 0 else |InCategory(integrations, keys[0])| + GroupSizes(integrations, keys[1..])
  }

  lemma {:induction false} GroupSizesEmpty(keys: seq<string>)
    ensures GroupSizes([], keys) == 0
  {
    if keys != [] {
      GroupSizesEmpty(keys[1..]);
    }
  }

  /** Adding one integration in front adds one to the group sizes if its category is a key. */
  lemma {:induction false} GroupSizesCons(x: Integration, rest: seq<Integration>, keys: seq<string>)
    requires Distinct(keys)
    ensures GroupSizes([x] + rest, keys) == GroupSizes(rest, keys) + (if x.category in keys then 1 else 0)
  {
    if keys != [] {
      assert ([x] + rest)[1..] == rest;
      assert Distinct(keys[1..]) by {
        forall i, j | 0 <= i < j < |keys[1..]| ensures keys[1..][i] != keys[1..][j] {
          assert keys[1..][i] == keys[i + 1] && keys[1..][j] == keys[j + 1];
        }
      }
      GroupSizesCons(x, rest, keys[1..]);
      if x.category == keys[0] {
        assert x.category !in keys[1..];
      }
    }
  }

  /** The group sizes over distinct keys covering every category add up to the number of
      integrations. */
  lemma {:induction false} GroupSizesCover(integrations: seq<Integration>, keys: seq<string>)
    requires Distinct(keys)
    requires forall x :: x in integrations ==> x.category in keys
    ensures GroupSizes(integrations, keys) == |integrations|
  {
    if integrations == [] {
      GroupSizesEmpty(keys);
    } else {
      var x, rest := integrations[0], integrations[1..];
      assert integrations == [x] + rest;
      GroupSizesCover(rest, keys);
      GroupSizesCons(x, rest, keys);
    }
  }

  /** The grouping is a partition: each integration is in the group of its own category with all its
      occurrences, in no other group, and the group sizes add up to the number of integrations. */
  lemma GroupingPartition(integrations: seq<Integration>)
    ensures forall x :: x in integrations ==> x.category in Categories(integrations)
    ensures forall c, x :: x in InCategory(integrations, c) <==> x in integrations && x.category == c
    ensures forall x :: x in integrations ==>
              multiset(InCategory(integrations, x.category))[x] == multiset(integrations)[x]
    ensures GroupSizes(integrations, Categories(integrations)) == |integrations|
  {
    forall x | x in integrations
      ensures multiset(InCategory(integrations, x.category))[x] == multiset(integrations)[x]
    {
      Listing.FilterMultiset(integrations, HasCategory(x.category), x);
    }
    forall c ensures forall x :: x in InCategory(integrations, c) <==> x in integrations && x.category == c {
      Listing.FilterMembers(integrations, HasCategory(c));
    }
    CategoriesFacts(integrations);
    GroupSizesCover(integrations, Categories(integrations));
  }

  /** Within a group the integrations keep their list order. */
  lemma GroupKeepsOrder(a: seq<Integration>, b: seq<Integration>, c: string)
    ensures InCategory(a + b, c) == InCategory(a, c) + InCategory(b, c)
  {
    Listing.FilterConcat(a, b, HasCategory(c));
  }

  /** Reading more of the list only appends categories. */
  lemma {:induction false} CategoriesOfPrefix(integrations: seq<Integration>, k: nat)
    requires k <= |integrations|
    ensures Categories(integrations[..k]) <= Categories(integrations)
    decreases |integrations| - k
  {
    if k < |integrations| {
      CategoriesOfPrefix(integrations, k + 1);
      CategoriesFacts(integrations);
      CategoriesFacts(integrations[..k + 1]);
      var p := integrations[..k + 1];
      assert p[..|p| - 1] == integrations[..k];
      assert Categories(integrations[..k]) <= Categories(p);
    } else {
      assert integrations[..k] == integrations;
    }
  }

  /** The groups appear in first-appearance order: before any integration of a later group there is
      an integration of every earlier group. */
  lemma GroupOrder(integrations: seq<Integration>, i: nat, j: nat, k: nat)
    requires i < j < |Categories(integrations)|
    requires k < |integrations| && integrations[k].category == Categories(integrations)[j]
    ensures exists m :: 0 <= m < k && integrations[m].category == Categories(integrations)[i]
  {
    var keys := Categories(integrations);
    var p := Categories(integrations[..k + 1]);
    CategoriesOfPrefix(integrations, k + 1);
    CategoriesFacts(integrations);
    CategoriesFacts(integrations[..k + 1]);
    assert integrations[..k + 1][k] == integrations[k];
    assert keys[j] in p;
    var jp :| 0 <= jp < |p| && p[jp] == keys[j];
    assert keys[jp] == keys[j];
    assert jp == j;
    assert p[i] == keys[i];
    assert keys[i] in p;
    var y :| y in integrations[..k + 1] && y.category == keys[i];
    var m :| 0 <= m < k + 1 && integrations[..k + 1][m] == y;
    assert integrations[m] == y;
    assert m != k;
  }

  // ---------------------------------------------------------------------------------------------
  // Badges and colours

  /** `getCategoryColor`: the five known categories have their own colours, anything else is gray. */
  function CategoryColor(category: string): (r: string)
    ensures r == "bg-gray-100 text-gray-800" <==>
            category !in ["Payment", "Accounting", "Automation", "Marketing", "Communication"]
  {
    match category
    case "Payment" => "bg-green-100 text-green-800"
    case "Accounting" => "bg-blue-100 text-blue-800"
    case "Automation" => "bg-purple-100 text-purple-800"
    case "Marketing" => "bg-orange-100 text-orange-800"
    case "Communication" => "bg-pink-100 text-pink-800"
    case _ => "bg-gray-100 text-gray-800"
  }

  datatype Variant = Default | Secondary

  /** `getStatusBadge`: the default variant only for "Connected"; the text is the status itself. */
  function StatusBadge(status: string): (r: (Variant, string))
    ensures r.0 == Default <==> status == "Connected"
    ensures r.1 == status
  {
    (if status == "Connected" then Default else Secondary, status)
  }

  /** The group badge: the count, then "integration", with an "s" unless the count is one. */
  function CountBadge(n: nat): (r: string)
    ensures |r| > 0 && (r[|r| - 1] == 's' <==> n != 1)
    ensures Text.IsPrefix(Text.NatToDecimal(n), r)
    ensures Text.DecimalValue(r[..|Text.NatToDecimal(n)|]) == n
  {
    var digits := Text.NatToDecimal(n);
    var r := digits + " integration" + (if n != 1 then "s" else "");
    assert r[..|digits|] == digits;
    Text.DecimalRoundTrip(n);
    r
  }

  // ---------------------------------------------------------------------------------------------
  // The page

  const MockIntegrations: seq<Integration> := [
    Integration(1, "Stripe", "Accept online payments and manage subscriptions", "Connected", true, "\U{1F4B3}", "Payment"),
    Integration(2, "PayPal", "Alternative payment processing solution", "Disconnected", false, "\U{1F17F}\U{FE0F}", "Payment"),
    Integration(3, "QuickBooks", "Sync accounting data and financial reports", "Connected", true, "\U{1F4CA}", "Accounting"),
    Integration(4, "Zapier", "Automate workflows with 5000+ apps", "Disconnected", false, "\U{26A1}", "Automation"),
    Integration(5, "Mailchimp", "Email marketing and customer communication", "Connected", true, "\U{1F4E7}", "Marketing"),
    Integration(6, "Slack", "Team communication and notifications", "Disconnected", false, "\U{1F4AC}", "Communication")
  ]

  /** The sample list forms five groups in this order, the first holding Stripe and PayPal. */
  lemma MockGroups()
    ensures Categories(MockIntegrations) == ["Payment", "Accounting", "Automation", "Marketing", "Communication"]
    ensures InCategory(MockIntegrations, "Payment") == MockIntegrations[..2]
  {
    MockCategories();
    MockPaymentGroup();
  }

  lemma MockCategories()
    ensures Categories(MockIntegrations) == ["Payment", "Accounting", "Automation", "Marketing", "Communication"]
  {
    var m := MockIntegrations;
    assert m[0].category == "Payment" && m[1].category == "Payment" && m[2].category == "Accounting";
    assert m[3].category == "Automation" && m[4].category == "Marketing" && m[5].category == "Communication";
    SixCategories(m, "Payment", "Accounting", "Automation", "Marketing", "Communication");
  }

  /** Six integrations whose categories are a, a, b, c, d, e, all different, form five groups. */
  lemma SixCategories(l: seq<Integration>, a: string, b: string, c: string, d: string, e: string)
    requires |l| == 6 && l[0].category == a && l[1].category == a && l[2].category == b
    requires l[3].category == c && l[4].category == d && l[5].category == e
    requires a != b && a != c && a != d && a != e && b != c && b != d && b != e && c != d && c != e && d != e
    ensures Categories(l) == [a, b, c, d, e]
  {
    FirstThreeCategories(l, a, b);
    CategoriesStep(l, 3, [a, b]);
    CategoriesStep(l, 4, [a, b, c]);
    CategoriesStep(l, 5, [a, b, c, d]);
    assert l[..6] == l;
  }

  lemma FirstThreeCategories(l: seq<Integration>, a: string, b: string)
    requires |l| >= 3 && l[0].category == a && l[1].category == a && l[2].category == b && a != b
    ensures Categories(l[..3]) == [a, b]
  {
    assert Categories(l[..0]) == [];
    CategoriesStep(l, 0, []);
    CategoriesStep(l, 1, [a]);
    CategoriesStep(l, 2, [a]);
  }

  /** Reading one integration more of the list. */
  lemma CategoriesStep(l: seq<Integration>, k: nat, r: seq<string>)
    requires k < |l| && Categories(l[..k]) == r
    ensures Categories(l[..k + 1]) == if l[k].category in r then r else r + [l[k].category]
  {
    assert l[..k + 1][..k] == l[..k];
  }

  lemma MockPaymentGroup()
    ensures InCategory(MockIntegrations, "Payment") == MockIntegrations[..2]
  {
    var m := MockIntegrations;
    var p := HasCategory("Payment");
    assert Listing.Filter(m[5..], p) == [];
    assert Listing.Filter(m[4..], p) == [];
    assert Listing.Filter(m[3..], p) == [];
    assert Listing.Filter(m[2..], p) == [];
    assert Listing.Filter(m[1..], p) == [m[1]];
  }

  class IntegrationsPage {
    var integrations: seq<Integration>

    constructor()
      ensures integrations == MockIntegrations
    {
      integrations := MockIntegrations;
    }

    /** `handleToggleIntegration`: the list state is replaced by its toggled copy. */
    method HandleToggle(id: int)
      modifies this
      ensures integrations == Toggle(old(integrations), id)
    {
      integrations := Toggle(integrations, id);
    }
  }
}
