/**
 * The category tree: top-level categories with optional children, an expand/collapse set of
 * category ids, the recursive flattening of the tree into the table's visible rows, the name
 * search over top-level categories, and the summary cards.
 */
module Categories {
  import opened Wrappers
  import Text
  import Listing

  /** A category; an absent `children` list is the empty sequence. */
  datatype Category = Category(id: string, name: string, description: Option<string>, productCount: int,
                               parentId: Option<string>, children: seq<Category>)

  /** One rendered table row: the category it shows, its depth and its left padding in pixels. */
  datatype Row = Row(id: string, name: string, productCount: int, level: nat, paddingLeft: nat)

  // ---------------------------------------------------------------------------------------------
  // Expand / collapse

  /** The set after clicking the folder of `id`: `id` leaves the set if it was in it, else joins it. */
  function Toggle(expanded: set<string>, id: string): set<string> {
    if id in expanded then expanded - {id} else expanded + {id}
  }

  /** Toggling changes the membership of exactly that id. */
  lemma ToggleMembership(expanded: set<string>, id: string)
    ensures id in Toggle(expanded, id) <==> id !in expanded
    ensures forall x :: x != id ==> (x in Toggle(expanded, id) <==> x in expanded)
  {
  }

  /** Toggling twice restores the set. */
  lemma ToggleTwice(expanded: set<string>, id: string)
    ensures Toggle(Toggle(expanded, id), id) == expanded
  {
  }

  // ---------------------------------------------------------------------------------------------
  // Flattening

  function Indent(level: nat): nat {
    level * 24
  }

  function HasChildren(c: Category): bool {
    |c.children| > 0
  }

  function RowOf(c: Category, level: nat): Row {
    Row(c.id, c.name, c.productCount, level, Indent(level))
  }

  /** The rows of `c` at depth `level`: its own row, then, if it has children and is expanded, the
      rows of its children one level deeper. */
  function Rows(c: Category, level: nat, expanded: set<string>): (r: seq<Row>)
    ensures |r| >= 1 && r[0] == RowOf(c, level)
    decreases c, 1
  {
    [RowOf(c, level)] +
    (if HasChildren(c) && c.id in expanded then RowsList(c.children, level + 1, expanded) else [])
  }

  function RowsList(cs: seq<Category>, level: nat, expanded: set<string>): (r: seq<Row>)
    ensures |r| >= |cs|
    decreases cs, 0
  {
    if cs == [] then [] else Rows(cs[0], level, expanded) + RowsList(cs[1..], level, expanded)
  }

  /** A collapsed category, or one without children, is a single row. */
  lemma CollapsedIsOneRow(c: Category, level: nat, expanded: set<string>)
    requires !HasChildren(c) || c.id !in expanded
    ensures Rows(c, level, expanded) == [RowOf(c, level)]
  {
  }

  predicate RowsWellFormed(rows: seq<Row>, level: nat) {
    forall i :: 0 <= i < |rows| ==> rows[i].level >= level && rows[i].paddingLeft == rows[i].level * 24
  }

  /** Every row lies at the start depth or deeper and is indented 24 pixels per level; every row after
      the first lies strictly deeper. */
  lemma {:induction false} RowsLevels(c: Category, level: nat, expanded: set<string>)
    ensures RowsWellFormed(Rows(c, level, expanded), level)
    ensures RowsWellFormed(Rows(c, level, expanded)[1..], level + 1)
    decreases c, 1
  {
    if HasChildren(c) && c.id in expanded {
      RowsListLevels(c.children, level + 1, expanded);
      assert Rows(c, level, expanded)[1..] == RowsList(c.children, level + 1, expanded);
    }
  }

  lemma {:induction false} RowsListLevels(cs: seq<Category>, level: nat, expanded: set<string>)
    ensures RowsWellFormed(RowsList(cs, level, expanded), level)
    decreases cs, 0
  {
    if cs != [] {
      RowsLevels(cs[0], level, expanded);
      RowsListLevels(cs[1..], level, expanded);
    }
  }

  function AtLevel(level: nat): Row -> bool {
    (r: Row) => r.level == level
  }

  /** The rows of a list of categories taken at its own depth are exactly one row per category, in
      order: expanding or collapsing never hides or reorders a sibling. */
  lemma {:induction false} RowsListTopLevel(cs: seq<Category>, level: nat, expanded: set<string>)
    ensures Listing.Filter(RowsList(cs, level, expanded), AtLevel(level)) ==
            seq(|cs|, i requires 0 <= i < |cs| => RowOf(cs[i], level))
    decreases cs
  {
    if cs != [] {
      var own := Rows(cs[0], level, expanded);
      RowsLevels(cs[0], level, expanded);
      RowsListTopLevel(cs[1..], level, expanded);
      Listing.FilterConcat(own, RowsList(cs[1..], level, expanded), AtLevel(level));
      assert own == [own[0]] + own[1..];
      Listing.FilterConcat([own[0]], own[1..], AtLevel(level));
      assert Listing.Filter(own[1..], AtLevel(level)) == [] by {
        NoneAtLevel(own[1..], level);
      }
    }
  }

  lemma {:induction false} NoneAtLevel(rows: seq<Row>, level: nat)
    requires RowsWellFormed(rows, level + 1)
    ensures Listing.Filter(rows, AtLevel(level)) == []
  {
    if rows != [] {
      assert RowsWellFormed(rows[1..], level + 1) by {
        forall i | 0 <= i < |rows[1..]| ensures rows[1..][i].level >= level + 1 && rows[1..][i].paddingLeft == rows[1..][i].level * 24 {
          assert rows[1..][i] == rows[i + 1];
        }
      }
      NoneAtLevel(rows[1..], level);
    }
  }

  /** Expanding more categories never shows fewer rows. */
  lemma {:induction false} RowsMonotone(c: Category, level: nat, e1: set<string>, e2: set<string>)
    requires e1 <= e2
    ensures |Rows(c, level, e1)| <= |Rows(c, level, e2)|
    decreases c, 1
  {
    if HasChildren(c) && c.id in e1 {
      RowsListMonotone(c.children, level + 1, e1, e2);
    }
  }

  lemma {:induction false} RowsListMonotone(cs: seq<Category>, level: nat, e1: set<string>, e2: set<string>)
    requires e1 <= e2
    ensures |RowsList(cs, level, e1)| <= |RowsList(cs, level, e2)|
    decreases cs, 0
  {
    if cs != [] {
      RowsMonotone(cs[0], level, e1, e2);
      RowsListMonotone(cs[1..], level, e1, e2);
    }
  }

  // ---------------------------------------------------------------------------------------------
  // Search and summaries

  function NameMatches(term: string): Category -> bool {
    (c: Category) => Text.MatchesIgnoringCase(c.name, term)
  }

  /** The search keeps the top-level categories whose name contains the term, ignoring case; children
      are rendered under a kept parent but never matched on their own. */
  function FilterCategories(cats: seq<Category>, term: string): seq<Category> {
    Listing.Filter(cats, NameMatches(term))
  }

  lemma FilterCategoriesCorrect(cats: seq<Category>, term: string)
    ensures forall c :: c in FilterCategories(cats, term) <==> c in cats && Text.MatchesIgnoringCase(c.name, term)
    ensures FilterCategories(cats, "") == cats
    ensures forall a, b :: FilterCategories(a + b, term) == FilterCategories(a, term) + FilterCategories(b, term)
  {
    Listing.FilterMembers(cats, NameMatches(term));
    forall a, b ensures FilterCategories(a + b, term) == FilterCategories(a, term) + FilterCategories(b, term) {
      Listing.FilterConcat(a, b, NameMatches(term));
    }
    forall c | c in cats ensures NameMatches("")(c) {
      Text.MatchesEmptyTerm(c.name);
    }
    Listing.FilterKeepsAll(cats, NameMatches(""));
  }

  function ProductCount(c: Category): real {
    c.productCount as real
  }

  /** The reduce over the top-level categories' product counts. */
  function TotalProducts(cats: seq<Category>): real {
    Listing.Sum(cats, ProductCount)
  }

  /** `Math.round`: the nearest integer, halves rounded up. */
  function Round(x: real): (r: int)
    ensures r as real - 0.5 <= x < r as real + 0.5
  {
    (x + 0.5).Floor
  }

  /** The average card: `None` (shown as NaN) when there are no categories. */
  function AverageProducts(cats: seq<Category>): (r: Option<int>)
    ensures r.None? <==> cats == []
    ensures r.Some? ==> var avg := TotalProducts(cats) / |cats| as real;
                        r.value as real - 0.5 <= avg < r.value as real + 0.5
  {
    if cats == [] then None else Some(Round(TotalProducts(cats) / |cats| as real))
  }

  // ---------------------------------------------------------------------------------------------
  // Sample data

  function Leaf(id: string, name: string, count: int, parent: string): Category {
    Category(id, name, None, count, Some(parent), [])
  }

  const MockCategories: seq<Category> := [
    Category("1", "Electronics", Some("Electronic devices and accessories"), 45, None,
             [Leaf("1-1", "Computers", 15, "1"), Leaf("1-2", "Mobile Phones", 20, "1"),
              Leaf("1-3", "Audio Equipment", 10, "1")]),
    Category("2", "Furniture", Some("Office and home furniture"), 32, None,
             [Leaf("2-1", "Office Chairs", 12, "2"), Leaf("2-2", "Desks", 8, "2"), Leaf("2-3", "Storage", 12, "2")]),
    Category("3", "Accessories", None, 28, None, []),
    Category("4", "Lighting", None, 15, None, []),
    Category("5", "Appliances", None, 22, None, [])
  ]

  const InitialExpanded: set<string> := {"1", "2"}

  /** Five top-level categories holding 142 products; the average card shows 28. */
  lemma MockSummaries()
    ensures |MockCategories| == 5
    ensures TotalProducts(MockCategories) == 142.0
    ensures AverageProducts(MockCategories) == Some(28)
  {
    var m := MockCategories;
    assert m == [m[0]] + ([m[1]] + ([m[2]] + ([m[3]] + [m[4]])));
    Listing.SumCons(m[0], [m[1]] + ([m[2]] + ([m[3]] + [m[4]])), ProductCount);
    Listing.SumCons(m[1], [m[2]] + ([m[3]] + [m[4]]), ProductCount);
    Listing.SumCons(m[2], [m[3]] + [m[4]], ProductCount);
    Listing.SumCons(m[3], [m[4]], ProductCount);
    Listing.SumCons(m[4], [], ProductCount);
    assert [m[4]] + [] == [m[4]];
    assert (142.0 / 5.0 + 0.5).Floor == 28;
  }

  /** Each parent's product count is the sum of its children's. */
  lemma MockParentsSumChildren()
    ensures forall i :: 0 <= i < 2 ==> TotalProducts(MockCategories[i].children) == ProductCount(MockCategories[i])
  {
    var m := MockCategories;
    forall i | 0 <= i < 2 ensures TotalProducts(m[i].children) == ProductCount(m[i]) {
      var k := m[i].children;
      assert k == [k[0]] + ([k[1]] + [k[2]]);
      Listing.SumCons(k[0], [k[1]] + [k[2]], ProductCount);
      Listing.SumCons(k[1], [k[2]], ProductCount);
      Listing.SumCons(k[2], [], ProductCount);
      assert [k[2]] + [] == [k[2]];
    }
  }

  /** A list of childless categories renders one row each. */
  lemma {:induction false} LeavesOneRowEach(cs: seq<Category>, level: nat, expanded: set<string>)
    requires forall i :: 0 <= i < |cs| ==> !HasChildren(cs[i])
    ensures |RowsList(cs, level, expanded)| == |cs|
  {
    if cs != [] {
      LeavesOneRowEach(cs[1..], level, expanded);
    }
  }

  /** On first render both parents are open: 5 top-level rows and 6 child rows. */
  lemma MockInitialRows()
    ensures |RowsList(MockCategories, 0, InitialExpanded)| == 11
  {
    var m := MockCategories;
    var e := InitialExpanded;
    LeavesOneRowEach(m[0].children, 1, e);
    LeavesOneRowEach(m[1].children, 1, e);
    LeavesOneRowEach(m[2..], 0, e);
    assert |Rows(m[0], 0, e)| == 4;
    assert |Rows(m[1], 0, e)| == 4;
    assert m[1..][1..] == m[2..];
  }

  // ---------------------------------------------------------------------------------------------
  // The page

  class CategoriesPage {
    var searchTerm: string
    var expanded: set<string>

    constructor ()
      ensures searchTerm == "" && expanded == InitialExpanded
    {
      searchTerm := "";
      expanded := {"1", "2"};
    }

    /** Copies the expanded set, deletes or adds the id, and stores the copy. */
    method ToggleCategory(id: string)
      modifies this`expanded
      ensures expanded == Toggle(old(expanded), id)
    {
      var newExpanded := expanded;
      if id in newExpanded {
        newExpanded := newExpanded - {id};
      } else {
        newExpanded := newExpanded + {id};
      }
      expanded := newExpanded;
    }

    /** The table body. */
    function VisibleRows(categories: seq<Category>): seq<Row>
      reads this
    {
      RowsList(FilterCategories(categories, searchTerm), 0, expanded)
    }
  }
}
