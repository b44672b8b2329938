/**
 * The invoice form's totals engine. A draft holds an ordered list of line items (quantity, rate)
 * and three adjustment inputs (discount type, discount value, tax rate); recomputing derives each
 * line amount, the subtotal, the discount, the tax and the grand total. An empty numeric field
 * counts as zero and nothing is clamped, so a fixed discount larger than the subtotal gives a
 * negative total. The form's e-mail check lives here as well.
 */
module InvoiceCreate {
  import opened Wrappers
  import Text
  import Listing

  // ---------------------------------------------------------------------------------------------
  // Data

  datatype DiscountType = Percentage | Fixed

  /** One invoice row; `amount` is derived from `quantity` and `rate` by a recompute pass. */
  datatype LineItem = LineItem(description: string, quantity: Option<real>, rate: Option<real>, amount: real)

  /** The row the form starts with and the "Add Item" button appends. */
  const DefaultItem: LineItem := LineItem("", Some(1.0), Some(0.0), 0.0)

  const DefaultTaxRate: real := 10.0

  /** Thirty days in milliseconds: the default due date lies this far after the issue date. */
  const ThirtyDaysMs: nat := 30 * 24 * 60 * 60 * 1000

  /** The derived fields of a draft (the taxable amount is an intermediate the form does not store). */
  datatype Totals = Totals(subtotal: real, discountAmount: real, taxableAmount: real, taxAmount: real, total: real)

  // ---------------------------------------------------------------------------------------------
  // The specification of a recompute pass

  /** `(quantity || 0) * (rate || 0)`. */
  function LineAmount(item: LineItem): real {
    OrZero(item.quantity) * OrZero(item.rate)
  }

  /** The `reduce` over the items: the sum of their line amounts (never their stored `amount`). */
  function Subtotal(items: seq<LineItem>): real {
    Listing.Sum(items, LineAmount)
  }

  function DiscountOf(subtotal: real, discountType: DiscountType, discountValue: Option<real>): real {
    match discountType
    case Percentage => subtotal * (OrZero(discountValue) / 100.0)
    case Fixed => OrZero(discountValue)
  }

  function ComputeTotals(items: seq<LineItem>, taxRate: Option<real>, discountType: DiscountType,
                         discountValue: Option<real>): Totals
  {
    var subtotal := Subtotal(items);
    var discount := DiscountOf(subtotal, discountType, discountValue);
    var taxable := subtotal - discount;
    var tax := taxable * (OrZero(taxRate) / 100.0);
    Totals(subtotal, discount, taxable, tax, taxable + tax)
  }

  /** The items with every `amount` overwritten by its line amount (the `forEach` of the effect). */
  function WithAmounts(items: seq<LineItem>): (r: seq<LineItem>)
    ensures |r| == |items|
  {
    seq(|items|, i requires 0 <= i < |items| => items[i].(amount := LineAmount(items[i])))
  }

  /** Two item lists that agree on everything but the stored amounts. */
  predicate SameInputs(a: seq<LineItem>, b: seq<LineItem>) {
    |a| == |b| &&
    forall i :: 0 <= i < |a| ==> a[i].description == b[i].description &&
                                 a[i].quantity == b[i].quantity && a[i].rate == b[i].rate
  }

  // ---------------------------------------------------------------------------------------------
  // Properties of the specification

  /** The subtotal of the empty list is 0, and appending an item adds exactly its line amount. */
  lemma SubtotalAppend(items: seq<LineItem>, item: LineItem)
    ensures Subtotal([]) == 0.0
    ensures Subtotal(items + [item]) == Subtotal(items) + LineAmount(item)
  {
    assert (items + [item])[..|items|] == items;
  }

  /** The stored amounts never feed into the totals: lists with the same inputs have the same totals. */
  lemma {:induction false} SubtotalIgnoresStoredAmounts(a: seq<LineItem>, b: seq<LineItem>)
    requires SameInputs(a, b)
    ensures Subtotal(a) == Subtotal(b)
    decreases |a|
  {
    if a != [] {
      var n := |a| - 1;
      assert SameInputs(a[..n], b[..n]);
      SubtotalIgnoresStoredAmounts(a[..n], b[..n]);
      assert LineAmount(a[n]) == LineAmount(b[n]);
    }
  }

  /** After a pass every stored amount equals its line amount, and the inputs are untouched. */
  lemma WithAmountsCorrect(items: seq<LineItem>)
    ensures SameInputs(items, WithAmounts(items))
    ensures forall i :: 0 <= i < |items| ==> WithAmounts(items)[i].amount ==
                                              OrZero(items[i].quantity) * OrZero(items[i].rate)
  {
  }

  /** After a pass every stored amount is the row's own line amount. */
  lemma WithAmountsStored(items: seq<LineItem>)
    ensures forall i :: 0 <= i < |items| ==> WithAmounts(items)[i].amount == LineAmount(WithAmounts(items)[i])
  {
  }

  /** A second pass changes nothing: the amounts are already right and the totals read only inputs. */
  lemma RecomputeIdempotent(items: seq<LineItem>, taxRate: Option<real>, discountType: DiscountType,
                            discountValue: Option<real>)
    ensures WithAmounts(WithAmounts(items)) == WithAmounts(items)
    ensures ComputeTotals(WithAmounts(items), taxRate, discountType, discountValue) ==
            ComputeTotals(items, taxRate, discountType, discountValue)
  {
    WithAmountsCorrect(items);
    var w := WithAmounts(items);
    assert WithAmounts(w) == w by {
      forall i | 0 <= i < |w| ensures WithAmounts(w)[i] == w[i] {
        assert LineAmount(w[i]) == LineAmount(items[i]);
      }
    }
    SubtotalIgnoresStoredAmounts(w, items);
  }

  /** The order of the rows does not affect the subtotal. */
  lemma SubtotalOrderInvariant(a: seq<LineItem>, b: seq<LineItem>)
    requires multiset(a) == multiset(b)
    ensures Subtotal(a) == Subtotal(b)
  {
    Listing.SumPermutation(a, b, LineAmount);
  }

  /** Removing row `i` lowers the subtotal by exactly that row's line amount. */
  lemma SubtotalRemove(items: seq<LineItem>, i: nat)
    requires i < |items|
    ensures Subtotal(items[..i] + items[i + 1..]) == Subtotal(items) - LineAmount(items[i])
  {
    assert items == items[..i] + [items[i]] + items[i + 1..];
    Listing.SumConcat(items[..i] + [items[i]], items[i + 1..], LineAmount);
    Listing.SumConcat(items[..i], [items[i]], LineAmount);
    Listing.SumConcat(items[..i], items[i + 1..], LineAmount);
    assert [items[i]][..0] == [];
  }

  /** An appended default row is worth nothing, so it leaves every total as it was. */
  lemma AppendDefaultKeepsTotals(items: seq<LineItem>, taxRate: Option<real>, discountType: DiscountType,
                                 discountValue: Option<real>)
    ensures ComputeTotals(items + [DefaultItem], taxRate, discountType, discountValue) ==
            ComputeTotals(items, taxRate, discountType, discountValue)
  {
    SubtotalAppend(items, DefaultItem);
    SameSubtotalSameTotals(items + [DefaultItem], items, taxRate, discountType, discountValue);
  }

  /** The totals depend on the items only through their subtotal. */
  lemma SameSubtotalSameTotals(a: seq<LineItem>, b: seq<LineItem>, taxRate: Option<real>, discountType: DiscountType,
                               discountValue: Option<real>)
    requires Subtotal(a) == Subtotal(b)
    ensures ComputeTotals(a, taxRate, discountType, discountValue) == ComputeTotals(b, taxRate, discountType, discountValue)
  {
  }

  /** The derived fields: a percentage discount scales the subtotal, a fixed one is taken as entered,
      and the total is the taxable amount grown by the tax rate. */
  lemma TotalsEquations(items: seq<LineItem>, taxRate: Option<real>, discountType: DiscountType,
                        discountValue: Option<real>)
    ensures var t := ComputeTotals(items, taxRate, discountType, discountValue);
            && t.subtotal == Subtotal(items)
            && (discountType == Percentage ==> t.discountAmount * 100.0 == t.subtotal * OrZero(discountValue))
            && (discountType == Fixed ==> t.discountAmount == OrZero(discountValue))
            && t.taxableAmount + t.discountAmount == t.subtotal
            && t.total == t.taxableAmount * (1.0 + OrZero(taxRate) / 100.0)
            && t.total - t.taxAmount == t.taxableAmount
  {
    var t := ComputeTotals(items, taxRate, discountType, discountValue);
    var r := OrZero(taxRate) / 100.0;
    assert t.taxAmount == t.taxableAmount * r;
    assert t.taxableAmount * (1.0 + r) == t.taxableAmount + t.taxableAmount * r;
    if discountType == Percentage {
      var v := OrZero(discountValue) / 100.0;
      assert t.discountAmount == t.subtotal * v;
      assert v * 100.0 == OrZero(discountValue);
      assert t.subtotal * v * 100.0 == t.subtotal * (v * 100.0);
    }
  }

  /** With non-negative quantities and rates and a percentage in [0, 100], the discount lies between
      0 and the subtotal, so the taxable amount is never negative. */
  lemma {:induction false} PercentageDiscountBounded(items: seq<LineItem>, taxRate: Option<real>,
                                                     discountValue: Option<real>)
    requires forall i :: 0 <= i < |items| ==> OrZero(items[i].quantity) >= 0.0 && OrZero(items[i].rate) >= 0.0
    requires 0.0 <= OrZero(discountValue) <= 100.0
    ensures var t := ComputeTotals(items, taxRate, Percentage, discountValue);
            0.0 <= t.discountAmount <= t.subtotal && t.taxableAmount >= 0.0
  {
    var s, p := Subtotal(items), OrZero(discountValue);
    SubtotalNonnegative(items);
    PercentOfBounded(s, p);
    var t := ComputeTotals(items, taxRate, Percentage, discountValue);
    assert t.subtotal == s && t.discountAmount == s * (p / 100.0);
    assert t.taxableAmount == t.subtotal - t.discountAmount;
  }

  /** A percentage in [0, 100] of a non-negative amount lies between 0 and the amount. */
  lemma PercentOfBounded(s: real, p: real)
    requires s >= 0.0 && 0.0 <= p <= 100.0
    ensures 0.0 <= s * (p / 100.0) <= s
  {
    var v := p / 100.0;
    assert 0.0 <= v <= 1.0;
    ScaleBetween(s, v, 1.0);
  }

  /** Non-negative quantities and rates give a non-negative subtotal. */
  lemma SubtotalNonnegative(items: seq<LineItem>)
    requires forall i :: 0 <= i < |items| ==> OrZero(items[i].quantity) >= 0.0 && OrZero(items[i].rate) >= 0.0
    ensures Subtotal(items) >= 0.0
  {
    forall x | x in items ensures LineAmount(x) >= 0.0 {
      var i :| 0 <= i < |items| && items[i] == x;
      ScaleBetween(OrZero(x.quantity), OrZero(x.rate), OrZero(x.rate));
    }
    Listing.SumNonnegative(items, LineAmount);
  }

  /** A non-negative amount scaled by a factor in [0, m] stays in [0, amount * m]. */
  lemma ScaleBetween(s: real, v: real, m: real)
    requires s >= 0.0 && 0.0 <= v <= m
    ensures 0.0 <= s * v <= s * m
  {
    assert s * m - s * v == s * (m - v);
  }

  /** The initial draft (one default row, tax 10 %, percentage discount 0) totals 0 throughout. */
  lemma InitialTotalsZero()
    ensures ComputeTotals([DefaultItem], Some(DefaultTaxRate), Percentage, Some(0.0)) ==
            Totals(0.0, 0.0, 0.0, 0.0, 0.0)
  {
    SubtotalAppend([], DefaultItem);
    assert [] + [DefaultItem] == [DefaultItem];
  }

  /** A list holding just the default row already carries its line amount and totals 0. */
  lemma InitialRowRecomputed(items: seq<LineItem>)
    requires items == [DefaultItem]
    ensures ComputeTotals(items, Some(DefaultTaxRate), Percentage, Some(0.0)) == Totals(0.0, 0.0, 0.0, 0.0, 0.0)
    ensures forall i :: 0 <= i < |items| ==> items[i].amount == LineAmount(items[i])
  {
    InitialTotalsZero();
  }

  /** Two units of 50.00 (whatever amount the row still stores), a 10 % discount and 10 % tax:
      subtotal 100, discount 10, tax 9, total 99. */
  lemma PercentageScenario(stale: real)
    ensures ComputeTotals([LineItem("", Some(2.0), Some(50.0), stale)], Some(10.0), Percentage, Some(10.0)) ==
            Totals(100.0, 10.0, 90.0, 9.0, 99.0)
  {
    var row := LineItem("", Some(2.0), Some(50.0), stale);
    SubtotalAppend([], row);
    assert [] + [row] == [row];
  }

  /** A fixed discount of 25 on 200.00 with no tax leaves 175. */
  lemma FixedScenario()
    ensures ComputeTotals([LineItem("", Some(1.0), Some(200.0), 0.0)], Some(0.0), Fixed, Some(25.0)) ==
            Totals(200.0, 25.0, 175.0, 0.0, 175.0)
  {
    SubtotalAppend([], LineItem("", Some(1.0), Some(200.0), 0.0));
    assert [] + [LineItem("", Some(1.0), Some(200.0), 0.0)] == [LineItem("", Some(1.0), Some(200.0), 0.0)];
  }

  /** Rows [1 x 10, 2 x 5, 3 x 2] give 26 in this order and in every other order. */
  lemma MultiItemScenario(perm: seq<LineItem>)
    requires multiset(perm) == multiset([LineItem("", Some(1.0), Some(10.0), 0.0),
                                         LineItem("", Some(2.0), Some(5.0), 0.0),
                                         LineItem("", Some(3.0), Some(2.0), 0.0)])
    ensures Subtotal(perm) == 26.0
  {
    var a := LineItem("", Some(1.0), Some(10.0), 0.0);
    var b := LineItem("", Some(2.0), Some(5.0), 0.0);
    var c := LineItem("", Some(3.0), Some(2.0), 0.0);
    SubtotalAppend([], a);
    assert [] + [a] == [a];
    SubtotalAppend([a], b);
    SubtotalAppend([a, b], c);
    assert [a] + [b] == [a, b] && [a, b] + [c] == [a, b, c];
    SubtotalOrderInvariant(perm, [a, b, c]);
  }

  /** Empty quantity and rate fields count as zero rather than failing. */
  lemma EmptyFieldsCountAsZero(description: string, stale: real)
    ensures LineAmount(LineItem(description, None, None, stale)) == 0.0
    ensures LineAmount(LineItem(description, None, Some(stale), stale)) == 0.0
  {
  }

  /** A fixed discount above the subtotal is not clamped: 10.00 less 25 with 10 % tax totals -16.50. */
  lemma NegativeTotalNotClamped()
    ensures var t := ComputeTotals([LineItem("", Some(1.0), Some(10.0), 0.0)], Some(10.0), Fixed, Some(25.0));
            t.taxableAmount == -15.0 && t.total == -16.5
  {
    SubtotalAppend([], LineItem("", Some(1.0), Some(10.0), 0.0));
    assert [] + [LineItem("", Some(1.0), Some(10.0), 0.0)] == [LineItem("", Some(1.0), Some(10.0), 0.0)];
  }

  // ---------------------------------------------------------------------------------------------
  // The invoice number and dates of a new draft

  /** `INV-` followed by the last six digits of the clock value. */
  function InvoiceNumber(now: nat): string {
    "INV-" + Text.TakeLast(Text.NatToDecimal(now), 6)
  }

  /** The invoice number is `INV-` and at most six digits, and those digits read back as the clock
      value modulo one million. */
  lemma InvoiceNumberFormat(now: nat)
    ensures var r := InvoiceNumber(now);
            4 < |r| <= 10 && r[..4] == "INV-" && Text.AllDigits(r[4..]) &&
            Text.DecimalValue(r[4..]) == now % 1000000
  {
    var digits := Text.NatToDecimal(now);
    Text.TakeLastValue(digits, 6);
    Text.DecimalRoundTrip(now);
    assert Text.Pow10(6) == 1000000;
    var r := InvoiceNumber(now);
    assert r[4..] == Text.TakeLast(digits, 6);
  }

  /** `toISOString().split('T')[0]`: the calendar-date part of an ISO-8601 timestamp. */
  function DatePart(iso: string): (r: string)
    ensures Text.IsPrefix(r, iso) && 'T' !in r
    ensures |r| < |iso| ==> iso[|r|] == 'T'
  {
    Text.BeforeFirst(iso, 'T')
  }

  // ---------------------------------------------------------------------------------------------
  // The e-mail check /^\S+@\S+$/: simulated as the automaton the pattern denotes

  /** Positions in the pattern: before the first `\S`, inside the first `\S+`, just after `@`,
      inside the second `\S+` (accepting). */
  datatype EmailState = Start | Local | AfterAt | Domain

  function EmailStep(states: set<EmailState>, c: char): set<EmailState> {
    if Text.IsWhitespace(c) then {}
    else (if Start in states then {Local} else {}) +
         (if Local in states then {Local} + (if c == '@' then {AfterAt} else {}) else {}) +
         (if AfterAt in states || Domain in states then {Domain} else {})
  }

  function EmailRun(s: string): set<EmailState> {
    if s == [] then {Start} else EmailStep(EmailRun(s[..|s| - 1]), s[|s| - 1])
  }

  /** The pattern matches `s`. */
  predicate MatchesEmailPattern(s: string) {
    Domain in EmailRun(s)
  }

  predicate NoWhitespace(s: string) {
    forall i :: 0 <= i < |s| ==> !Text.IsWhitespace(s[i])
  }

  /** Some `@` in `s` has at least one character on each side. */
  predicate HasInnerAt(s: string) {
    exists i :: 0 < i < |s| - 1 && s[i] == '@'
  }

  lemma {:induction false} EmailRunStates(s: string)
    ensures !NoWhitespace(s) ==> EmailRun(s) == {}
    ensures NoWhitespace(s) ==>
              && (Start in EmailRun(s) <==> s == [])
              && (Local in EmailRun(s) <==> |s| >= 1)
              && (AfterAt in EmailRun(s) <==> |s| >= 2 && s[|s| - 1] == '@')
              && (Domain in EmailRun(s) <==> HasInnerAt(s))
  {
    if s != [] {
      var p, c := s[..|s| - 1], s[|s| - 1];
      EmailRunStates(p);
      if NoWhitespace(s) {
        assert NoWhitespace(p) by {
          forall i | 0 <= i < |p| ensures !Text.IsWhitespace(p[i]) { assert p[i] == s[i]; }
        }
        if HasInnerAt(s) {
          var i :| 0 < i < |s| - 1 && s[i] == '@';
          if i < |p| - 1 {
            assert p[i] == '@';
          }
        }
        if HasInnerAt(p) {
          var i :| 0 < i < |p| - 1 && p[i] == '@';
          assert s[i] == '@';
        }
        if AfterAt in EmailRun(p) {
          assert s[|p| - 1] == '@';
        }
      } else if !Text.IsWhitespace(c) {
        assert !NoWhitespace(p) by {
          var i :| 0 <= i < |s| && Text.IsWhitespace(s[i]);
          assert i < |p| && p[i] == s[i];
        }
      }
    }
  }

  /** The pattern accepts exactly the strings without white space that have an `@` with at least one
      character before it and one after it. */
  lemma EmailPatternIff(s: string)
    ensures MatchesEmailPattern(s) <==> NoWhitespace(s) && HasInnerAt(s)
  {
    EmailRunStates(s);
  }

  /** The validation message of the e-mail field, `None` when the field is accepted. */
  function EmailError(s: string): (r: Option<string>)
    ensures r == None <==> NoWhitespace(s) && HasInnerAt(s)
    ensures s == "" ==> r == Some("Email is required")
  {
    EmailPatternIff(s);
    if s == "" then Some("Email is required")
    else if !MatchesEmailPattern(s) then Some("Invalid email address")
    else None
  }

  // ---------------------------------------------------------------------------------------------
  // The draft, updated in place

  class InvoiceDraft {
    var invoiceNumber: string
    var issueDate: string
    var dueDate: string
    var items: array<LineItem>
    var taxRate: Option<real>
    var discountType: DiscountType
    var discountValue: Option<real>
    var subtotal: real
    var discountAmount: real
    var taxAmount: real
    var total: real

    /** The form never lets the item list become empty. */
    ghost predicate Valid()
      reads this
    {
      items.Length >= 1
    }

    /** The derived fields agree with the inputs, as they do right after a recompute pass. */
    ghost predicate Recomputed()
      reads this, items
    {
      var t := ComputeTotals(items[..], taxRate, discountType, discountValue);
      && subtotal == t.subtotal && discountAmount == t.discountAmount
      && taxAmount == t.taxAmount && total == t.total
      && forall i :: 0 <= i < items.Length ==> items[i].amount == LineAmount(items[i])
    }

    /** A new draft: one default row, tax rate 10, a percentage discount of 0, invoice number and
        dates taken from the clock value `now` (`isoOf` renders a clock value as an ISO-8601 string).
        The totals are those of the first recompute pass after the form mounts. */
    constructor (now: nat, isoOf: nat -> string)
      ensures Valid() && Recomputed() && fresh(items)
      ensures items[..] == [DefaultItem]
      ensures taxRate == Some(DefaultTaxRate) && discountType == Percentage && discountValue == Some(0.0)
      ensures subtotal == 0.0 && total == 0.0
      ensures invoiceNumber == InvoiceNumber(now)
      ensures issueDate == DatePart(isoOf(now)) && dueDate == DatePart(isoOf(now + ThirtyDaysMs))
    {
      invoiceNumber := InvoiceNumber(now);
      issueDate := DatePart(isoOf(now));
      dueDate := DatePart(isoOf(now + ThirtyDaysMs));
      var a := new LineItem[1];
      a[0] := DefaultItem;
      items := a;
      taxRate := Some(DefaultTaxRate);
      discountType := Percentage;
      discountValue := Some(0.0);
      subtotal, discountAmount, taxAmount, total := 0.0, 0.0, 0.0, 0.0;
      new;
      assert items[..] == [DefaultItem];
      InitialRowRecomputed(items[..]);
    }

    /** One recompute pass: sum the line amounts, derive discount, tax and total, then overwrite
        every row's amount in place. */
    method Recompute()
      modifies items, this`subtotal, this`discountAmount, this`taxAmount, this`total
      ensures items[..] == WithAmounts(old(items[..]))
      ensures var t := ComputeTotals(old(items[..]), taxRate, discountType, discountValue);
              subtotal == t.subtotal && discountAmount == t.discountAmount &&
              taxAmount == t.taxAmount && total == t.total
      ensures Recomputed()
      ensures old(Recomputed()) ==> (items[..] == old(items[..]) && subtotal == old(subtotal) &&
              discountAmount == old(discountAmount) && taxAmount == old(taxAmount) && total == old(total))
    {
      var sum := SumLineAmounts();
      var discount := DiscountOf(sum, discountType, discountValue);
      var taxable := sum - discount;
      var tax := taxable * (OrZero(taxRate) / 100.0);
      subtotal, discountAmount, taxAmount, total := sum, discount, tax, taxable + tax;
      ghost var before := items[..];
      assert ComputeTotals(before, taxRate, discountType, discountValue) == Totals(sum, discount, taxable, tax, total);
      StoreLineAmounts();
      RecomputeIdempotent(before, taxRate, discountType, discountValue);
      WithAmountsStored(before);
      if old(Recomputed()) {
        assert WithAmounts(before) == before;
      }
    }

    /** The subtotal: the line amounts summed over the rows, in order. */
    method SumLineAmounts() returns (sum: real)
      ensures sum == Subtotal(items[..])
    {
      sum := 0.0;
      var i := 0;
      while i < items.Length
        invariant 0 <= i <= items.Length
        invariant sum == Subtotal(items[..i])
      {
        SubtotalAppend(items[..i], items[i]);
        assert items[..i + 1] == items[..i] + [items[i]];
        sum := sum + LineAmount(items[i]);
        i := i + 1;
      }
      assert items[..i] == items[..];
    }

    /** Every row's stored amount overwritten with its line amount, in place. */
    method StoreLineAmounts()
      modifies items
      ensures items[..] == WithAmounts(old(items[..]))
    {
      var j := 0;
      while j < items.Length
        invariant 0 <= j <= items.Length
        invariant forall k :: 0 <= k < j ==> items[k] == old(items[k]).(amount := LineAmount(old(items[k])))
        invariant forall k :: j <= k < items.Length ==> items[k] == old(items[k])
      {
        items[j] := items[j].(amount := LineAmount(items[j]));
        j := j + 1;
      }
    }

    /** "Add Item": a default row at the end; the other rows are unchanged. */
    method AppendItem()
      requires Valid()
      modifies this`items
      ensures Valid() && fresh(items)
      ensures items[..] == old(items[..]) + [DefaultItem]
    {
      var src := items;
      var a := new LineItem[src.Length + 1];
      var i := 0;
      while i < src.Length
        invariant 0 <= i <= src.Length
        invariant forall k :: 0 <= k < i ==> a[k] == src[k]
      {
        a[i] := src[i];
        i := i + 1;
      }
      a[src.Length] := DefaultItem;
      assert a[..] == src[..] + [DefaultItem];
      items := a;
    }

    /** The delete button of row `index`; it is offered only while there is more than one row, so
        with a single row nothing happens. */
    method RemoveItem(index: nat) returns (removed: bool)
      requires Valid() && index < items.Length
      modifies this`items
      ensures Valid()
      ensures removed <==> old(items.Length) > 1
      ensures removed ==> fresh(items) && items[..] == old(items[..])[..index] + old(items[..])[index + 1..]
      ensures !removed ==> items == old(items)
    {
      removed := items.Length > 1;
      if removed {
        var src := items;
        var a := new LineItem[src.Length - 1];
        var i := 0;
        while i < a.Length
          invariant 0 <= i <= a.Length
          invariant forall k :: 0 <= k < i && k < index ==> a[k] == src[k]
          invariant forall k :: index <= k < i ==> a[k] == src[k + 1]
        {
          a[i] := if i < index then src[i] else src[i + 1];
          i := i + 1;
        }
        assert a[..] == src[..][..index] + src[..][index + 1..];
        items := a;
      }
    }

    /** Typing into the description, quantity or rate field of row `index`; the stored amount stays
        stale until the next recompute pass. */
    method EditItem(index: nat, description: string, quantity: Option<real>, rate: Option<real>)
      requires index < items.Length
      modifies items
      ensures items[..] == old(items[..])[index := LineItem(description, quantity, rate, old(items[index].amount))]
    {
      items[index] := LineItem(description, quantity, rate, items[index].amount);
    }

    /** Changing the tax rate or the discount inputs. */
    method SetAdjustments(newTaxRate: Option<real>, newDiscountType: DiscountType, newDiscountValue: Option<real>)
      modifies this`taxRate, this`discountType, this`discountValue
      ensures taxRate == newTaxRate && discountType == newDiscountType && discountValue == newDiscountValue
    {
      taxRate, discountType, discountValue := newTaxRate, newDiscountType, newDiscountValue;
    }
  }

  /** A one-row draft edited to two units of 50.00 at a 10 % discount and 10 % tax totals 99.00
      after a recompute pass. */
  method EditAndRecompute(draft: InvoiceDraft)
    requires draft.Valid() && draft.items.Length == 1
    modifies draft, draft.items
    ensures draft.subtotal == 100.0 && draft.discountAmount == 10.0 && draft.total == 99.0
  {
    draft.EditItem(0, "", Some(2.0), Some(50.0));
    assert draft.items[..] == [LineItem("", Some(2.0), Some(50.0), old(draft.items[0].amount))];
    draft.SetAdjustments(Some(10.0), Percentage, Some(10.0));
    draft.Recompute();
    PercentageScenario(old(draft.items[0].amount));
  }

  /** Appending a row and recomputing leaves the totals of a recomputed draft as they were. */
  method AppendAndRecompute(draft: InvoiceDraft)
    requires draft.Valid() && draft.Recomputed()
    modifies draft, draft.items
    ensures draft.Valid() && draft.Recomputed()
    ensures draft.subtotal == old(draft.subtotal) && draft.total == old(draft.total)
  {
    draft.AppendItem();
    AppendDefaultKeepsTotals(old(draft.items[..]), draft.taxRate, draft.discountType, draft.discountValue);
    draft.Recompute();
  }
}
