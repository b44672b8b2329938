/**
 * The product form's helpers: the URL-slug and SKU builders, the duplicate-free tag and keyword
 * lists, the image list, and the profit analysis shown under the prices.
 */
module ProductCreate {
  import opened Wrappers
  import Text
  import Listing

  // ---------------------------------------------------------------------------------------------
  // URL slug: toLowerCase, every run of characters outside [a-z0-9] becomes one '-', then a
  // leading and a trailing '-' are removed

  predicate IsSlugChar(c: char) {
    Text.IsLowerLetter(c) || Text.IsDigit(c)
  }

  predicate SlugAlphabet(s: string) {
    forall i :: 0 <= i < |s| ==> IsSlugChar(s[i]) || s[i] == '-'
  }

  predicate NoDoubleDash(s: string) {
    forall i :: 0 <= i < |s| - 1 ==> s[i] != '-' || s[i + 1] != '-'
  }

  predicate NoEdgeDash(s: string) {
    s == [] || (s[0] != '-' && s[|s| - 1] != '-')
  }

  /** The shape every generated slug has. */
  predicate IsSlug(s: string) {
    SlugAlphabet(s) && NoDoubleDash(s) && NoEdgeDash(s)
  }

  /** `replace(/[^a-z0-9]+/g, '-')`; `inRun` says the previous character was already replaced. */
  function ReplaceRuns(s: string, inRun: bool): (r: string)
    ensures SlugAlphabet(r) && NoDoubleDash(r)
    ensures inRun ==> r == [] || r[0] != '-'
    ensures |r| <= |s|
  {
    if s == [] then []
    else if IsSlugChar(s[0]) then [s[0]] + ReplaceRuns(s[1..], false)
    else if inRun then ReplaceRuns(s[1..], true)
    else ['-'] + ReplaceRuns(s[1..], true)
  }

  /** `replace(/(^-|-$)/g, '')`. */
  function StripEdgeDashes(s: string): (r: string)
    ensures |r| <= |s|
    ensures SlugAlphabet(s) && NoDoubleDash(s) ==> IsSlug(r)
  {
    var a := if |s| > 0 && s[0] == '-' then s[1..] else s;
    var b := if |a| > 0 && a[|a| - 1] == '-' then a[..|a| - 1] else a;
    assert SlugAlphabet(s) && NoDoubleDash(s) ==> SlugAlphabet(a) && NoDoubleDash(a) by {
      if |s| > 0 && s[0] == '-' {
        assert forall i :: 0 <= i < |a| ==> a[i] == s[i + 1];
      }
    }
    b
  }

  function Slug(name: string): (r: string)
    ensures IsSlug(r) && |r| <= |name|
  {
    StripEdgeDashes(ReplaceRuns(Text.ToLower(name), false))
  }

  /** The letters and digits of a string, in order. */
  function SlugChars(s: string): string {
    Listing.Filter(s, IsSlugChar)
  }

  lemma {:induction false} ReplaceRunsKeepsSlugChars(s: string, inRun: bool)
    ensures SlugChars(ReplaceRuns(s, inRun)) == SlugChars(s)
  {
    if s != [] {
      ReplaceRunsKeepsSlugChars(s[1..], false);
      ReplaceRunsKeepsSlugChars(s[1..], true);
      var rest := if IsSlugChar(s[0]) then ReplaceRuns(s[1..], false) else ReplaceRuns(s[1..], true);
      if IsSlugChar(s[0]) || !inRun {
        var r := ReplaceRuns(s, inRun);
        assert r == [r[0]] + rest;
        assert r[1..] == rest;
      }
    }
  }

  /** The slug keeps every letter and digit of the lower-cased name, in order, and nothing else
      but single dashes between them. */
  lemma SlugKeepsLettersAndDigits(name: string)
    ensures SlugChars(Slug(name)) == SlugChars(Text.ToLower(name))
  {
    ReplaceRunsKeepsSlugChars(Text.ToLower(name), false);
    StripEdgeDashesKeepsSlugChars(ReplaceRuns(Text.ToLower(name), false));
  }

  /** Removing an edge dash removes no letter or digit. */
  lemma StripEdgeDashesKeepsSlugChars(s: string)
    ensures SlugChars(StripEdgeDashes(s)) == SlugChars(s)
  {
    var a := if |s| > 0 && s[0] == '-' then s[1..] else s;
    var b := if |a| > 0 && a[|a| - 1] == '-' then a[..|a| - 1] else a;
    assert SlugChars(a) == SlugChars(s) by {
      if |s| > 0 && s[0] == '-' {
        assert s == ['-'] + a;
        Listing.FilterCons('-', a, IsSlugChar);
        assert [] + SlugChars(a) == SlugChars(a);
      }
    }
    assert SlugChars(b) == SlugChars(a) by {
      if |a| > 0 && a[|a| - 1] == '-' {
        assert a == b + ['-'];
        Listing.FilterConcat(b, ['-'], IsSlugChar);
        Listing.FilterCons('-', [], IsSlugChar);
        assert ['-'] + [] == ['-'];
        assert SlugChars(b) + [] == SlugChars(b);
      }
    }
    assert StripEdgeDashes(s) == b;
  }

  lemma {:induction false} ReplaceRunsOfSlugShape(s: string, inRun: bool)
    requires SlugAlphabet(s) && NoDoubleDash(s)
    requires inRun ==> s == [] || s[0] != '-'
    ensures ReplaceRuns(s, inRun) == s
  {
    if s != [] {
      assert SlugAlphabet(s[1..]) && NoDoubleDash(s[1..]) by {
        assert forall i :: 0 <= i < |s[1..]| ==> s[1..][i] == s[i + 1];
      }
      if IsSlugChar(s[0]) {
        ReplaceRunsOfSlugShape(s[1..], false);
      } else {
        assert |s| > 1 ==> s[1] != '-';
        ReplaceRunsOfSlugShape(s[1..], true);
      }
    }
  }

  /** A slug is its own slug, so regenerating from a generated slug changes nothing. */
  lemma SlugIdempotent(s: string)
    requires IsSlug(s)
    ensures Slug(s) == s
  {
    assert Text.ToLower(s) == s;
    ReplaceRunsOfSlugShape(s, false);
  }

  lemma SlugOfSlug(name: string)
    ensures Slug(Slug(name)) == Slug(name)
  {
    SlugIdempotent(Slug(name));
  }

  /** A name without letters or digits gives the empty slug, "!!!" for one. */
  lemma SlugOfPunctuation(name: string)
    requires SlugChars(Text.ToLower(name)) == []
    ensures Slug(name) == ""
    ensures Slug("!!!") == ""
  {
    SlugKeepsLettersAndDigits(name);
    SlugStartsWithSlugChar(Slug(name));
    assert Text.ToLower("!!!") == "!!!";
  }

  /** A non-empty slug starts with a letter or a digit, so it has one. */
  lemma SlugStartsWithSlugChar(s: string)
    requires IsSlug(s)
    ensures s != [] ==> |SlugChars(s)| > 0
  {
    if s != [] {
      Listing.FilterMembers(s, IsSlugChar);
      assert s[0] in SlugChars(s);
    }
  }

  // ---------------------------------------------------------------------------------------------
  // SKU: the upper-cased name without anything outside [A-Z0-9], cut to six characters, a '-',
  // and the last four digits of the clock value

  predicate IsSkuChar(c: char) {
    Text.IsUpperLetter(c) || Text.IsDigit(c)
  }

  /** `name.toUpperCase().replace(/[^A-Z0-9]/g, '').substring(0, 6)`. */
  function SkuPrefix(name: string): (r: string)
    ensures |r| <= 6 && forall i :: 0 <= i < |r| ==> IsSkuChar(r[i])
    ensures Text.IsPrefix(r, Listing.Filter(Text.ToUpper(name), IsSkuChar))
    ensures |r| == 6 || r == Listing.Filter(Text.ToUpper(name), IsSkuChar)
  {
    var kept := Listing.Filter(Text.ToUpper(name), IsSkuChar);
    Listing.FilterMembers(Text.ToUpper(name), IsSkuChar);
    if |kept| <= 6 then kept else kept[..6]
  }

  function Sku(name: string, now: nat): string {
    SkuPrefix(name) + "-" + Text.TakeLast(Text.NatToDecimal(now), 4)
  }

  /** An SKU splits back at its only '-' into the name part and the clock digits. */
  lemma SkuSplits(name: string, now: nat)
    ensures var p := SkuPrefix(name);
            && Text.BeforeFirst(Sku(name, now), '-') == p
            && Sku(name, now)[|p|] == '-'
            && Sku(name, now)[|p| + 1..] == Text.TakeLast(Text.NatToDecimal(now), 4)
  {
    var p := SkuPrefix(name);
    var tail := Text.TakeLast(Text.NatToDecimal(now), 4);
    var sku := p + "-" + tail;
    assert sku == Sku(name, now);
    assert sku == p + ("-" + tail);
    assert sku[|p|] == '-' && sku[|p| + 1..] == tail;
    assert '-' !in p;
    BeforeFirstOfPrefix(p, "-" + tail);
  }

  /** The clock part has at most four digits and reads back as the clock value modulo 10000. */
  lemma SkuClockDigits(name: string, now: nat)
    ensures var t := Sku(name, now)[|SkuPrefix(name)| + 1..];
            |t| <= 4 && Text.AllDigits(t) && Text.DecimalValue(t) == now % 10000
  {
    SkuSplits(name, now);
    var digits := Text.NatToDecimal(now);
    Text.TakeLastValue(digits, 4);
    Text.DecimalRoundTrip(now);
    assert Text.Pow10(4) == 10000;
  }

  lemma {:induction false} BeforeFirstOfPrefix(p: string, rest: string)
    requires '-' !in p && |rest| > 0 && rest[0] == '-'
    ensures Text.BeforeFirst(p + rest, '-') == p
  {
    if p == [] {
      assert p + rest == rest;
    } else {
      assert (p + rest)[1..] == p[1..] + rest;
      BeforeFirstOfPrefix(p[1..], rest);
      assert p == [p[0]] + p[1..];
    }
  }

  // ---------------------------------------------------------------------------------------------
  // Tag and keyword lists

  predicate NoDuplicates(s: seq<string>) {
    forall i, j :: 0 <= i < j < |s| ==> s[i] != s[j]
  }

  /** The shape the form keeps its tag and keyword lists in: trimmed, non-blank, duplicate-free. */
  predicate IsEntryList(s: seq<string>) {
    NoDuplicates(s) && forall i :: 0 <= i < |s| ==> s[i] != "" && Text.IsTrimmed(s[i])
  }

  /** `list.includes(x) ? list : [...list, x]`. */
  function AddUnique(list: seq<string>, x: string): (r: seq<string>)
    ensures x in r
    ensures x in list ==> r == list
    ensures x !in list ==> r == list + [x]
  {
    if x in list then list else list + [x]
  }

  /** The entries that are not `x`. */
  function Other(x: string): string -> bool {
    y => y != x
  }

  /** `list.filter(y => y !== x)`. */
  function RemoveAll(list: seq<string>, x: string): seq<string> {
    Listing.Filter(list, Other(x))
  }

  /** What "add" does with the typed input: a non-blank input is trimmed and added unless already
      present; the new list and the new input are returned. A blank input changes nothing. */
  function AddEntry(list: seq<string>, input: string): (seq<string>, string) {
    var t := Text.Trim(input);
    if t == "" then (list, input) else (AddUnique(list, t), "")
  }

  /** The list grows by exactly the trimmed input iff that is non-blank and new; the input is cleared
      iff it is non-blank; and the list keeps its shape. */
  lemma AddEntryCorrect(list: seq<string>, input: string)
    requires IsEntryList(list)
    ensures var (l, i) := AddEntry(list, input); var t := Text.Trim(input);
            && (l == list + [t] <==> t != "" && t !in list)
            && (l != list ==> l == list + [t])
            && (i == "" <==> t != "" || input == "")
            && IsEntryList(l)
  {
    var t := Text.Trim(input);
    if t == "" {
      if input != "" {
        assert Text.IsWhitespace(input[0]);
      }
    } else if t !in list {
      AppendKeepsEntryList(list, t);
    }
  }

  lemma AddEntryKeepsShape(list: seq<string>, input: string)
    requires IsEntryList(list)
    ensures IsEntryList(AddEntry(list, input).0)
  {
    AddEntryCorrect(list, input);
  }

  /** A trimmed, non-blank, new entry keeps the shape of the list it is appended to. */
  lemma AppendKeepsEntryList(list: seq<string>, t: string)
    requires IsEntryList(list) && t != "" && Text.IsTrimmed(t) && t !in list
    ensures IsEntryList(list + [t])
  {
    var l := list + [t];
    assert forall i :: 0 <= i < |list| ==> l[i] == list[i];
    assert l[|list|] == t;
  }

  /** Removing drops every entry equal to `x` and keeps the others in order; in a duplicate-free
      list that is exactly the one position holding `x`. */
  lemma RemoveAllCorrect(list: seq<string>, x: string)
    ensures x !in RemoveAll(list, x)
    ensures forall y :: y != x ==> multiset(RemoveAll(list, x))[y] == multiset(list)[y]
    ensures forall i :: 0 <= i < |list| && list[i] == x && NoDuplicates(list) ==>
              RemoveAll(list, x) == list[..i] + list[i + 1..]
    ensures x !in list ==> RemoveAll(list, x) == list
  {
    var p := Other(x);
    Listing.FilterMembers(list, p);
    forall y | y != x ensures multiset(RemoveAll(list, x))[y] == multiset(list)[y] {
      Listing.FilterMultiset(list, p, y);
    }
    forall i | 0 <= i < |list| && list[i] == x && NoDuplicates(list)
      ensures RemoveAll(list, x) == list[..i] + list[i + 1..]
    {
      RemoveAllAt(list, x, i);
    }
    if x !in list {
      Listing.FilterKeepsAll(list, p);
    }
  }

  /** In a duplicate-free list, removing the entry at position `i` removes just that position. */
  lemma RemoveAllAt(list: seq<string>, x: string, i: nat)
    requires i < |list| && list[i] == x && NoDuplicates(list)
    ensures RemoveAll(list, x) == list[..i] + list[i + 1..]
  {
    var p := Other(x);
    var before, after := list[..i], list[i + 1..];
    assert Listing.Filter(before, p) == before by {
      forall y | y in before ensures p(y) {
        var k :| 0 <= k < |before| && before[k] == y;
        assert list[k] == y;
      }
      Listing.FilterKeepsAll(before, p);
    }
    assert Listing.Filter([x] + after, p) == after by {
      forall y | y in after ensures p(y) {
        var k :| 0 <= k < |after| && after[k] == y;
        assert list[i + 1 + k] == y;
      }
      Listing.FilterKeepsAll(after, p);
      Listing.FilterCons(x, after, p);
      assert !p(x) && [] + after == after;
    }
    assert list == before + ([x] + after);
    Listing.FilterConcat(before, [x] + after, p);
  }

  lemma {:induction false} RemoveAllKeepsShape(list: seq<string>, x: string)
    requires IsEntryList(list)
    ensures IsEntryList(RemoveAll(list, x))
  {
    if list != [] {
      var tail := list[1..];
      assert IsEntryList(tail) by {
        forall i, j | 0 <= i < j < |tail| ensures tail[i] != tail[j] {
          assert tail[i] == list[i + 1] && tail[j] == list[j + 1];
        }
        forall i | 0 <= i < |tail| ensures tail[i] != "" && Text.IsTrimmed(tail[i]) {
          assert tail[i] == list[i + 1];
        }
      }
      RemoveAllKeepsShape(tail, x);
      var rest := RemoveAll(tail, x);
      Listing.FilterMembers(tail, Other(x));
      assert list[0] !in rest;
      if list[0] != x {
        var r := [list[0]] + rest;
        assert RemoveAll(list, x) == r;
        forall i, j | 0 <= i < j < |r| ensures r[i] != r[j] {
          if i == 0 {
            assert r[j] == rest[j - 1];
          } else {
            assert r[i] == rest[i - 1] && r[j] == rest[j - 1];
          }
        }
        forall i | 0 <= i < |r| ensures r[i] != "" && Text.IsTrimmed(r[i]) {
          if i > 0 {
            assert r[i] == rest[i - 1];
          }
        }
      }
    }
  }

  // ---------------------------------------------------------------------------------------------
  // Images

  /** A chosen file; only its identity matters here. */
  datatype Upload = Upload(fileName: string, size: nat)

  /** `s.filter((_, i) => i !== index)`. */
  function DropIndex<T>(s: seq<T>, index: int): (r: seq<T>)
    ensures r == if 0 <= index < |s| then s[..index] + s[index + 1..] else s
  {
    if s == [] then []
    else
      var init := DropIndex(s[..|s| - 1], index);
      var r := init + (if index == |s| - 1 then [] else [s[|s| - 1]]);
      assert 0 <= index < |s| - 1 ==> s[..|s| - 1][..index] == s[..index] &&
                                        s[..|s| - 1][index + 1..] + [s[|s| - 1]] == s[index + 1..];
      r
  }

  // ---------------------------------------------------------------------------------------------
  // Profit analysis

  datatype Analysis = Analysis(profit: real, margin: real, markup: real)

  /** Shown only when both prices are set and positive (an unset price is `None`). */
  function ProfitAnalysis(cost: Option<real>, selling: Option<real>): (r: Option<Analysis>)
    ensures r.Some? <==> cost.Some? && selling.Some? && cost.value > 0.0 && selling.value > 0.0
  {
    if cost.Some? && selling.Some? && cost.value > 0.0 && selling.value > 0.0 then
      var profit := selling.value - cost.value;
      Some(Analysis(profit, profit / selling.value * 100.0, profit / cost.value * 100.0))
    else None
  }

  /** The margin is always below 100 %, and margin and markup recover the prices from each other:
      cost = selling * (1 - margin / 100) and selling = cost * (1 + markup / 100). */
  lemma ProfitAnalysisProperties(cost: real, selling: real)
    requires cost > 0.0 && selling > 0.0
    ensures var a := ProfitAnalysis(Some(cost), Some(selling)).value;
            && a.profit == selling - cost
            && a.margin < 100.0
            && (a.profit > 0.0 <==> a.margin > 0.0) && (a.profit > 0.0 <==> a.markup > 0.0)
            && cost == selling * (1.0 - a.margin / 100.0)
            && selling == cost * (1.0 + a.markup / 100.0)
            && (a.profit > 0.0 ==> a.markup > a.margin)
  {
    var profit := selling - cost;
    var qs, qc := profit / selling, profit / cost;
    Ratio(profit, selling);
    Ratio(profit, cost);
    if profit > 0.0 {
      RatioToSmallerBase(profit, cost, selling);
    }
  }

  /** A positive amount is a larger share of the smaller of two bases. */
  lemma RatioToSmallerBase(amount: real, small: real, large: real)
    requires amount > 0.0 && 0.0 < small < large
    ensures amount / small > amount / large
  {
    var qs, ql := amount / small, amount / large;
    assert qs * small == amount && ql * large == amount;
    assert ql > 0.0;
    Scale(small, large, ql);
    assert small * ql < large * ql;
    assert ql * small < qs * small;
    Scale(qs, ql, small);
  }

  /** The ratio of an amount to a positive base: it gives the amount back, has the amount's sign,
      and is below 1 when the amount is below the base. */
  lemma Ratio(amount: real, base: real)
    requires base > 0.0
    ensures (amount / base) * base == amount
    ensures amount > 0.0 <==> amount / base > 0.0
    ensures amount < base ==> amount / base < 1.0
  {
    var q := amount / base;
    assert q * base == amount && 0.0 * base == 0.0;
    Scale(0.0, q, base);
    Scale(q, 0.0, base);
    if amount < base {
      Scale(1.0, q, base);
      assert 1.0 * base == base;
    }
  }

  /** Multiplying by a positive factor keeps a strict order. */
  lemma Scale(a: real, b: real, c: real)
    requires c > 0.0
    ensures a < b ==> a * c < b * c
    ensures a <= b ==> a * c <= b * c
  {
  }

  lemma ProfitAnalysisExample()
    ensures ProfitAnalysis(Some(45.0), Some(89.99)).Some?
    ensures ProfitAnalysis(Some(45.0), Some(90.0)) == Some(Analysis(45.0, 50.0, 100.0))
    ensures ProfitAnalysis(None, Some(90.0)) == None && ProfitAnalysis(Some(0.0), Some(90.0)) == None
  {
  }

  // ---------------------------------------------------------------------------------------------
  // The form

  class ProductForm {
    var name: string
    var sku: string
    var urlSlug: string
    var tags: seq<string>
    var searchKeywords: seq<string>
    var tagInput: string
    var keywordInput: string
    var images: seq<Upload>

    ghost predicate Valid()
      reads this
    {
      IsEntryList(tags) && IsEntryList(searchKeywords)
    }

    /** The empty form. */
    constructor ()
      ensures Valid()
      ensures name == "" && sku == "" && urlSlug == "" && tags == [] && searchKeywords == []
      ensures tagInput == "" && keywordInput == "" && images == []
    {
      name, sku, urlSlug := "", "", "";
      tags, searchKeywords := [], [];
      tagInput, keywordInput := "", "";
      images := [];
    }

    /** "Generate" next to the SKU field; with an empty name nothing happens. */
    method GenerateSku(now: nat)
      modifies this`sku
      ensures name != "" ==> sku == Sku(name, now)
      ensures name == "" ==> sku == old(sku)
    {
      if name != "" {
        sku := SkuPrefix(name) + "-" + Text.TakeLast(Text.NatToDecimal(now), 4);
      }
    }

    /** "Generate" next to the slug field; with an empty name nothing happens. */
    method GenerateSlug()
      modifies this`urlSlug
      ensures name != "" ==> urlSlug == Slug(name)
      ensures name == "" ==> urlSlug == old(urlSlug)
      ensures old(IsSlug(urlSlug)) || name != "" ==> IsSlug(urlSlug)
    {
      if name != "" {
        urlSlug := StripEdgeDashes(ReplaceRuns(Text.ToLower(name), false));
      }
    }

    method AddTag()
      requires Valid()
      modifies this`tags, this`tagInput
      ensures Valid()
      ensures (tags, tagInput) == AddEntry(old(tags), old(tagInput))
    {
      AddEntryKeepsShape(tags, tagInput);
      var t := Text.Trim(tagInput);
      if t != "" {
        if t !in tags {
          tags := tags + [t];
        }
        tagInput := "";
      }
    }

    method RemoveTag(tag: string)
      requires Valid()
      modifies this`tags
      ensures Valid()
      ensures tags == RemoveAll(old(tags), tag)
    {
      RemoveAllKeepsShape(tags, tag);
      tags := Listing.Filter(tags, y => y != tag);
    }

    method AddKeyword()
      requires Valid()
      modifies this`searchKeywords, this`keywordInput
      ensures Valid()
      ensures (searchKeywords, keywordInput) == AddEntry(old(searchKeywords), old(keywordInput))
    {
      AddEntryKeepsShape(searchKeywords, keywordInput);
      var t := Text.Trim(keywordInput);
      if t != "" {
        if t !in searchKeywords {
          searchKeywords := searchKeywords + [t];
        }
        keywordInput := "";
      }
    }

    method RemoveKeyword(keyword: string)
      requires Valid()
      modifies this`searchKeywords
      ensures Valid()
      ensures searchKeywords == RemoveAll(old(searchKeywords), keyword)
    {
      RemoveAllKeepsShape(searchKeywords, keyword);
      searchKeywords := Listing.Filter(searchKeywords, y => y != keyword);
    }

    /** The chosen files are appended after the ones already there. */
    method AddImages(files: seq<Upload>)
      modifies this`images
      ensures images == old(images) + files
    {
      images := images + files;
    }

    /** The remove button on image `index`: only that image goes, the rest keep their order. */
    method RemoveImage(index: int)
      modifies this`images
      ensures images == DropIndex(old(images), index)
      ensures 0 <= index < |old(images)| ==> images == old(images)[..index] + old(images)[index + 1..]
      ensures !(0 <= index < |old(images)|) ==> images == old(images)
    {
      images := DropIndex(images, index);
    }
  }
}
