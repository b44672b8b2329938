/**
 * The list operations every table page is built from: `Array#filter`, the `reduce` that sums a
 * numeric column, `filter(...).length` counts, the "all or exact" dropdown filters, and the
 * sequential identifiers (`PREFIX-` plus a zero-padded counter) that the create dialogs assign.
 */
module Listing {
  import Text

  // ---------------------------------------------------------------------------------------------
  // filter

  /** `s.filter(p)`: the elements of `s` that satisfy `p`, in their original order. */
  function Filter<T>(s: seq<T>, p: T -> bool): (r: seq<T>)
    ensures |r| <= |s|
  {
    if s == [] then [] else (if p(s[0]) then [s[0]] else []) + Filter(s[1..], p)
  }

  /** The filter keeps exactly the elements of `s` that satisfy `p`. */
  lemma {:induction false} FilterMembers<T>(s: seq<T>, p: T -> bool)
    ensures forall x :: x in Filter(s, p) ==> x in s && p(x)
    ensures forall x :: x in s && p(x) ==> x in Filter(s, p)
  {
    if s != [] {
      FilterMembers(s[1..], p);
      assert s == [s[0]] + s[1..];
    }
  }

  /** Filtering a list of three keeps each of the three exactly when it satisfies `p`. */
  lemma FilterThree<T>(a: T, b: T, c: T, p: T -> bool)
    ensures Filter([a, b, c], p) == (if p(a) then [a] else []) + (if p(b) then [b] else []) + (if p(c) then [c] else [])
  {
    FilterCons(c, [], p);
    assert [c] + [] == [c];
    FilterCons(b, [c], p);
    assert [b] + [c] == [b, c];
    FilterCons(a, [b, c], p);
    assert [a] + [b, c] == [a, b, c];
  }

  /** Filtering a list with a head: the head is kept exactly when it satisfies `p`. */
  lemma FilterCons<T>(x: T, s: seq<T>, p: T -> bool)
    ensures Filter([x] + s, p) == (if p(x) then [x] else []) + Filter(s, p)
  {
    assert ([x] + s)[1..] == s;
  }

  /** When every element but the last satisfies `p` and the last does not, the filter drops just
      the last. */
  lemma {:induction false} FilterDropsLast<T>(s: seq<T>, p: T -> bool)
    requires |s| > 0 && !p(s[|s| - 1])
    requires forall i :: 0 <= i < |s| - 1 ==> p(s[i])
    ensures Filter(s, p) == s[..|s| - 1]
  {
    if |s| == 1 {
      assert s[1..] == [];
    } else {
      var tail := s[1..];
      assert forall i :: 0 <= i < |tail| - 1 ==> p(tail[i]) by {
        assert forall i :: 0 <= i < |tail| ==> tail[i] == s[i + 1];
      }
      FilterDropsLast(tail, p);
      assert p(s[0]);
      assert s[..|s| - 1] == [s[0]] + tail[..|tail| - 1];
    }
  }

  function Not<T>(p: T -> bool): T -> bool {
    x => !p(x)
  }

  /** Filtering a concatenation filters each part: the kept elements stay in their input order. */
  lemma {:induction false} FilterConcat<T>(s: seq<T>, t: seq<T>, p: T -> bool)
    ensures Filter(s + t, p) == Filter(s, p) + Filter(t, p)
  {
    if s == [] {
      assert s + t == t;
    } else {
      var head := if p(s[0]) then [s[0]] else [];
      assert (s + t)[0] == s[0] && (s + t)[1..] == s[1..] + t;
      FilterConcat(s[1..], t, p);
      calc {
        Filter(s + t, p);
        head + Filter(s[1..] + t, p);
        head + (Filter(s[1..], p) + Filter(t, p));
        (head + Filter(s[1..], p)) + Filter(t, p);
        Filter(s, p) + Filter(t, p);
      }
    }
  }

  /** Every occurrence of a kept value survives, and no occurrence of a dropped one does. */
  lemma {:induction false} FilterMultiset<T>(s: seq<T>, p: T -> bool, x: T)
    ensures multiset(Filter(s, p))[x] == if p(x) then multiset(s)[x] else 0
  {
    if s != [] {
      FilterMultiset(s[1..], p, x);
      assert s == [s[0]] + s[1..];
    }
  }

  /** A filter that rejects nothing returns its input. */
  lemma {:induction false} FilterKeepsAll<T>(s: seq<T>, p: T -> bool)
    requires forall x :: x in s ==> p(x)
    ensures Filter(s, p) == s
  {
    if s != [] {
      FilterKeepsAll(s[1..], p);
    }
  }

  /** Filtering by a stronger condition after a weaker one is filtering by the stronger one. */
  lemma {:induction false} FilterRefines<T>(s: seq<T>, p: T -> bool, q: T -> bool)
    requires forall x :: p(x) ==> q(x)
    ensures Filter(Filter(s, q), p) == Filter(s, p)
  {
    if s != [] {
      FilterRefines(s[1..], p, q);
      var fq := Filter(s, q);
      if q(s[0]) {
        assert fq == [s[0]] + Filter(s[1..], q);
        assert fq != [] && fq[0] == s[0] && fq[1..] == Filter(s[1..], q);
      } else {
        assert !p(s[0]);
        assert fq == Filter(s[1..], q);
        assert Filter(s, p) == Filter(s[1..], p);
      }
    }
  }

  /** Two conditions that agree on every element filter the same. */
  lemma {:induction false} FilterAgrees<T>(s: seq<T>, p: T -> bool, q: T -> bool)
    requires forall x :: x in s ==> p(x) == q(x)
    ensures Filter(s, p) == Filter(s, q)
  {
    if s != [] {
      assert forall x :: x in s[1..] ==> x in s;
      FilterAgrees(s[1..], p, q);
    }
  }

  /** The kept and the dropped elements together are all of them. */
  lemma {:induction false} FilterPartitionCount<T>(s: seq<T>, p: T -> bool)
    ensures |Filter(s, p)| + |Filter(s, Not(p))| == |s|
  {
    if s != [] {
      FilterPartitionCount(s[1..], p);
    }
  }

  // ---------------------------------------------------------------------------------------------
  // reduce((sum, x) => sum + f(x), 0)

  /** The left-to-right sum of `f` over `s`, as `reduce` with the start value 0 computes it. */
  function Sum<T>(s: seq<T>, f: T -> real): real {
    if s == [] then 0.0 else Sum(s[..|s| - 1], f) + f(s[|s| - 1])
  }

  lemma {:induction false} SumConcat<T>(s: seq<T>, t: seq<T>, f: T -> real)
    ensures Sum(s + t, f) == Sum(s, f) + Sum(t, f)
    decreases |t|
  {
    if t == [] {
      assert s + t == s;
    } else {
      assert (s + t)[..|s + t| - 1] == s + t[..|t| - 1];
      SumConcat(s, t[..|t| - 1], f);
    }
  }

  /** The sum over an explicit list of four. */
  lemma SumFour<T>(a: T, b: T, c: T, d: T, f: T -> real)
    ensures Sum([a, b, c, d], f) == f(a) + f(b) + f(c) + f(d)
  {
    assert [a][..0] == [];
    assert Sum([a], f) == f(a);
    assert [a, b][..1] == [a];
    assert Sum([a, b], f) == f(a) + f(b);
    assert [a, b, c][..2] == [a, b];
    assert Sum([a, b, c], f) == f(a) + f(b) + f(c);
    assert [a, b, c, d][..3] == [a, b, c];
  }

  lemma SumCons<T>(x: T, s: seq<T>, f: T -> real)
    ensures Sum([x] + s, f) == f(x) + Sum(s, f)
  {
    SumConcat([x], s, f);
    assert [x][..0] == [];
  }

  /** The sum over the kept elements plus the sum over the rest is the whole sum. */
  lemma {:induction false} SumPartition<T>(s: seq<T>, p: T -> bool, f: T -> real)
    ensures Sum(Filter(s, p), f) + Sum(Filter(s, Not(p)), f) == Sum(s, f)
  {
    if s != [] {
      var x, tail := s[0], s[1..];
      SumPartition(tail, p, f);
      assert s == [x] + tail;
      SumCons(x, tail, f);
      var keep, drop := Filter(tail, p), Filter(tail, Not(p));
      if p(x) {
        assert Filter(s, p) == [x] + keep;
        assert !Not(p)(x);
        assert Filter(s, Not(p)) == drop;
        SumCons(x, keep, f);
      } else {
        assert Filter(s, p) == keep;
        assert Not(p)(x);
        assert Filter(s, Not(p)) == [x] + drop;
        SumCons(x, drop, f);
      }
    }
  }

  lemma {:induction false} SumNonnegative<T>(s: seq<T>, f: T -> real)
    requires forall x :: x in s ==> f(x) >= 0.0
    ensures Sum(s, f) >= 0.0
  {
    if s != [] {
      SumNonnegative(s[..|s| - 1], f);
    }
  }

  /** With non-negative terms, the sum over a filtered part never exceeds the whole sum. */
  lemma {:induction false} SumFilterAtMost<T>(s: seq<T>, p: T -> bool, f: T -> real)
    requires forall x :: x in s ==> f(x) >= 0.0
    ensures Sum(Filter(s, p), f) <= Sum(s, f)
  {
    SumPartition(s, p, f);
    FilterMembers(s, Not(p));
    SumNonnegative(Filter(s, Not(p)), f);
  }

  /** The sum does not depend on the order of the terms. */
  lemma {:induction false} SumPermutation<T>(s: seq<T>, t: seq<T>, f: T -> real)
    requires multiset(s) == multiset(t)
    ensures Sum(s, f) == Sum(t, f)
    decreases |s|
  {
    if s != [] {
      var j := MatchHead(s, t);
      var rest := t[..j] + t[j + 1..];
      SumPermutation(s[1..], rest, f);
      assert s == [s[0]] + s[1..];
      SumCons(s[0], s[1..], f);
      SumRemoveAt(t, j, f);
    }
  }

  /** The first element of `s` sits at some position `j` of a permutation `t`, and the rests are
      permutations of each other. */
  lemma MatchHead<T>(s: seq<T>, t: seq<T>) returns (j: nat)
    requires s != [] && multiset(s) == multiset(t)
    ensures j < |t| && t[j] == s[0]
    ensures multiset(s[1..]) == multiset(t[..j] + t[j + 1..])
  {
    assert s[0] in multiset(t);
    j :| 0 <= j < |t| && t[j] == s[0];
    MultisetRemoveAt(t, j);
    assert multiset(s[1..]) == multiset(s) - multiset{s[0]} by {
      assert s == [s[0]] + s[1..];
    }
  }

  lemma MultisetRemoveAt<T>(t: seq<T>, j: nat)
    requires j < |t|
    ensures multiset(t[..j] + t[j + 1..]) == multiset(t) - multiset{t[j]}
  {
    var a, x, b := t[..j], t[j], t[j + 1..];
    assert t == (a + [x]) + b;
    assert multiset(t) == multiset(a) + multiset{x} + multiset(b);
  }

  /** Taking one term out of the sum. */
  lemma SumRemoveAt<T>(t: seq<T>, j: nat, f: T -> real)
    requires j < |t|
    ensures Sum(t, f) == f(t[j]) + Sum(t[..j] + t[j + 1..], f)
  {
    SumMiddle(t, t[..j], t[j], t[j + 1..], f);
  }

  lemma SumMiddle<T>(t: seq<T>, a: seq<T>, x: T, b: seq<T>, f: T -> real)
    requires t == (a + [x]) + b
    ensures Sum(t, f) == f(x) + Sum(a + b, f)
  {
    assert Sum(a + [x], f) == Sum(a, f) + f(x) by {
      assert (a + [x])[..|a + [x]| - 1] == a;
    }
    SumConcat(a + [x], b, f);
    SumConcat(a, b, f);
  }

  // ---------------------------------------------------------------------------------------------
  // Dropdown filters

  /** A dropdown filter: the value "all" lets every row through, any other value only rows equal to it. */
  predicate Selects(filter: string, value: string) {
    filter == "all" || value == filter
  }

  // ---------------------------------------------------------------------------------------------
  // Sequential identifiers

  /** `${prefix}${String(count + 1).padStart(3, '0')}`: the identifier of the next record. */
  function NextId(prefix: string, count: nat): (r: string)
    ensures |r| >= |prefix| + 3 && r[..|prefix|] == prefix
    ensures Text.AllDigits(r[|prefix|..])
    ensures var d := Text.NatToDecimal(count + 1);
            |r| == |prefix| + (if |d| >= 3 then |d| else 3)
  {
    var digits := Text.NatToDecimal(count + 1);
    var padded := Text.PadStartZeros(digits, 3);
    Text.DecimalValueLeadingZeros(|padded| - |digits|, digits);
    assert (prefix + padded)[|prefix|..] == padded;
    prefix + padded
  }

  /** Below ten records the identifier is the prefix, two zeros and one digit. */
  lemma NextIdOneDigit(prefix: string, count: nat)
    requires count < 9
    ensures NextId(prefix, count) == prefix + "00" + [Text.DigitChar(count + 1)]
  {
    assert Text.NatToDecimal(count + 1) == [Text.DigitChar(count + 1)];
    assert Text.Zeros(2) == "00";
  }

  /** The numeric part of a generated identifier reads back as `count + 1`. */
  lemma NextIdReadsBack(prefix: string, count: nat)
    ensures var r := NextId(prefix, count);
            Text.DecimalValue(r[|prefix|..]) == count + 1
  {
    var digits := Text.NatToDecimal(count + 1);
    var padded := Text.PadStartZeros(digits, 3);
    assert (prefix + padded)[|prefix|..] == padded;
    Text.DecimalValueLeadingZeros(|padded| - |digits|, digits);
    Text.DecimalRoundTrip(count + 1);
  }

  /** Different record counts never produce the same identifier. */
  lemma NextIdInjective(prefix: string, m: nat, n: nat)
    requires NextId(prefix, m) == NextId(prefix, n)
    ensures m == n
  {
    NextIdReadsBack(prefix, m);
    NextIdReadsBack(prefix, n);
  }

  /** Every record carries the identifier its position was created with: the state of a list that
      only ever grows through a create dialog. */
  predicate SequentialIds<T>(s: seq<T>, id: T -> string, prefix: string) {
    forall k :: 0 <= k < |s| ==> id(s[k]) == NextId(prefix, k)
  }

  /** Appending a record with the next identifier keeps the identifiers sequential, and that
      identifier is new: no earlier record has it. */
  lemma AppendNextId<T>(s: seq<T>, x: T, id: T -> string, prefix: string)
    requires SequentialIds(s, id, prefix) && id(x) == NextId(prefix, |s|)
    ensures SequentialIds(s + [x], id, prefix)
    ensures forall k :: 0 <= k < |s| ==> id(s[k]) != id(x)
  {
    forall k | 0 <= k < |s| ensures id(s[k]) != id(x) {
      if id(s[k]) == id(x) {
        NextIdInjective(prefix, k, |s|);
      }
    }
    forall k | 0 <= k < |s + [x]| ensures id((s + [x])[k]) == NextId(prefix, k) {
      if k < |s| {
        assert (s + [x])[k] == s[k];
      }
    }
  }
}
