/**
 Score aggregation: the per-token ratings of a message are combined into one
 score with the combined-odds formula `product / (product + alt_product)`;
 a list of more than 20 ratings is first sorted and cut down to its 10 lowest
 and 10 highest values.
 */
module Aggregation {
  import opened Reals

  /** The number of ratings above which the list is cut down. */
  const MaxRatings: nat := 20

  /** How many ratings are kept at each end of the sorted list. */
  const KeptAtEachEnd: nat := 10

  /** Every rating is a probability strictly between 0 and 1, as the per-token ratings are. */
  predicate AllOpenUnit(rs: seq<real>) {
    forall i :: 0 <= i < |rs| ==> 0.0 < rs[i] < 1.0
  }

  predicate Sorted(rs: seq<real>) {
    forall i, j :: 0 <= i < j < |rs| ==> rs[i] <= rs[j]
  }

  /** The factor a rating contributes to a product: the rating itself, or its complement `1.0 - r`. */
  function Factor(r: real, complement: bool): real {
    if complement then 1.0 - r else r
  }

  /** The product of the factors of all ratings, multiplied in list order. */
  function ProductOf(rs: seq<real>, complement: bool): real
  {
    if rs == [] then 1.0 else Factor(rs[0], complement) * ProductOf(rs[1..], complement)
  }

  /** `ratings.iter().product()`. */
  function Product(rs: seq<real>): real { ProductOf(rs, false) }

  /** `ratings.iter().map(|x| 1.0 - x).product()`. */
  function AltProduct(rs: seq<real>): real { ProductOf(rs, true) }

  /** Inserts `x` before the first element that is not smaller than it. */
  function Insert(x: real, s: seq<real>): seq<real>
  {
    if s == [] then [x]
    else if x <= s[0] then [x] + s
    else [s[0]] + Insert(x, s[1..])
  }

  /** The ascending sort of the ratings (`sort_unstable_by` with `partial_cmp`). */
  function Sort(rs: seq<real>): (r: seq<real>)
    ensures Sorted(r)
    ensures multiset(r) == multiset(rs)
    ensures |r| == |rs|
  {
    if rs == [] then []
    else
      assert rs == [rs[0]] + rs[1..];
      InsertMultiset(rs[0], Sort(rs[1..]));
      InsertSorted(rs[0], Sort(rs[1..]));
      Insert(rs[0], Sort(rs[1..]))
  }

  /**
   The ratings that enter the formula: the list itself when it holds at most
   20 ratings, otherwise the 10 lowest followed by the 10 highest of its
   ascending sort.
   */
  function SelectExtremes(rs: seq<real>): (kept: seq<real>)
    ensures |rs| <= MaxRatings ==> kept == rs
    ensures |rs| > MaxRatings ==> |kept| == 2 * KeptAtEachEnd && Sorted(kept)
    ensures multiset(kept) <= multiset(rs)
    ensures |rs| > MaxRatings ==>
      forall x :: x in multiset(rs) - multiset(kept) ==> kept[KeptAtEachEnd - 1] <= x <= kept[KeptAtEachEnd]
  {
    if |rs| > MaxRatings then
      var s := Sort(rs);
      ExtremesOfSorted(s);
      Ends(s)
    else
      rs
  }

  /** The first 10 and the last 10 elements of a list. */
  function Ends(s: seq<real>): seq<real>
    requires |s| >= 2 * KeptAtEachEnd
  {
    s[..KeptAtEachEnd] + s[|s| - KeptAtEachEnd..]
  }

  /** `product / (product + alt_product)` over a non-empty list of probabilities. */
  function Combine(rs: seq<real>): (r: real)
    requires rs != [] && AllOpenUnit(rs)
    ensures 0.0 < r < 1.0
  {
    var product := Product(rs);
    var altProduct := AltProduct(rs);
    ProductPositive(rs, false);
    ProductPositive(rs, true);
    Fraction(product, altProduct);
    product / (product + altProduct)
  }

  /** The score of a list of ratings: exactly 0.0 for no ratings. */
  function Score(rs: seq<real>): (r: real)
    requires AllOpenUnit(rs)
    ensures rs == [] ==> r == 0.0
    ensures rs != [] ==> 0.0 < r < 1.0
  {
    if rs == [] then 0.0
    else
      var kept := SelectExtremes(rs);
      SubMultisetOpenUnit(kept, rs);
      Combine(kept)
  }

  // ---------------------------------------------------------------------------
  // Lemmas
  // ---------------------------------------------------------------------------

  lemma SubMultisetOpenUnit(kept: seq<real>, rs: seq<real>)
    requires AllOpenUnit(rs) && multiset(kept) <= multiset(rs)
    ensures AllOpenUnit(kept)
  {
    forall i | 0 <= i < |kept| ensures 0.0 < kept[i] < 1.0 {
      assert kept[i] in multiset(kept);
      assert kept[i] in rs;
    }
  }

  lemma {:induction false} ProductPositive(rs: seq<real>, complement: bool)
    requires AllOpenUnit(rs)
    ensures ProductOf(rs, complement) > 0.0
  {
    if rs != [] {
      ProductPositive(rs[1..], complement);
      MulPositive(Factor(rs[0], complement), ProductOf(rs[1..], complement));
    }
  }

  lemma Fraction(p: real, q: real)
    requires p > 0.0 && q > 0.0
    ensures 0.0 < p / (p + q) < 1.0
  {
    var x := p / (p + q);
    assert x * (p + q) == p;
    if x >= 1.0 {
      MulNonNegative(x - 1.0, p + q);
    }
    if x <= 0.0 {
      MulNonNegative(-x, p + q);
    }
  }

  /** Insertion adds exactly the one element. */
  lemma {:induction false} InsertMultiset(x: real, s: seq<real>)
    ensures multiset(Insert(x, s)) == multiset(s) + multiset{x}
    ensures |Insert(x, s)| == |s| + 1
  {
    if s != [] && x > s[0] {
      assert s == [s[0]] + s[1..];
      InsertMultiset(x, s[1..]);
    }
  }

  /** Inserting into a sorted list keeps it sorted; the head is the smaller of `x` and the old head. */
  lemma {:induction false} InsertSorted(x: real, s: seq<real>)
    requires Sorted(s)
    ensures Sorted(Insert(x, s))
    ensures Insert(x, s)[0] == if s == [] || x <= s[0] then x else s[0]
  {
    if s == [] {
    } else if x <= s[0] {
      SortedCons(x, s);
    } else {
      var t := Insert(x, s[1..]);
      InsertSorted(x, s[1..]);
      assert s[0] <= t[0];
      forall i | 0 <= i < |t| ensures s[0] <= t[i] {
        assert t[0] <= t[i];
      }
      SortedCons(s[0], t);
    }
  }

  lemma SortedCons(x: real, s: seq<real>)
    requires Sorted(s)
    requires forall i :: 0 <= i < |s| ==> x <= s[i]
    ensures Sorted([x] + s)
  {
    var r := [x] + s;
    forall i, j | 0 <= i < j < |r| ensures r[i] <= r[j] {
      if i > 0 {
        assert r[i] == s[i - 1] && r[j] == s[j - 1];
      } else {
        assert r[j] == s[j - 1];
      }
    }
  }

  /** The 10 lowest and the 10 highest of a sorted list are sorted, and everything left out lies between them. */
  lemma ExtremesOfSorted(s: seq<real>)
    requires Sorted(s) && |s| > MaxRatings
    ensures Sorted(Ends(s))
    ensures multiset(Ends(s)) <= multiset(s)
    ensures forall x :: x in multiset(s) - multiset(Ends(s)) ==> Ends(s)[KeptAtEachEnd - 1] <= x <= Ends(s)[KeptAtEachEnd]
  {
    ExtremesSorted(s);
    EndsSubMultiset(s);
    LeftOutBetween(s);
  }

  lemma EndsSubMultiset(s: seq<real>)
    requires |s| >= MaxRatings
    ensures multiset(Ends(s)) <= multiset(s)
  {
    ThreeParts(s, KeptAtEachEnd, |s| - KeptAtEachEnd);
  }

  lemma LeftOutBetween(s: seq<real>)
    requires Sorted(s) && |s| > MaxRatings
    ensures forall x :: x in multiset(s) - multiset(Ends(s)) ==> Ends(s)[KeptAtEachEnd - 1] <= x <= Ends(s)[KeptAtEachEnd]
  {
    forall x | x in multiset(s) - multiset(Ends(s))
      ensures Ends(s)[KeptAtEachEnd - 1] <= x <= Ends(s)[KeptAtEachEnd]
    {
      MiddleBetween(s, x);
    }
  }

  /** Cutting a list in three parts splits its multiset in three. */
  lemma ThreeParts(s: seq<real>, i: nat, j: nat)
    requires i <= j <= |s|
    ensures multiset(s) == multiset(s[..i] + s[j..]) + multiset(s[i..j])
  {
    assert s == s[..i] + s[i..j] + s[j..];
  }

  lemma ExtremesSorted(s: seq<real>)
    requires Sorted(s) && |s| > MaxRatings
    ensures Sorted(Ends(s))
  {
    var n := |s|;
    var kept := Ends(s);
    forall i, j | 0 <= i < j < |kept| ensures kept[i] <= kept[j] {
      var si := if i < KeptAtEachEnd then i else n - 2 * KeptAtEachEnd + i;
      var sj := if j < KeptAtEachEnd then j else n - 2 * KeptAtEachEnd + j;
      assert kept[i] == s[si] && kept[j] == s[sj];
    }
  }

  lemma MiddleBetween(s: seq<real>, x: real)
    requires Sorted(s) && |s| > MaxRatings
    requires x in multiset(s) - multiset(Ends(s))
    ensures Ends(s)[KeptAtEachEnd - 1] == s[KeptAtEachEnd - 1] <= x
    ensures x <= s[|s| - KeptAtEachEnd] == Ends(s)[KeptAtEachEnd]
  {
    var n := |s|;
    var middle := s[KeptAtEachEnd..n - KeptAtEachEnd];
    LeftOutInMiddle(s, x);
    var k :| 0 <= k < |middle| && middle[k] == x;
    assert x == s[KeptAtEachEnd + k];
  }

  /** What the ends leave out of a list lies in its middle part. */
  lemma LeftOutInMiddle(s: seq<real>, x: real)
    requires |s| > MaxRatings
    requires x in multiset(s) - multiset(Ends(s))
    ensures x in s[KeptAtEachEnd..|s| - KeptAtEachEnd]
  {
    var middle := s[KeptAtEachEnd..|s| - KeptAtEachEnd];
    ThreeParts(s, KeptAtEachEnd, |s| - KeptAtEachEnd);
    assert multiset(s)[x] == multiset(Ends(s))[x] + multiset(middle)[x];
    assert multiset(middle)[x] > 0;
  }

  lemma MultisetTail<T>(a: seq<T>)
    requires a != []
    ensures multiset(a[1..]) == multiset(a) - multiset{a[0]}
  {
    assert a == [a[0]] + a[1..];
  }

  /** Taking out the element at index `i` takes it out of the multiset. */
  lemma MultisetRemove<T>(b: seq<T>, i: nat)
    requires i < |b|
    ensures multiset(b[..i] + b[i + 1..]) == multiset(b) - multiset{b[i]}
  {
    assert b == b[..i] + [b[i]] + b[i + 1..];
  }

  /** Taking one rating out of the list divides its factor out of the product. */
  lemma {:induction false} ProductRemove(b: seq<real>, i: nat, complement: bool)
    requires i < |b|
    ensures ProductOf(b, complement) == Factor(b[i], complement) * ProductOf(b[..i] + b[i + 1..], complement)
  {
    if i == 0 {
      assert b[..0] + b[1..] == b[1..];
    } else {
      var tail := b[1..];
      ProductRemove(tail, i - 1, complement);
      var restOfTail := tail[..i - 1] + tail[i..];
      assert b[..i] + b[i + 1..] == [b[0]] + restOfTail;
      assert ([b[0]] + restOfTail)[1..] == restOfTail;
      Reorder(Factor(b[0], complement), Factor(b[i], complement), ProductOf(restOfTail, complement));
    }
  }

  /** Both products do not depend on the order of the ratings. */
  lemma {:induction false} ProductPermutation(a: seq<real>, b: seq<real>, complement: bool)
    requires multiset(a) == multiset(b)
    ensures ProductOf(a, complement) == ProductOf(b, complement)
  {
    if a == [] {
      assert |b| == |multiset(b)| == 0;
    } else {
      var i := MatchHead(a, b);
      ProductPermutation(a[1..], b[..i] + b[i + 1..], complement);
      ProductRemove(b, i, complement);
    }
  }

  /** The head of a list, found in a permutation of it; what is left of both are permutations again. */
  lemma MatchHead(a: seq<real>, b: seq<real>) returns (i: nat)
    requires a != [] && multiset(a) == multiset(b)
    ensures i < |b| && b[i] == a[0]
    ensures multiset(a[1..]) == multiset(b[..i] + b[i + 1..])
  {
    assert a[0] in multiset(b);
    i :| 0 <= i < |b| && b[i] == a[0];
    MultisetTail(a);
    MultisetRemove(b, i);
  }

  lemma SortedHeadIsLeast(a: seq<real>, x: real)
    requires Sorted(a) && x in multiset(a)
    ensures a[0] <= x
  {
    var j :| 0 <= j < |a| && a[j] == x;
  }

  lemma SortedTail(a: seq<real>)
    requires Sorted(a) && a != []
    ensures Sorted(a[1..])
  {
    forall i, j | 0 <= i < j < |a| - 1 ensures a[1..][i] <= a[1..][j] {
      assert a[1..][i] == a[i + 1] && a[1..][j] == a[j + 1];
    }
  }

  /** Two sorted lists with the same elements are equal, so an unstable sort gives the same list as a stable one. */
  lemma {:induction false} SortedUnique(a: seq<real>, b: seq<real>)
    requires Sorted(a) && Sorted(b) && multiset(a) == multiset(b)
    ensures a == b
  {
    if a == [] {
      assert |b| == |multiset(b)| == 0;
    } else {
      SortedSameHead(a, b);
      SortedUnique(a[1..], b[1..]);
      SameHeadSameTail(a, b);
    }
  }

  lemma SortedSameHead(a: seq<real>, b: seq<real>)
    requires Sorted(a) && Sorted(b) && multiset(a) == multiset(b) && a != []
    ensures b != [] && a[0] == b[0]
    ensures Sorted(a[1..]) && Sorted(b[1..]) && multiset(a[1..]) == multiset(b[1..])
  {
    assert a[0] in multiset(b);
    SortedHeadIsLeast(a, b[0]);
    SortedHeadIsLeast(b, a[0]);
    MultisetTail(a);
    MultisetTail(b);
    SortedTail(a);
    SortedTail(b);
  }

  lemma SameHeadSameTail(a: seq<real>, b: seq<real>)
    requires a != [] && b != [] && a[0] == b[0] && a[1..] == b[1..]
    ensures a == b
  {
    assert a == [a[0]] + a[1..] && b == [b[0]] + b[1..];
  }

  /** The combined-odds formula does not depend on the order of the ratings. */
  lemma CombinePermutation(a: seq<real>, b: seq<real>)
    requires a != [] && AllOpenUnit(a) && AllOpenUnit(b) && multiset(a) == multiset(b)
    ensures b != [] && Combine(a) == Combine(b)
  {
    assert a[0] in multiset(b);
    ProductPermutation(a, b, false);
    ProductPermutation(a, b, true);
  }

  /** Permuting the ratings does not change which ratings enter the formula, up to order. */
  lemma SelectExtremesPermutation(a: seq<real>, b: seq<real>)
    requires multiset(a) == multiset(b)
    ensures |a| == |b|
    ensures multiset(SelectExtremes(a)) == multiset(SelectExtremes(b))
  {
    assert |a| == |multiset(a)| == |multiset(b)| == |b|;
    if |a| > MaxRatings {
      SortedUnique(Sort(a), Sort(b));
    }
  }

  /** The score of a message does not depend on the order of its ratings. */
  lemma ScorePermutation(a: seq<real>, b: seq<real>)
    requires AllOpenUnit(a) && AllOpenUnit(b) && multiset(a) == multiset(b)
    ensures Score(a) == Score(b)
  {
    SelectExtremesPermutation(a, b);
    if a != [] {
      var keptA, keptB := SelectExtremes(a), SelectExtremes(b);
      SubMultisetOpenUnit(keptA, a);
      SubMultisetOpenUnit(keptB, b);
      assert keptA != [] by {
        if |a| <= MaxRatings { assert keptA == a; }
      }
      CombinePermutation(keptA, keptB);
      assert Score(a) == Combine(keptA);
      assert Score(b) == Combine(keptB);
    }
  }

  /** A list of at most 20 ratings is scored on all of them, in any order. */
  lemma ScoreOfShortList(rs: seq<real>)
    requires rs != [] && AllOpenUnit(rs) && |rs| <= MaxRatings
    ensures Product(rs) > 0.0 && AltProduct(rs) > 0.0
    ensures Score(rs) == Product(rs) / (Product(rs) + AltProduct(rs))
  {
    ProductPositive(rs, false);
    ProductPositive(rs, true);
  }

  /**
   A list of more than 20 ratings scores as the formula over any arrangement
   of its 10 lowest and 10 highest values.
   */
  lemma ScoreOfLongList(rs: seq<real>, extremes: seq<real>)
    requires AllOpenUnit(rs) && |rs| > MaxRatings
    requires multiset(extremes) == multiset(Ends(Sort(rs)))
    ensures AllOpenUnit(extremes) && extremes != []
    ensures Score(rs) == Combine(extremes)
  {
    var kept := SelectExtremes(rs);
    assert kept == Ends(Sort(rs));
    SubMultisetOpenUnit(kept, rs);
    SubMultisetOpenUnit(extremes, rs);
    assert |kept| == 2 * KeptAtEachEnd;
    assert kept[0] in multiset(extremes);
    CombinePermutation(kept, extremes);
    assert Score(rs) == Combine(kept);
  }

  /** The score exceeds one half exactly when the product of the ratings exceeds the product of their complements. */
  lemma CombineAboveHalfIff(rs: seq<real>)
    requires rs != [] && AllOpenUnit(rs)
    ensures Combine(rs) > 0.5 <==> Product(rs) > AltProduct(rs)
  {
    ProductPositive(rs, false);
    ProductPositive(rs, true);
    ShareAboveHalfIff(Product(rs), AltProduct(rs));
    assert Product(rs) + AltProduct(rs) == AltProduct(rs) + Product(rs);
  }

  /** When every rating's factor is below its complementary factor, so is the product. */
  lemma {:induction false} ProductsOrdered(rs: seq<real>, complement: bool)
    requires rs != [] && AllOpenUnit(rs)
    requires forall i :: 0 <= i < |rs| ==> Factor(rs[i], complement) < Factor(rs[i], !complement)
    ensures ProductOf(rs, complement) < ProductOf(rs, !complement)
  {
    var tail := rs[1..];
    assert AllOpenUnit(tail);
    if tail == [] {
      assert ProductOf(tail, complement) == ProductOf(tail, !complement) == 1.0;
    } else {
      assert forall i :: 0 <= i < |tail| ==> Factor(tail[i], complement) < Factor(tail[i], !complement) by {
        forall i | 0 <= i < |tail| ensures Factor(tail[i], complement) < Factor(tail[i], !complement) {
          assert tail[i] == rs[i + 1];
        }
      }
      ProductsOrdered(tail, complement);
    }
    ProductPositive(tail, complement);
    MulLess(Factor(rs[0], complement), Factor(rs[0], !complement), ProductOf(tail, complement), ProductOf(tail, !complement));
  }

  /** The ratings that enter the formula of a non-empty list are non-empty probabilities taken from the list. */
  lemma KeptRatings(rs: seq<real>)
    requires rs != [] && AllOpenUnit(rs)
    ensures SelectExtremes(rs) != [] && AllOpenUnit(SelectExtremes(rs))
    ensures forall x :: x in SelectExtremes(rs) ==> x in rs
    ensures Score(rs) == Combine(SelectExtremes(rs))
  {
    var kept := SelectExtremes(rs);
    SubMultisetOpenUnit(kept, rs);
    assert kept != [] by {
      if |rs| <= MaxRatings { assert kept == rs; }
    }
    forall x | x in kept ensures x in rs {
      assert x in multiset(kept);
    }
  }

  lemma CombineBelowHalf(rs: seq<real>)
    requires rs != [] && AllOpenUnit(rs)
    requires forall i :: 0 <= i < |rs| ==> rs[i] < 0.5
    ensures Combine(rs) < 0.5
  {
    ProductsOrdered(rs, false);
    ProductPositive(rs, false);
    ShareBelowHalf(Product(rs), AltProduct(rs));
  }

  /** A non-empty message whose ratings all lean to ham scores below one half. */
  lemma ScoreBelowHalf(rs: seq<real>)
    requires rs != [] && AllOpenUnit(rs)
    requires forall i :: 0 <= i < |rs| ==> rs[i] < 0.5
    ensures Score(rs) < 0.5
  {
    var kept := SelectExtremes(rs);
    KeptRatings(rs);
    forall i | 0 <= i < |kept| ensures kept[i] < 0.5 {
      assert kept[i] in kept;
    }
    CombineBelowHalf(kept);
  }

  /** A non-empty message whose ratings all lean to spam scores above one half. */
  lemma ScoreAboveHalf(rs: seq<real>)
    requires rs != [] && AllOpenUnit(rs)
    requires forall i :: 0 <= i < |rs| ==> rs[i] > 0.5
    ensures Score(rs) > 0.5
  {
    var kept := SelectExtremes(rs);
    KeptRatings(rs);
    forall i | 0 <= i < |kept| ensures Factor(kept[i], true) < Factor(kept[i], false) {
      assert kept[i] in kept;
    }
    ProductsOrdered(kept, true);
    CombineAboveHalfIff(kept);
  }
}
