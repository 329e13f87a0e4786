/**
 * Weight series and `normalize_weights` (src/backtester.py:195-202).
 * A pandas Series of weights indexed by fund name is a sequence of
 * labelled entries; clipping and division act on every value and keep the
 * labels and their order.
 */
module Weights {
  import opened Reals

  /** One labelled value of a series (a fund name and its weight). */
  datatype Entry = Entry(key: string, value: real)

  function Keys(s: seq<Entry>): seq<string>
  {
    seq(|s|, i requires 0 <= i < |s| => s[i].key)
  }

  /** `s.get(key, default)`: the value of the first entry labelled `key`, else `default`. */
  function Get(s: seq<Entry>, key: string, default: real): real
  {
    if s == [] then default
    else if s[0].key == key then s[0].value
    else Get(s[1..], key, default)
  }

  /** The sum of the values. */
  function Sum(s: seq<Entry>): real
  {
    if s == [] then 0.0 else Sum(s[..|s| - 1]) + s[|s| - 1].value
  }

  /** `s.clip(lower=lo)`. */
  function ClipLower(s: seq<Entry>, lo: real): seq<Entry>
  {
    seq(|s|, i requires 0 <= i < |s| => s[i].(value := Max(s[i].value, lo)))
  }

  /** `s.clip(upper=hi)`. */
  function ClipUpper(s: seq<Entry>, hi: real): seq<Entry>
  {
    seq(|s|, i requires 0 <= i < |s| => s[i].(value := Min(s[i].value, hi)))
  }

  /** `s / d`. */
  function DivideBy(s: seq<Entry>, d: real): seq<Entry>
    requires d != 0.0
  {
    seq(|s|, i requires 0 <= i < |s| => s[i].(value := s[i].value / d))
  }

  /** `s * k`. */
  function Scale(s: seq<Entry>, k: real): seq<Entry>
  {
    seq(|s|, i requires 0 <= i < |s| => s[i].(value := s[i].value * k))
  }

  /** `w / w.sum()` when the sum is positive, `w` otherwise. */
  function Renormalize(s: seq<Entry>): seq<Entry>
  {
    if Sum(s) > 0.0 then DivideBy(s, Sum(s)) else s
  }

  /**
   * `normalize_weights`: clip from below at `minW`, rescale to sum 1 if the
   * sum is positive, clip from above at `maxW`, rescale again if the sum is
   * positive.
   */
  function NormalizeWeights(w: seq<Entry>, minW: real, maxW: real): seq<Entry>
  {
    Renormalize(ClipUpper(Renormalize(ClipLower(w, minW)), maxW))
  }

  const DefaultMinWeight := 0.0
  const DefaultMaxWeight := 1.0

  ghost predicate NonNegative(s: seq<Entry>)
  {
    forall i :: 0 <= i < |s| ==> s[i].value >= 0.0
  }

  // ----- series lemmas -----

  /** `get` finds the first entry with the key and falls back to the default when there is none. */
  lemma {:induction false} GetFirstMatch(s: seq<Entry>, key: string, default: real)
    ensures (forall i :: 0 <= i < |s| ==> s[i].key != key) ==> Get(s, key, default) == default
    ensures forall i :: 0 <= i < |s| && s[i].key == key && (forall j :: 0 <= j < i ==> s[j].key != key)
              ==> Get(s, key, default) == s[i].value
  {
    if s != [] && s[0].key != key {
      GetFirstMatch(s[1..], key, default);
      forall i | 0 < i < |s| && s[i].key == key && (forall j :: 0 <= j < i ==> s[j].key != key)
        ensures Get(s, key, default) == s[i].value
      {
        assert s[1..][i - 1] == s[i];
        forall j | 0 <= j < i - 1
          ensures s[1..][j].key != key
        {
          assert s[1..][j] == s[j + 1];
        }
      }
    }
  }

  lemma SumSnoc(s: seq<Entry>, e: Entry)
    ensures Sum(s + [e]) == Sum(s) + e.value
  {
    assert (s + [e])[..|s|] == s;
  }

  lemma {:induction false} SumNonNegative(s: seq<Entry>)
    requires NonNegative(s)
    ensures Sum(s) >= 0.0
  {
    if s != [] {
      assert NonNegative(s[..|s| - 1]);
      SumNonNegative(s[..|s| - 1]);
    }
  }

  /** In a non-negative series every value is at most the sum. */
  lemma {:induction false} EntryAtMostSum(s: seq<Entry>, i: int)
    requires NonNegative(s) && 0 <= i < |s|
    ensures s[i].value <= Sum(s)
  {
    var a := s[..|s| - 1];
    assert NonNegative(a);
    if i < |s| - 1 {
      EntryAtMostSum(a, i);
      assert a[i] == s[i];
    } else {
      SumNonNegative(a);
    }
  }

  /** A non-negative series with a positive sum has a positive value. */
  lemma {:induction false} PositiveEntryOfPositiveSum(s: seq<Entry>) returns (k: int)
    requires NonNegative(s) && Sum(s) > 0.0
    ensures 0 <= k < |s| && s[k].value > 0.0
  {
    var a := s[..|s| - 1];
    if s[|s| - 1].value > 0.0 {
      k := |s| - 1;
    } else {
      assert NonNegative(a);
      k := PositiveEntryOfPositiveSum(a);
      assert a[k] == s[k];
    }
  }

  /** A non-negative series whose sum is not positive is all zeros. */
  lemma ZeroSumAllZero(s: seq<Entry>)
    requires NonNegative(s) && Sum(s) <= 0.0
    ensures forall i :: 0 <= i < |s| ==> s[i].value == 0.0
  {
    forall i | 0 <= i < |s|
      ensures s[i].value == 0.0
    {
      EntryAtMostSum(s, i);
    }
  }

  lemma {:induction false} SumDivideBy(s: seq<Entry>, d: real)
    requires d != 0.0
    ensures Sum(DivideBy(s, d)) == Sum(s) / d
  {
    if s != [] {
      var a := s[..|s| - 1];
      SumDivideBy(a, d);
      assert DivideBy(s, d)[..|s| - 1] == DivideBy(a, d);
      DivideAdds(Sum(a), s[|s| - 1].value, d);
    }
  }

  lemma DivideAdds(x: real, y: real, d: real)
    requires d != 0.0
    ensures x / d + y / d == (x + y) / d
  {
  }

  lemma {:induction false} SumScale(s: seq<Entry>, k: real)
    ensures Sum(Scale(s, k)) == Sum(s) * k
  {
    if s != [] {
      var a := s[..|s| - 1];
      SumScale(a, k);
      assert Scale(s, k)[..|s| - 1] == Scale(a, k) by {
        forall i | 0 <= i < |a|
          ensures Scale(s, k)[i] == Scale(a, k)[i]
        {
        }
      }
      Distributes(Sum(a) + s[|s| - 1].value, Sum(a), s[|s| - 1].value, k);
    }
  }

  // ----- normalize_weights -----

  /** Clipping, dividing and scaling keep the labels. */
  lemma NormalizeKeepsKeys(w: seq<Entry>, minW: real, maxW: real)
    ensures Keys(NormalizeWeights(w, minW, maxW)) == Keys(w)
  {
  }

  /** Renormalizing a non-negative series keeps it non-negative; with a positive sum it sums to 1. */
  lemma RenormalizeNonNegative(s: seq<Entry>)
    requires NonNegative(s)
    ensures NonNegative(Renormalize(s))
    ensures Sum(s) > 0.0 ==> Sum(Renormalize(s)) == 1.0
  {
    if Sum(s) > 0.0 {
      SumDivideBy(s, Sum(s));
      SelfQuotient(Sum(s));
      forall i | 0 <= i < |s|
        ensures Renormalize(s)[i].value >= 0.0
      {
        NonNegativeQuotient(s[i].value, Sum(s));
      }
    }
  }

  lemma SelfQuotient(d: real)
    requires d != 0.0
    ensures d / d == 1.0
  {
  }

  lemma NonNegativeQuotient(x: real, d: real)
    requires x >= 0.0 && d > 0.0
    ensures x / d >= 0.0
  {
  }

  /** With non-negative bounds every normalized weight is non-negative. */
  lemma NormalizeNonNegative(w: seq<Entry>, minW: real, maxW: real)
    requires minW >= 0.0 && maxW >= 0.0
    ensures NonNegative(NormalizeWeights(w, minW, maxW))
  {
    var a := ClipLower(w, minW);
    RenormalizeNonNegative(a);
    var c := ClipUpper(Renormalize(a), maxW);
    RenormalizeNonNegative(c);
  }

  /**
   * With a non-negative lower bound, a positive upper bound and some weight
   * above the lower clip, the normalized weights sum to 1.
   */
  lemma NormalizeSumsToOne(w: seq<Entry>, minW: real, maxW: real)
    requires minW >= 0.0 && maxW > 0.0
    requires Sum(ClipLower(w, minW)) > 0.0
    ensures Sum(NormalizeWeights(w, minW, maxW)) == 1.0
  {
    var a := ClipLower(w, minW);
    var b := Renormalize(a);
    RenormalizeNonNegative(a);
    var k := PositiveEntryOfPositiveSum(b);
    var c := ClipUpper(b, maxW);
    assert c[k].value > 0.0;
    EntryAtMostSum(c, k);
    RenormalizeNonNegative(c);
  }

  /** A negative lower bound breaks the sum: [2, -1] clipped at -1 from below and 0.5 from above sums to -0.5. */
  lemma NormalizeNegativeLowerBound()
    ensures var w := [Entry("A", 2.0), Entry("B", -1.0)];
      && Sum(ClipLower(w, -1.0)) > 0.0
      && Sum(NormalizeWeights(w, -1.0, 0.5)) == -0.5
  {
    var w := [Entry("A", 2.0), Entry("B", -1.0)];
    var a := ClipLower(w, -1.0);
    assert a == w;
    assert Sum(w) == 1.0 by {
      assert w[..1] == [Entry("A", 2.0)];
      assert [Entry("A", 2.0)][..0] == [];
    }
    var b := Renormalize(a);
    assert b == [Entry("A", 2.0), Entry("B", -1.0)];
    var c := ClipUpper(b, 0.5);
    assert c == [Entry("A", 0.5), Entry("B", -1.0)];
    assert Sum(c) == -0.5 by {
      assert c[..1] == [Entry("A", 0.5)];
      assert [Entry("A", 0.5)][..0] == [];
    }
  }

  /** A negative upper bound makes every weight negative. */
  lemma NormalizeNegativeUpperBound()
    ensures NormalizeWeights([Entry("A", 1.0)], 0.0, -0.5) == [Entry("A", -0.5)]
  {
    var w := [Entry("A", 1.0)];
    assert [Entry("A", 1.0)][..0] == [];
    assert Sum(ClipLower(w, 0.0)) == 1.0;
    assert Renormalize(ClipLower(w, 0.0)) == w;
    var c := ClipUpper(w, -0.5);
    assert c == [Entry("A", -0.5)];
    assert [Entry("A", -0.5)][..0] == [];
    assert Sum(c) == -0.5;
  }

  /**
   * The upper clip does not bound the result: the second rescaling can lift
   * clipped weights back above `maxW`, so [0.5, 0.5] with bounds 0 and 0.1
   * comes back as [0.5, 0.5].
   */
  lemma NormalizeMayExceedMax()
    ensures var w := [Entry("A", 0.5), Entry("B", 0.5)];
      NormalizeWeights(w, 0.0, 0.1) == w && w[0].value > 0.1
  {
    var w := [Entry("A", 0.5), Entry("B", 0.5)];
    assert w[..1] == [Entry("A", 0.5)] && [Entry("A", 0.5)][..0] == [];
    assert ClipLower(w, 0.0) == w;
    assert Sum(w) == 1.0;
    assert Renormalize(w) == w;
    var c := [Entry("A", 0.1), Entry("B", 0.1)];
    assert ClipUpper(w, 0.1) == c;
    assert c[..1] == [Entry("A", 0.1)] && [Entry("A", 0.1)][..0] == [];
    assert Sum(c) == 0.2;
    assert DivideBy(c, 0.2) == w;
  }

  /**
   * With the default bounds 0 and 1 and some positive weight, the result is
   * a distribution: every weight lies in [0, 1] and they sum to 1.
   */
  lemma NormalizeDefaultBounds(w: seq<Entry>)
    requires Sum(ClipLower(w, 0.0)) > 0.0
    ensures var r := NormalizeWeights(w, DefaultMinWeight, DefaultMaxWeight);
      && Sum(r) == 1.0
      && forall i :: 0 <= i < |r| ==> 0.0 <= r[i].value <= 1.0
  {
    var r := NormalizeWeights(w, 0.0, 1.0);
    NormalizeNonNegative(w, 0.0, 1.0);
    NormalizeSumsToOne(w, 0.0, 1.0);
    forall i | 0 <= i < |r|
      ensures r[i].value <= 1.0
    {
      EntryAtMostSum(r, i);
    }
  }

  /**
   * Scale invariance: with a lower bound of 0, multiplying every weight by
   * k > 0 does not change the normalized weights.
   */
  lemma NormalizeScaleInvariant(w: seq<Entry>, k: real, maxW: real)
    requires k > 0.0
    ensures NormalizeWeights(Scale(w, k), 0.0, maxW) == NormalizeWeights(w, 0.0, maxW)
  {
    ClipLowerScales(w, k);
    RenormalizeScaled(ClipLower(w, 0.0), k);
  }

  /** Clipping at 0 from below commutes with scaling by k > 0. */
  lemma ClipLowerScales(w: seq<Entry>, k: real)
    requires k > 0.0
    ensures ClipLower(Scale(w, k), 0.0) == Scale(ClipLower(w, 0.0), k)
  {
    forall i | 0 <= i < |w|
      ensures ClipLower(Scale(w, k), 0.0)[i] == Scale(ClipLower(w, 0.0), k)[i]
    {
      ClipScales(w[i].value, k);
    }
  }

  /** Renormalizing a non-negative series scaled by k > 0 gives what renormalizing the series does. */
  lemma RenormalizeScaled(a: seq<Entry>, k: real)
    requires k > 0.0 && NonNegative(a)
    ensures Renormalize(Scale(a, k)) == Renormalize(a)
  {
    SumScale(a, k);
    SumNonNegative(a);
    var d := Sum(a);
    var ak := Scale(a, k);
    if d > 0.0 {
      DivideScaled(a, d, k);
      assert Sum(ak) == d * k;
      assert Renormalize(ak) == DivideBy(ak, d * k);
    } else {
      ZeroSumAllZero(a);
      assert Scale(a, k) == a;
    }
  }

  lemma DivideScaled(a: seq<Entry>, d: real, k: real)
    requires d > 0.0 && k > 0.0
    ensures d * k != 0.0 && DivideBy(Scale(a, k), d * k) == DivideBy(a, d)
  {
    PositiveProduct(d, k);
    forall i | 0 <= i < |a|
      ensures DivideBy(Scale(a, k), d * k)[i] == DivideBy(a, d)[i]
    {
      QuotientCancels(a[i].value, d, k);
      var e := Scale(a, k)[i];
      assert e == a[i].(value := a[i].value * k);
      assert DivideBy(Scale(a, k), d * k)[i] == e.(value := e.value / (d * k));
      assert DivideBy(a, d)[i] == a[i].(value := a[i].value / d);
    }
  }

  lemma ClipScales(v: real, k: real)
    requires k > 0.0
    ensures Max(v * k, 0.0) == Max(v, 0.0) * k
  {
    if v < 0.0 {
      assert v * k < 0.0;
    }
  }

  lemma PositiveProduct(x: real, k: real)
    requires x > 0.0 && k > 0.0
    ensures x * k > 0.0
  {
  }

  lemma QuotientCancels(x: real, d: real, k: real)
    requires d > 0.0 && k > 0.0
    ensures (x * k) / (d * k) == x / d
  {
    assert d * k != 0.0;
  }
}
