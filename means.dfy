/**
 Sums and arithmetic means of the values of a list of entries, with the
 facts the aggregator needs: they do not depend on the order of the
 entries, and a mean lies between the smallest and the largest value.
 Scores are modelled as exact reals.
 */
module Means {
  import opened Dicts

  /** The sum of the values, added left to right as the source's loops do. */
  function Total(s: seq<Entry>): real {
    if s == [] then 0.0 else Total(s[..|s| - 1]) + s[|s| - 1].value
  }

  /** `sum / count` when there is at least one value, and 0.0 for none. */
  function Mean(s: seq<Entry>): real {
    if |s| == 0 then 0.0 else Total(s) / |s| as real
  }

  /** The mean times the number of values is their sum; with no values both are 0.0. */
  lemma MeanTimesCount(s: seq<Entry>)
    ensures Mean(s) * |s| as real == Total(s)
    ensures s == [] ==> Mean(s) == 0.0
  {
    if s != [] {
      var n := |s| as real;
      assert Total(s) / n * n == Total(s);
    }
  }

  lemma {:induction false} TotalConcat(a: seq<Entry>, b: seq<Entry>)
    ensures Total(a + b) == Total(a) + Total(b)
  {
    if b == [] {
      assert a + b == a;
    } else {
      var n := |b| - 1;
      assert (a + b)[..|a + b| - 1] == a + b[..n];
      TotalConcat(a, b[..n]);
    }
  }

  lemma TotalSnoc(s: seq<Entry>, x: Entry)
    ensures Total(s + [x]) == Total(s) + x.value
  {
    assert (s + [x])[..|s|] == s;
  }

  /** Two rearrangements of the same entries have the same sum. */
  lemma {:induction false} TotalPermutation(s: seq<Entry>, t: seq<Entry>)
    requires multiset(s) == multiset(t)
    ensures Total(s) == Total(t)
  {
    if s != [] {
      var n := |s| - 1;
      var x := s[n];
      assert s == s[..n] + [x];
      assert x in multiset(t);
      var i :| 0 <= i < |t| && t[i] == x;
      assert t == t[..i] + [x] + t[i + 1..];
      var rest := t[..i] + t[i + 1..];
      assert multiset(s) == multiset(s[..n]) + multiset([x]);
      assert multiset(t) == multiset(t[..i]) + multiset([x]) + multiset(t[i + 1..]);
      assert multiset(rest) == multiset(t[..i]) + multiset(t[i + 1..]);
      assert multiset(s[..n]) == multiset(s) - multiset([x]);
      assert multiset(rest) == multiset(t) - multiset([x]);
      TotalPermutation(s[..n], rest);
      TotalConcat(t[..i] + [x], t[i + 1..]);
      TotalConcat(t[..i], [x]);
      TotalConcat(t[..i], t[i + 1..]);
      assert Total([x]) == x.value by {
        assert [x][..0] == [];
      }
    }
  }

  /** Two rearrangements of the same entries have the same mean. */
  lemma MeanPermutation(s: seq<Entry>, t: seq<Entry>)
    requires multiset(s) == multiset(t)
    ensures Mean(s) == Mean(t)
  {
    assert |s| == |multiset(s)| == |multiset(t)| == |t|;
    TotalPermutation(s, t);
  }

  lemma {:induction false} TotalAtLeast(s: seq<Entry>, lo: real)
    requires forall i :: 0 <= i < |s| ==> lo <= s[i].value
    ensures lo * |s| as real <= Total(s)
  {
    if s != [] {
      var n := |s| - 1;
      TotalAtLeast(s[..n], lo);
      assert lo * |s| as real == lo * n as real + lo;
    }
  }

  lemma {:induction false} TotalAtMost(s: seq<Entry>, hi: real)
    requires forall i :: 0 <= i < |s| ==> s[i].value <= hi
    ensures Total(s) <= hi * |s| as real
  {
    if s != [] {
      var n := |s| - 1;
      TotalAtMost(s[..n], hi);
      assert hi * |s| as real == hi * n as real + hi;
    }
  }

  /** A mean of at least one value is no smaller than a lower bound of the values. */
  lemma MeanAtLeast(s: seq<Entry>, lo: real)
    requires |s| > 0
    requires forall i :: 0 <= i < |s| ==> lo <= s[i].value
    ensures lo <= Mean(s)
  {
    TotalAtLeast(s, lo);
    var n := |s| as real;
    assert Total(s) / n * n == Total(s);
    assert (Total(s) / n - lo) * n >= 0.0;
  }

  /** A mean of at least one value is no larger than an upper bound of the values. */
  lemma MeanAtMost(s: seq<Entry>, hi: real)
    requires |s| > 0
    requires forall i :: 0 <= i < |s| ==> s[i].value <= hi
    ensures Mean(s) <= hi
  {
    TotalAtMost(s, hi);
    var n := |s| as real;
    assert Total(s) / n * n == Total(s);
    assert (hi - Total(s) / n) * n >= 0.0;
  }
}
