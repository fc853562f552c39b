/**
 An emotion dictionary as the NLU service returns it for one keyword: a
 Python dict from emotion label to score. Python dicts remember insertion
 order, so a dict is modelled as an association list whose labels are
 pairwise distinct (IsDict). This module holds the dict operations the
 aggregator uses and the generic facts about filtering and flattening.
 */
module Dicts {

  datatype Entry = Entry(key: string, value: real)

  /** Insertion-ordered dict; IsDict states the key-uniqueness every Python dict has. */
  type Dict = seq<Entry>

  predicate IsDict(d: Dict) {
    forall i, j :: 0 <= i < |d| && 0 <= j < |d| && d[i].key == d[j].key ==> i == j
  }

  predicate HasLabel(d: Dict, k: string) {
    exists i :: 0 <= i < |d| && d[i].key == k
  }

  /**
   Python's `d[k] = v`: an existing key keeps its position and takes the new
   value; a new key is appended at the end.
   */
  function Put(d: Dict, k: string, v: real): (r: Dict)
    ensures !HasLabel(d, k) ==> r == d + [Entry(k, v)]
    ensures IsDict(d) ==> forall i :: 0 <= i < |d| && d[i].key == k ==> r == d[i := Entry(k, v)]
  {
    if d == [] then [Entry(k, v)]
    else if d[0].key == k then [Entry(k, v)] + d[1..]
    else
      assert HasLabel(d[1..], k) ==> HasLabel(d, k) by {
        if HasLabel(d[1..], k) {
          var i :| 0 <= i < |d[1..]| && d[1..][i].key == k;
          assert d[i + 1].key == k;
        }
      }
      assert IsDict(d) ==> IsDict(d[1..]);
      [d[0]] + Put(d[1..], k, v)
  }

  /** Inserting into a dict keeps its keys distinct. */
  lemma PutKeepsDict(d: Dict, k: string, v: real)
    requires IsDict(d)
    ensures IsDict(Put(d, k, v))
  {
    var r := Put(d, k, v);
    if HasLabel(d, k) {
      var i :| 0 <= i < |d| && d[i].key == k;
      assert r == d[i := Entry(k, v)];
      assert forall j :: 0 <= j < |d| ==> r[j].key == d[j].key;
    } else {
      assert r == d + [Entry(k, v)];
      assert forall j :: 0 <= j < |d| ==> r[j] == d[j];
    }
  }

  /** A new label in front of a dict gives a dict. */
  lemma ConsKeepsDict(x: Entry, d: Dict)
    requires IsDict(d) && !HasLabel(d, x.key)
    ensures IsDict([x] + d)
  {
    var r := [x] + d;
    assert forall k :: 0 < k < |r| ==> r[k] == d[k - 1];
  }

  /** Dropping a dict's first entry leaves a dict without its label. */
  lemma TailOfDict(d: Dict)
    requires IsDict(d) && d != []
    ensures IsDict(d[1..]) && !HasLabel(d[1..], d[0].key)
  {
    assert forall k :: 0 <= k < |d[1..]| ==> d[1..][k] == d[k + 1];
  }

  /**
   A dict comprehension `{k: v for k, v in pairs}`: the pairs are inserted
   one after another with Put.
   */
  function FromPairs(pairs: seq<Entry>): (r: Dict)
    ensures IsDict(r)
  {
    if pairs == [] then []
    else
      var last := pairs[|pairs| - 1];
      PutKeepsDict(FromPairs(pairs[..|pairs| - 1]), last.key, last.value);
      Put(FromPairs(pairs[..|pairs| - 1]), last.key, last.value)
  }

  /** Rebuilding a dict from pairs whose labels are already distinct gives back the same pairs, in order. */
  lemma {:induction false} FromDistinctPairs(pairs: seq<Entry>)
    requires IsDict(pairs)
    ensures FromPairs(pairs) == pairs
  {
    if pairs != [] {
      var n := |pairs| - 1;
      var init := pairs[..n];
      assert IsDict(init) by {
        assert forall i :: 0 <= i < n ==> init[i] == pairs[i];
      }
      FromDistinctPairs(init);
      forall i | 0 <= i < |init| ensures init[i].key != pairs[n].key {
        assert init[i] == pairs[i];
      }
      assert init + [pairs[n]] == pairs;
    }
  }

  /** The entries of `s` that satisfy `p`, in their original order. */
  function Filter(s: seq<Entry>, p: Entry -> bool): (r: seq<Entry>)
    ensures |r| <= |s|
  {
    if s == [] then []
    else
      var n := |s| - 1;
      Filter(s[..n], p) + (if p(s[n]) then [s[n]] else [])
  }

  /** An entry survives the filter exactly when it is in the input and satisfies `p`. */
  lemma {:induction false} FilterMember(s: seq<Entry>, p: Entry -> bool)
    ensures forall e :: e in Filter(s, p) <==> e in s && p(e)
  {
    if s != [] {
      var n := |s| - 1;
      FilterMember(s[..n], p);
      assert s == s[..n] + [s[n]];
    }
  }

  lemma {:induction false} FilterConcat(a: seq<Entry>, b: seq<Entry>, p: Entry -> bool)
    ensures Filter(a + b, p) == Filter(a, p) + Filter(b, p)
  {
    if b == [] {
      assert a + b == a;
    } else {
      var n := |b| - 1;
      assert (a + b)[..|a + b| - 1] == a + b[..n];
      FilterConcat(a, b[..n], p);
    }
  }

  lemma FilterSnoc(s: seq<Entry>, x: Entry, p: Entry -> bool)
    ensures Filter(s + [x], p) == Filter(s, p) + (if p(x) then [x] else [])
  {
    assert (s + [x])[..|s|] == s;
  }

  /** An entry that fails `p`, inserted anywhere, does not change what the filter keeps. */
  lemma FilterSkips(d: seq<Entry>, j: nat, e: Entry, p: Entry -> bool)
    requires j <= |d| && !p(e)
    ensures Filter(d[..j] + [e] + d[j..], p) == Filter(d, p)
  {
    calc {
      Filter(d[..j] + [e] + d[j..], p);
      { FilterConcat(d[..j] + [e], d[j..], p); }
      Filter(d[..j] + [e], p) + Filter(d[j..], p);
      { FilterSnoc(d[..j], e, p); assert Filter(d[..j], p) + [] == Filter(d[..j], p); }
      Filter(d[..j], p) + Filter(d[j..], p);
      { FilterConcat(d[..j], d[j..], p); assert d[..j] + d[j..] == d; }
      Filter(d, p);
    }
  }

  /** Filtering keeps every occurrence of an entry that satisfies `p` and none of the others. */
  lemma {:induction false} FilterCount(s: seq<Entry>, p: Entry -> bool, e: Entry)
    ensures multiset(Filter(s, p))[e] == if p(e) then multiset(s)[e] else 0
  {
    if s != [] {
      var n := |s| - 1;
      FilterCount(s[..n], p, e);
      assert s == s[..n] + [s[n]];
    }
  }

  /** Filtering two rearrangements of the same entries gives two rearrangements of the same survivors. */
  lemma FilterPermutation(s: seq<Entry>, t: seq<Entry>, p: Entry -> bool)
    requires multiset(s) == multiset(t)
    ensures multiset(Filter(s, p)) == multiset(Filter(t, p))
  {
    forall e ensures multiset(Filter(s, p))[e] == multiset(Filter(t, p))[e] {
      FilterCount(s, p, e);
      FilterCount(t, p, e);
    }
  }

  /** All entries of a list of dicts, dict after dict. */
  function Flatten(scores: seq<Dict>): seq<Entry>
  {
    if scores == [] then []
    else Flatten(scores[..|scores| - 1]) + scores[|scores| - 1]
  }

  lemma FlattenSnoc(a: seq<Dict>, d: Dict)
    ensures Flatten(a + [d]) == Flatten(a) + d
  {
    assert (a + [d])[..|a|] == a;
  }

  /** Flattening a list with its `k`-th dict replaced. */
  lemma FlattenAround(scores: seq<Dict>, k: nat, d: Dict)
    requires k < |scores|
    ensures Flatten(scores[k := d]) == Flatten(scores[..k]) + d + Flatten(scores[k + 1..])
  {
    assert scores[k := d] == scores[..k] + [d] + scores[k + 1..];
    FlattenConcat(scores[..k] + [d], scores[k + 1..]);
    FlattenSnoc(scores[..k], d);
  }

  lemma {:induction false} FlattenConcat(a: seq<Dict>, b: seq<Dict>)
    ensures Flatten(a + b) == Flatten(a) + Flatten(b)
  {
    if b == [] {
      assert a + b == a;
    } else {
      var n := |b| - 1;
      assert (a + b)[..|a + b| - 1] == a + b[..n];
      FlattenConcat(a, b[..n]);
    }
  }

  /** An entry occurs in the flattened list exactly when it occurs in one of the dicts. */
  lemma {:induction false} FlattenMember(scores: seq<Dict>, e: Entry)
    ensures e in Flatten(scores) <==> exists i :: 0 <= i < |scores| && e in scores[i]
  {
    if scores != [] {
      var n := |scores| - 1;
      FlattenMember(scores[..n], e);
      assert forall i :: 0 <= i < n ==> scores[..n][i] == scores[i];
    }
  }

  /**
   Filtering dict by dict, with each dict's survivors possibly rearranged,
   keeps the same entries as filtering the flattened list.
   */
  lemma {:induction false} FlattenFiltered(a: seq<Dict>, b: seq<Dict>, p: Entry -> bool)
    requires |a| == |b|
    requires forall i :: 0 <= i < |a| ==> multiset(a[i]) == multiset(Filter(b[i], p))
    ensures multiset(Flatten(a)) == multiset(Filter(Flatten(b), p))
  {
    if a != [] {
      var n := |a| - 1;
      assert forall i :: 0 <= i < n ==> a[..n][i] == a[i] && b[..n][i] == b[i];
      FlattenFiltered(a[..n], b[..n], p);
      FilterConcat(Flatten(b[..n]), b[n], p);
    }
  }

  /** The entries of a list of dicts do not depend on the order of the list. */
  lemma {:induction false} FlattenPermutation(a: seq<Dict>, b: seq<Dict>)
    requires multiset(a) == multiset(b)
    ensures multiset(Flatten(a)) == multiset(Flatten(b))
  {
    if a != [] {
      var n := |a| - 1;
      var x := a[n];
      assert a == a[..n] + [x];
      assert x in multiset(b);
      var i :| 0 <= i < |b| && b[i] == x;
      assert b == b[..i] + [x] + b[i + 1..];
      var rest := b[..i] + b[i + 1..];
      assert multiset(a) == multiset(a[..n]) + multiset([x]);
      assert multiset(b) == multiset(b[..i]) + multiset([x]) + multiset(b[i + 1..]);
      assert multiset(rest) == multiset(b[..i]) + multiset(b[i + 1..]);
      assert multiset(a[..n]) == multiset(a) - multiset([x]);
      assert multiset(rest) == multiset(b) - multiset([x]);
      FlattenPermutation(a[..n], rest);
      FlattenConcat(b[..i] + [x], b[i + 1..]);
      FlattenConcat(b[..i], [x]);
      FlattenConcat(b[..i], b[i + 1..]);
      assert Flatten([x]) == x by {
        assert [x][..0] == [];
      }
    }
  }
}
