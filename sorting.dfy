/**
 Python's `sorted(entries, key=lambda item: item[1], reverse=True)`: a
 stable sort of the entries by value, largest first. Entries with equal
 values keep the order they had in the input. It is modelled as an
 insertion sort, and its three promises (ordered, a rearrangement, stable)
 are proved about it.
 */
module Sorting {
  import opened Dicts

  /** Values never increase from left to right. */
  predicate SortedDesc(s: seq<Entry>) {
    forall i, j :: 0 <= i < j < |s| ==> s[i].value >= s[j].value
  }

  /** The entries whose value is exactly `v`, in order: what stability is about. */
  function Ties(s: seq<Entry>, v: real): seq<Entry> {
    Filter(s, ValueIs(v))
  }

  function ValueIs(v: real): Entry -> bool {
    (x: Entry) => x.value == v
  }

  /** Places `e` in front of the first entry whose value is not larger than its own. */
  function Insert(e: Entry, s: seq<Entry>): (r: seq<Entry>)
    ensures |r| == |s| + 1
    ensures multiset(r) == multiset(s) + multiset{e}
  {
    if s == [] || s[0].value <= e.value then [e] + s
    else
      assert s == [s[0]] + s[1..];
      [s[0]] + Insert(e, s[1..])
  }

  lemma {:induction false} InsertSorted(e: Entry, s: seq<Entry>)
    requires SortedDesc(s)
    ensures SortedDesc(Insert(e, s))
  {
    if s != [] && s[0].value > e.value {
      var s1 := s[1..];
      InsertSorted(e, s1);
      var rest := Insert(e, s1);
      forall k | 0 <= k < |rest| ensures s[0].value >= rest[k].value {
        assert rest[k] in multiset(s1) + multiset{e};
        if rest[k] != e {
          var m :| 0 <= m < |s1| && s1[m] == rest[k];
          assert s[m + 1] == rest[k];
        }
      }
    }
  }

  /** Sorts the later entries first and inserts the first entry in front of its ties. */
  function SortDesc(s: seq<Entry>): (r: seq<Entry>)
    ensures |r| == |s|
    ensures multiset(r) == multiset(s)
    ensures SortedDesc(r)
  {
    if s == [] then []
    else
      assert s == [s[0]] + s[1..];
      InsertSorted(s[0], SortDesc(s[1..]));
      Insert(s[0], SortDesc(s[1..]))
  }

  lemma SingletonTies(x: Entry, v: real)
    ensures Ties([x], v) == if x.value == v then [x] else []
  {
    assert [x][..0] == [];
  }

  lemma TiesConcat(a: seq<Entry>, b: seq<Entry>, v: real)
    ensures Ties(a + b, v) == Ties(a, v) + Ties(b, v)
  {
    FilterConcat(a, b, ValueIs(v));
  }

  lemma SwapPastEmpty(a: seq<Entry>, b: seq<Entry>, c: seq<Entry>)
    requires a == [] || b == []
    ensures a + (b + c) == b + (a + c)
  {
    if a == [] {
      assert a + (b + c) == b + c == b + (a + c);
    } else {
      assert a + (b + c) == a + c == b + (a + c);
    }
  }

  /** The entries Insert moves `e` past are larger than `e`, so no entry overtakes one of its ties. */
  lemma {:induction false} InsertTies(e: Entry, s: seq<Entry>, v: real)
    ensures Ties(Insert(e, s), v) == Ties([e] + s, v)
  {
    if s != [] && s[0].value > e.value {
      var s0, s1 := s[0], s[1..];
      assert s == [s0] + s1;
      var rest := Insert(e, s1);
      assert Insert(e, s) == [s0] + rest;
      SingletonTies(s0, v);
      SingletonTies(e, v);
      // s0 and e have different values, so at most one of them is a tie of v.
      var t0, te, t1 := Ties([s0], v), Ties([e], v), Ties(s1, v);
      assert t0 == [] || te == [];
      calc {
        Ties([s0] + rest, v);
        { TiesConcat([s0], rest, v); }
        t0 + Ties(rest, v);
        { InsertTies(e, s1, v); TiesConcat([e], s1, v); }
        t0 + (te + t1);
        { SwapPastEmpty(t0, te, t1); }
        te + (t0 + t1);
        { TiesConcat([s0], s1, v); TiesConcat([e], s, v); }
        Ties([e] + s, v);
      }
    }
  }

  /** Stability: the entries sharing one value come out in the order they went in. */
  lemma {:induction false} SortDescStable(s: seq<Entry>, v: real)
    ensures Ties(SortDesc(s), v) == Ties(s, v)
  {
    if s != [] {
      SortDescStable(s[1..], v);
      InsertTies(s[0], SortDesc(s[1..]), v);
      TiesConcat([s[0]], SortDesc(s[1..]), v);
      TiesConcat([s[0]], s[1..], v);
      assert s == [s[0]] + s[1..];
    }
  }

  lemma {:induction false} InsertKeepsDict(e: Entry, s: seq<Entry>)
    requires IsDict(s) && !HasLabel(s, e.key)
    ensures IsDict(Insert(e, s))
  {
    if s == [] || s[0].value <= e.value {
      ConsKeepsDict(e, s);
    } else {
      var s0, s1 := s[0], s[1..];
      assert s == [s0] + s1;
      TailOfDict(s);
      assert !HasLabel(s1, e.key) by {
        forall i | 0 <= i < |s1| ensures s1[i].key != e.key {
          assert s1[i] == s[i + 1];
        }
      }
      InsertKeepsDict(e, s1);
      var rest := Insert(e, s1);
      assert !HasLabel(rest, s0.key) by {
        forall k | 0 <= k < |rest| ensures rest[k].key != s0.key {
          var x := rest[k];
          assert x in multiset(s1) + multiset{e};
          if x != e {
            assert x in s1;
          } else {
            assert s[0].key != e.key;
          }
        }
      }
      ConsKeepsDict(s0, rest);
    }
  }

  /** Sorting a dict's entries keeps its keys distinct. */
  lemma {:induction false} SortDescKeepsDict(s: seq<Entry>)
    requires IsDict(s)
    ensures IsDict(SortDesc(s))
  {
    if s != [] {
      var s1 := s[1..];
      assert IsDict(s1);
      SortDescKeepsDict(s1);
      var r := SortDesc(s1);
      forall i | 0 <= i < |r| ensures r[i].key != s[0].key {
        assert r[i] in multiset(s1);
        var k :| 0 <= k < |s1| && s1[k] == r[i];
        assert s[k + 1] == r[i];
      }
      InsertKeepsDict(s[0], r);
    }
  }
}
