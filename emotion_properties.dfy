/**
 What the aggregator promises about its result: it depends only on which
 (label, score) pairs survive the 0.10 cut, not on their order or on the
 sort; each output is the mean of its own bucket and 0.0 for an empty one;
 labels outside the two polarity lists are ignored; and the outputs stay
 within the range of the scores.
 */
module EmotionProperties {
  import opened Dicts
  import opened Sorting
  import opened Means
  import opened WatsonEmotionScore

  /** The emotion dicts of the targets, in order. */
  function Emotions(targets: seq<Target>): seq<Dict> {
    seq(|targets|, i requires 0 <= i < |targets| => targets[i].emotion)
  }

  /** Every (label, score) pair the NLU service reported, target after target. */
  function AllEntries(targets: seq<Target>): seq<Entry> {
    Flatten(Emotions(targets))
  }

  /** The list Run would build if it filtered the dicts without sorting them first. */
  function FilteredScores(targets: seq<Target>): seq<Dict> {
    seq(|targets|, i requires 0 <= i < |targets| => Filter(targets[i].emotion, IsMain))
  }

  /** The aggregate sees the dicts only through the multiset of their entries. */
  lemma OverallDependsOnlyOnEntries(a: seq<Dict>, b: seq<Dict>)
    requires multiset(Flatten(a)) == multiset(Flatten(b))
    ensures OverallEmotion(a) == OverallEmotion(b)
  {
    FilterPermutation(Flatten(a), Flatten(b), IsPositive);
    FilterPermutation(Flatten(a), Flatten(b), IsNegative);
    MeanPermutation(Filter(Flatten(a), IsPositive), Filter(Flatten(b), IsPositive));
    MeanPermutation(Filter(Flatten(a), IsNegative), Filter(Flatten(b), IsNegative));
  }

  /** Reordering the list of score dicts does not change the aggregate. */
  lemma ScoreListOrderDoesNotMatter(a: seq<Dict>, b: seq<Dict>)
    requires multiset(a) == multiset(b)
    ensures OverallEmotion(a) == OverallEmotion(b)
  {
    FlattenPermutation(a, b);
    OverallDependsOnlyOnEntries(a, b);
  }

  /** Sorting a dict before cutting it keeps the same main emotions. */
  lemma SortedMainEmotions(d: Dict)
    requires IsDict(d)
    ensures multiset(Filter(GetSortedScores(d), IsMain)) == multiset(Filter(d, IsMain))
  {
    GetSortedScoresCorrect(d);
    FilterPermutation(GetSortedScores(d), d, IsMain);
  }

  /** The list Run builds holds exactly the reported entries that score at least 0.10. */
  lemma {:induction false} KeywordScoresEntries(targets: seq<Target>)
    requires WellFormed(targets)
    ensures multiset(Flatten(KeywordScores(targets))) == multiset(Filter(AllEntries(targets), IsMain))
  {
    if targets != [] {
      var n := |targets| - 1;
      var init, last := targets[..n], targets[n];
      assert WellFormed(init) by {
        assert forall i :: 0 <= i < n ==> init[i] == targets[i];
      }
      var kept := Filter(GetSortedScores(last.emotion), IsMain);
      assert targets == init + [last];
      calc {
        multiset(Flatten(KeywordScores(targets)));
        { FlattenSnoc(KeywordScores(init), kept); }
        multiset(Flatten(KeywordScores(init)) + kept);
        multiset(Flatten(KeywordScores(init))) + multiset(kept);
        { KeywordScoresEntries(init); SortedMainEmotions(last.emotion); }
        multiset(Filter(AllEntries(init), IsMain)) + multiset(Filter(last.emotion, IsMain));
        multiset(Filter(AllEntries(init), IsMain) + Filter(last.emotion, IsMain));
        { FilterConcat(AllEntries(init), last.emotion, IsMain); AllEntriesSnoc(init, last); }
        multiset(Filter(AllEntries(targets), IsMain));
      }
    }
  }

  /** Sorting each dict before filtering it does not change the aggregate. */
  lemma SortingDoesNotChangeAggregate(targets: seq<Target>)
    requires WellFormed(targets)
    ensures OverallEmotion(KeywordScores(targets)) == OverallEmotion(FilteredScores(targets))
  {
    KeywordScoresEntries(targets);
    FlattenFiltered(FilteredScores(targets), Emotions(targets), IsMain);
    OverallDependsOnlyOnEntries(KeywordScores(targets), FilteredScores(targets));
  }

  /**
   Run's result in closed form: `positif` is the mean of the joy scores of
   at least 0.10 across all targets, `negatif` the mean of the anger,
   disgust, fear and sadness scores of at least 0.10, each 0.0 when there
   are none.
   */
  lemma RunIsMeanOfMainEmotions(targets: seq<Target>)
    requires WellFormed(targets)
    ensures OverallEmotion(KeywordScores(targets)) ==
      Sentiment(Mean(Filter(Filter(AllEntries(targets), IsMain), IsPositive)),
                Mean(Filter(Filter(AllEntries(targets), IsMain), IsNegative)))
  {
    var kept := Filter(AllEntries(targets), IsMain);
    var built := Flatten(KeywordScores(targets));
    KeywordScoresEntries(targets);
    FilterPermutation(built, kept, IsPositive);
    FilterPermutation(built, kept, IsNegative);
    MeanPermutation(Filter(built, IsPositive), Filter(kept, IsPositive));
    MeanPermutation(Filter(built, IsNegative), Filter(kept, IsNegative));
  }

  lemma AllEntriesSnoc(targets: seq<Target>, t: Target)
    ensures AllEntries(targets + [t]) == AllEntries(targets) + t.emotion
  {
    assert Emotions(targets + [t]) == Emotions(targets) + [t.emotion];
    FlattenSnoc(Emotions(targets), t.emotion);
  }

  /** An entry is among all the reported entries exactly when some target's dict holds it. */
  lemma AllEntriesMember(targets: seq<Target>, e: Entry)
    ensures e in AllEntries(targets) <==> exists i :: 0 <= i < |targets| && e in targets[i].emotion
  {
    FlattenMember(Emotions(targets), e);
    assert forall i :: 0 <= i < |targets| ==> Emotions(targets)[i] == targets[i].emotion;
  }

  /** A filter that keeps none of the entries gives the empty list, whose mean is 0.0. */
  lemma EmptyBucket(s: seq<Entry>, p: Entry -> bool)
    requires forall e :: e in s ==> !p(e)
    ensures Filter(s, p) == [] && Mean(Filter(s, p)) == 0.0
  {
    FilterMember(s, p);
    var r := Filter(s, p);
    assert forall k :: 0 <= k < |r| ==> r[k] in r;
  }

  /**
   No entry with a positive or negative label (in particular, no dict at
   all) gives 0.0 for both outputs.
   */
  lemma NoPolarLabelsGiveZero(scores: seq<Dict>)
    requires forall i, j :: 0 <= i < |scores| && 0 <= j < |scores[i]| ==>
      scores[i][j].key !in PosEmotions && scores[i][j].key !in NegEmotions
    ensures OverallEmotion(scores) == Sentiment(0.0, 0.0)
  {
    var entries := Flatten(scores);
    forall e | e in entries ensures !IsPositive(e) && !IsNegative(e) {
      FlattenMember(scores, e);
      var i :| 0 <= i < |scores| && e in scores[i];
      var j :| 0 <= j < |scores[i]| && scores[i][j] == e;
    }
    EmptyBucket(entries, IsPositive);
    EmptyBucket(entries, IsNegative);
  }

  /** An entry whose label is neither positive nor negative, added to any dict anywhere, changes nothing. */
  lemma IgnoredLabelHasNoEffect(scores: seq<Dict>, k: nat, j: nat, e: Entry)
    requires k < |scores| && j <= |scores[k]|
    requires e.key !in PosEmotions && e.key !in NegEmotions
    ensures OverallEmotion(scores[k := scores[k][..j] + [e] + scores[k][j..]]) == OverallEmotion(scores)
  {
    var d := scores[k];
    var before, after := Flatten(scores[..k]), Flatten(scores[k + 1..]);
    FlattenAround(scores, k, d[..j] + [e] + d[j..]);
    FlattenAround(scores, k, d);
    assert scores[k := d] == scores;
    forall p | p == IsPositive || p == IsNegative
      ensures Filter(before + (d[..j] + [e] + d[j..]) + after, p) == Filter(before + d + after, p)
    {
      FilterConcat(before + (d[..j] + [e] + d[j..]), after, p);
      FilterConcat(before, d[..j] + [e] + d[j..], p);
      FilterConcat(before + d, after, p);
      FilterConcat(before, d, p);
      FilterSkips(d, j, e, p);
    }
  }

  /** What a bucket's mean can be when the entries it takes have values between `lo` and `hi`. */
  lemma BucketMeanBounds(s: seq<Entry>, p: Entry -> bool, lo: real, hi: real)
    requires forall e :: e in s && p(e) ==> lo <= e.value <= hi
    ensures Filter(s, p) == [] ==> Mean(Filter(s, p)) == 0.0
    ensures Filter(s, p) != [] ==> lo <= Mean(Filter(s, p)) <= hi
  {
    var r := Filter(s, p);
    FilterMember(s, p);
    if r != [] {
      assert forall k :: 0 <= k < |r| ==> r[k] in r;
      MeanAtLeast(r, lo);
      MeanAtMost(r, hi);
    }
  }

  /** Scores that all lie in [0, 1] give outputs that lie in [0, 1]. */
  lemma OverallInUnitInterval(scores: seq<Dict>)
    requires forall i, j :: 0 <= i < |scores| && 0 <= j < |scores[i]| ==> 0.0 <= scores[i][j].value <= 1.0
    ensures 0.0 <= OverallEmotion(scores).positif <= 1.0
    ensures 0.0 <= OverallEmotion(scores).negatif <= 1.0
  {
    var entries := Flatten(scores);
    forall e | e in entries ensures 0.0 <= e.value <= 1.0 {
      FlattenMember(scores, e);
      var i :| 0 <= i < |scores| && e in scores[i];
      var j :| 0 <= j < |scores[i]| && scores[i][j] == e;
    }
    BucketMeanBounds(entries, IsPositive, 0.0, 1.0);
    BucketMeanBounds(entries, IsNegative, 0.0, 1.0);
  }

  /** The entries Run averages into `positif` or `negatif`: main emotions of the given polarity. */
  predicate Counted(e: Entry, polarity: Entry -> bool) {
    IsMain(e) && polarity(e)
  }

  /** Some target reports an emotion of this polarity scoring at least 0.10. */
  predicate Reported(targets: seq<Target>, polarity: Entry -> bool) {
    exists i, j :: 0 <= i < |targets| && 0 <= j < |targets[i].emotion| && Counted(targets[i].emotion[j], polarity)
  }

  /** Some target reports a main emotion of this polarity exactly when the bucket Run averages is not empty. */
  lemma ReportedMember(targets: seq<Target>, polarity: Entry -> bool)
    ensures Reported(targets, polarity) <==> Filter(Filter(AllEntries(targets), IsMain), polarity) != []
  {
    var kept := Filter(AllEntries(targets), IsMain);
    var bucket := Filter(kept, polarity);
    FilterMember(AllEntries(targets), IsMain);
    FilterMember(kept, polarity);
    if Reported(targets, polarity) {
      var i, j :| 0 <= i < |targets| && 0 <= j < |targets[i].emotion| && Counted(targets[i].emotion[j], polarity);
      AllEntriesMember(targets, targets[i].emotion[j]);
      assert targets[i].emotion[j] in bucket;
    }
    if bucket != [] {
      var e := bucket[0];
      assert e in bucket;
      AllEntriesMember(targets, e);
      var i :| 0 <= i < |targets| && e in targets[i].emotion;
      var j :| 0 <= j < |targets[i].emotion| && targets[i].emotion[j] == e;
      assert Counted(targets[i].emotion[j], polarity);
    }
  }

  /** A non-empty bucket whose entries all score at least `lo` has a mean of at least `lo`. */
  lemma BucketMeanAtLeast(s: seq<Entry>, p: Entry -> bool, lo: real)
    requires forall e :: e in s && p(e) ==> lo <= e.value
    ensures Filter(s, p) != [] ==> lo <= Mean(Filter(s, p))
  {
    var r := Filter(s, p);
    FilterMember(s, p);
    if r != [] {
      assert forall k :: 0 <= k < |r| ==> r[k] in r;
      MeanAtLeast(r, lo);
    }
  }

  /**
   After the 0.10 cut an output is 0.0 exactly when no target reports an
   emotion of its polarity scoring at least 0.10, and otherwise at least
   0.10, whatever the scores are.
   */
  lemma RunZeroIffUnreported(targets: seq<Target>, polarity: Entry -> bool)
    requires WellFormed(targets)
    requires polarity == IsPositive || polarity == IsNegative
    ensures var overall := OverallEmotion(KeywordScores(targets));
      var mean := if polarity == IsPositive then overall.positif else overall.negatif;
      && (mean == 0.0 <==> !Reported(targets, polarity))
      && (mean != 0.0 ==> MainThreshold <= mean)
  {
    RunIsMeanOfMainEmotions(targets);
    var kept := Filter(AllEntries(targets), IsMain);
    FilterMember(AllEntries(targets), IsMain);
    BucketMeanAtLeast(kept, polarity, MainThreshold);
    ReportedMember(targets, polarity);
  }

  /**
   The same, with the upper limit: when every reported score is at most
   1.0, a nonzero output lies between 0.10 and 1.0. Only that upper limit
   needs the bound on the scores.
   */
  lemma RunBounds(targets: seq<Target>, polarity: Entry -> bool)
    requires WellFormed(targets)
    requires polarity == IsPositive || polarity == IsNegative
    requires forall i, j :: 0 <= i < |targets| && 0 <= j < |targets[i].emotion| ==> targets[i].emotion[j].value <= 1.0
    ensures var overall := OverallEmotion(KeywordScores(targets));
      var mean := if polarity == IsPositive then overall.positif else overall.negatif;
      && (mean == 0.0 <==> !Reported(targets, polarity))
      && (mean != 0.0 ==> MainThreshold <= mean <= 1.0)
  {
    RunZeroIffUnreported(targets, polarity);
    RunIsMeanOfMainEmotions(targets);
    var kept := Filter(AllEntries(targets), IsMain);
    FilterMember(AllEntries(targets), IsMain);
    forall e | e in kept ensures MainThreshold <= e.value <= 1.0 {
      AllEntriesMember(targets, e);
      var i :| 0 <= i < |targets| && e in targets[i].emotion;
      var j :| 0 <= j < |targets[i].emotion| && targets[i].emotion[j] == e;
    }
    BucketMeanBounds(kept, polarity, MainThreshold, 1.0);
  }

  lemma Singleton(x: Entry, p: Entry -> bool)
    ensures Filter([x], p) == if p(x) then [x] else []
    ensures Mean([x]) == x.value
  {
    assert [x] == [] + [x];
    FilterSnoc([], x, p);
    TotalSnoc([], x);
  }

  /** A joy above the cut and an anger below it: only the joy counts (0.9 and 0.05 give 0.9 and 0.0). */
  lemma ExampleWeakAngerIsDropped(joy: real, anger: real)
    requires joy >= MainThreshold && anger < MainThreshold
    ensures var targets := [Target("urgent", [Entry("joy", joy), Entry("anger", anger)])];
      WellFormed(targets) && OverallEmotion(KeywordScores(targets)) == Sentiment(joy, 0.0)
  {
    var j, a := Entry("joy", joy), Entry("anger", anger);
    var targets := [Target("urgent", [j, a])];
    assert WellFormed(targets);
    assert targets == [] + [targets[0]];
    AllEntriesSnoc([], targets[0]);
    assert Filter([j, a], IsMain) == [j] by {
      assert [j, a] == [j] + [a];
      FilterSnoc([j], a, IsMain);
      Singleton(j, IsMain);
    }
    Singleton(j, IsPositive);
    Singleton(j, IsNegative);
    RunIsMeanOfMainEmotions(targets);
  }

  /** The buckets of two main emotions that are both negative. */
  lemma TwoNegativeBuckets(a: Entry, s: Entry)
    requires IsMain(a) && IsMain(s) && IsNegative(a) && IsNegative(s)
    ensures Filter(Filter([a, s], IsMain), IsPositive) == []
    ensures Mean(Filter(Filter([a, s], IsMain), IsNegative)) == (a.value + s.value) / 2.0
  {
    var both := [a, s];
    assert both == [a] + [s];
    Singleton(a, IsMain);
    Singleton(a, IsPositive);
    Singleton(a, IsNegative);
    FilterSnoc([a], s, IsMain);
    FilterSnoc([a], s, IsPositive);
    FilterSnoc([a], s, IsNegative);
    TotalSnoc([a], s);
    assert Filter(both, IsMain) == both;
    assert Filter(both, IsNegative) == both;
    assert Total(both) == a.value + s.value;
  }

  /** Two negative keywords above the cut and no positive one: `negatif` is their mean (0.5 and 0.3 give 0.4). */
  lemma ExampleTwoNegativesAreAveraged(anger: real, sadness: real)
    requires anger >= MainThreshold && sadness >= MainThreshold
    ensures var targets := [Target("error", [Entry("anger", anger)]), Target("issue", [Entry("sadness", sadness)])];
      WellFormed(targets) && OverallEmotion(KeywordScores(targets)) == Sentiment(0.0, (anger + sadness) / 2.0)
  {
    var a, s := Entry("anger", anger), Entry("sadness", sadness);
    var targets := [Target("error", [a]), Target("issue", [s])];
    assert WellFormed(targets);
    var first := [targets[0]];
    assert first == [] + [targets[0]];
    assert targets == first + [targets[1]];
    AllEntriesSnoc([], targets[0]);
    AllEntriesSnoc(first, targets[1]);
    assert AllEntries(targets) == [a, s];
    TwoNegativeBuckets(a, s);
    RunIsMeanOfMainEmotions(targets);
  }
}
