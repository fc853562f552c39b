/**
 The keyword-emotion aggregator of watson_emotion_score.py. For every
 keyword target the NLU service reports, its emotion dict is sorted by
 score (GetSortedScores) and cut down to the emotions scoring at least
 0.10 (GetMainEmotions); the resulting dicts are then reduced to one
 positive and one negative mean (ComputeOverallEmotion). Run chains the
 three over the service's list of targets, which it takes as an input.
 */
module WatsonEmotionScore {
  import opened Dicts
  import opened Sorting
  import opened Means

  const NegEmotions: seq<string> := ["anger", "disgust", "fear", "sadness"]
  const PosEmotions: seq<string> := ["joy"]

  /** The least score of a main emotion. */
  const MainThreshold: real := 0.10

  /** The `{"positif": …, "negatif": …}` dict the aggregator returns. */
  datatype Sentiment = Sentiment(positif: real, negatif: real)

  /** One element of the NLU response's `targets`: a keyword and its emotion dict. */
  datatype Target = Target(text: string, emotion: Dict)

  /** What the two label lists and the threshold mean for a single entry. */
  lemma Labels()
    ensures forall e: Entry :: IsPositive(e) <==> e.key == "joy"
    ensures forall e: Entry :: IsNegative(e) <==>
      e.key == "anger" || e.key == "disgust" || e.key == "fear" || e.key == "sadness"
    ensures forall e: Entry :: IsMain(e) <==> e.value >= 0.10
  {
  }

  predicate IsPositive(e: Entry) {
    e.key in PosEmotions
  }

  /** The `elif` branch: a negative label that is not also positive. */
  predicate IsNegative(e: Entry) {
    e.key !in PosEmotions && e.key in NegEmotions
  }

  predicate IsMain(e: Entry) {
    e.value >= MainThreshold
  }

  /** Every target carries a proper dict: its emotion labels are distinct. */
  predicate WellFormed(targets: seq<Target>) {
    forall i :: 0 <= i < |targets| ==> IsDict(targets[i].emotion)
  }

  /**
   Rebuilds the dict in order of decreasing score (the dict comprehension
   over `sorted`). What the order is lies in GetSortedScoresCorrect.
   */
  function GetSortedScores(emotionTarget: Dict): (r: Dict)
    requires IsDict(emotionTarget)
    ensures IsDict(r)
  {
    FromPairs(SortDesc(emotionTarget))
  }

  /**
   The sorted dict holds the same key/value pairs, by decreasing score;
   Python's sort is stable, so emotions with equal scores keep their order.
   */
  lemma GetSortedScoresCorrect(emotionTarget: Dict)
    requires IsDict(emotionTarget)
    ensures multiset(GetSortedScores(emotionTarget)) == multiset(emotionTarget)
    ensures SortedDesc(GetSortedScores(emotionTarget))
    ensures forall v :: Ties(GetSortedScores(emotionTarget), v) == Ties(emotionTarget, v)
  {
    SortDescKeepsDict(emotionTarget);
    FromDistinctPairs(SortDesc(emotionTarget));
    forall v ensures Ties(SortDesc(emotionTarget), v) == Ties(emotionTarget, v) {
      SortDescStable(emotionTarget, v);
    }
  }

  /** Copies into a fresh dict, in order, the entries scoring at least 0.10. */
  method GetMainEmotions(sortedScores: Dict) returns (mainEmotions: Dict)
    requires IsDict(sortedScores)
    ensures mainEmotions == Filter(sortedScores, IsMain)
    ensures IsDict(mainEmotions)
    ensures forall e :: e in mainEmotions <==> e in sortedScores && e.value >= MainThreshold
  {
    mainEmotions := [];
    for j := 0 to |sortedScores|
      invariant mainEmotions == Filter(sortedScores[..j], IsMain)
      invariant IsDict(mainEmotions)
    {
      var item := sortedScores[j];
      assert sortedScores[..j + 1] == sortedScores[..j] + [item];
      FilterSnoc(sortedScores[..j], item, IsMain);
      if item.value >= MainThreshold {
        assert !HasLabel(mainEmotions, item.key) by {
          FilterMember(sortedScores[..j], IsMain);
          forall k | 0 <= k < |mainEmotions| ensures mainEmotions[k].key != item.key {
            assert mainEmotions[k] in sortedScores[..j];
          }
        }
        PutKeepsDict(mainEmotions, item.key, item.value);
        mainEmotions := Put(mainEmotions, item.key, item.value);
      }
    }
    assert sortedScores[..|sortedScores|] == sortedScores;
    FilterMember(sortedScores, IsMain);
  }

  /**
   The aggregate of a list of main-emotion dicts: the mean of the positive
   scores and the mean of the negative scores over all of them, each 0.0
   when there is none.
   */
  function OverallEmotion(scores: seq<Dict>): (r: Sentiment)
    ensures var pos := Filter(Flatten(scores), IsPositive);
      r.positif * |pos| as real == Total(pos) && (pos == [] ==> r.positif == 0.0)
    ensures var neg := Filter(Flatten(scores), IsNegative);
      r.negatif * |neg| as real == Total(neg) && (neg == [] ==> r.negatif == 0.0)
  {
    var pos, neg := Filter(Flatten(scores), IsPositive), Filter(Flatten(scores), IsNegative);
    MeanTimesCount(pos);
    MeanTimesCount(neg);
    Sentiment(Mean(pos), Mean(neg))
  }

  /** The four accumulators of ComputeOverallEmotion after it has visited the entries `seen`. */
  predicate Accumulated(seen: seq<Entry>, positive: real, counterPositive: nat, negative: real, counterNegatif: nat) {
    && positive == Total(Filter(seen, IsPositive))
    && counterPositive == |Filter(seen, IsPositive)|
    && negative == Total(Filter(seen, IsNegative))
    && counterNegatif == |Filter(seen, IsNegative)|
  }

  /** One visit of the inner loop: a positive entry feeds one bucket, a negative one the other, any other none. */
  lemma AccumulateStep(seen: seq<Entry>, item: Entry, positive: real, counterPositive: nat, negative: real, counterNegatif: nat)
    requires Accumulated(seen, positive, counterPositive, negative, counterNegatif)
    ensures IsPositive(item) ==>
      Accumulated(seen + [item], positive + item.value, counterPositive + 1, negative, counterNegatif)
    ensures IsNegative(item) ==>
      Accumulated(seen + [item], positive, counterPositive, negative + item.value, counterNegatif + 1)
    ensures !IsPositive(item) && !IsNegative(item) ==>
      Accumulated(seen + [item], positive, counterPositive, negative, counterNegatif)
  {
    FilterSnoc(seen, item, IsPositive);
    FilterSnoc(seen, item, IsNegative);
    TotalSnoc(Filter(seen, IsPositive), item);
    TotalSnoc(Filter(seen, IsNegative), item);
    assert Filter(seen, IsPositive) + [] == Filter(seen, IsPositive);
    assert Filter(seen, IsNegative) + [] == Filter(seen, IsNegative);
  }

  method ComputeOverallEmotion(scores: seq<Dict>) returns (overall: Sentiment)
    ensures overall == OverallEmotion(scores)
  {
    var positive, negative := 0.0, 0.0;
    var counterPositive: nat, counterNegatif: nat := 0, 0;
    ghost var seen: seq<Entry> := [];
    for i := 0 to |scores|
      invariant seen == Flatten(scores[..i])
      invariant Accumulated(seen, positive, counterPositive, negative, counterNegatif)
    {
      var scoreItem := scores[i];
      for j := 0 to |scoreItem|
        invariant seen == Flatten(scores[..i]) + scoreItem[..j]
        invariant Accumulated(seen, positive, counterPositive, negative, counterNegatif)
      {
        var item := scoreItem[j];
        AccumulateStep(seen, item, positive, counterPositive, negative, counterNegatif);
        if item.key in PosEmotions {
          positive := positive + item.value;
          counterPositive := counterPositive + 1;
        } else if item.key in NegEmotions {
          negative := negative + item.value;
          counterNegatif := counterNegatif + 1;
        }
        seen := seen + [item];
        assert scoreItem[..j + 1] == scoreItem[..j] + [item];
      }
      assert scoreItem[..|scoreItem|] == scoreItem;
      assert scores[..i + 1] == scores[..i] + [scoreItem];
      FlattenSnoc(scores[..i], scoreItem);
    }
    assert scores[..|scores|] == scores;
    if counterNegatif > 0 {
      negative := negative / counterNegatif as real;
    }
    if counterPositive > 0 {
      positive := positive / counterPositive as real;
    }
    overall := Sentiment(positive, negative);
  }

  /** The list `scores` that Run builds: each target's dict, sorted, then cut to its main emotions. */
  function KeywordScores(targets: seq<Target>): (r: seq<Dict>)
    requires WellFormed(targets)
    ensures |r| == |targets|
  {
    if targets == [] then []
    else
      var n := |targets| - 1;
      assert WellFormed(targets[..n]) by {
        assert forall i :: 0 <= i < n ==> targets[..n][i] == targets[i];
      }
      KeywordScores(targets[..n]) + [Filter(GetSortedScores(targets[n].emotion), IsMain)]
  }

  /** The `i`-th dict of the list is the `i`-th target's emotion dict, sorted and then cut. */
  lemma {:induction false} KeywordScoresAt(targets: seq<Target>, i: nat)
    requires WellFormed(targets) && i < |targets|
    ensures KeywordScores(targets)[i] == Filter(GetSortedScores(targets[i].emotion), IsMain)
  {
    var n := |targets| - 1;
    if i < n {
      var init := targets[..n];
      assert WellFormed(init) by {
        assert forall k :: 0 <= k < n ==> init[k] == targets[k];
      }
      KeywordScoresAt(init, i);
      assert init[i] == targets[i];
    }
  }

  /** The overall sentiment of the NLU service's targets, without the service call. */
  method Run(targets: seq<Target>) returns (overall: Sentiment)
    requires WellFormed(targets)
    ensures overall == OverallEmotion(KeywordScores(targets))
  {
    var scores: seq<Dict> := [];
    for i := 0 to |targets|
      invariant WellFormed(targets[..i]) && scores == KeywordScores(targets[..i])
    {
      var sortedScores := GetSortedScores(targets[i].emotion);
      var mainEmotions := GetMainEmotions(sortedScores);
      assert targets[..i + 1][..i] == targets[..i];
      scores := scores + [mainEmotions];
    }
    assert targets[..|targets|] == targets;
    overall := ComputeOverallEmotion(scores);
  }
}
