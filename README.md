# Keyword-emotion aggregator

This project models, in Dafny, the scoring core of `watson_emotion_score.py`.
The program sends an e-mail or voicemail text to IBM Watson Natural Language
Understanding and asks for emotion scores on a fixed list of keywords. It then
reduces the per-keyword scores to one overall sentiment,
`{"positif": …, "negatif": …}`:

1. `get_sorted_scores` rebuilds each keyword's emotion dict in order of
   decreasing score. The sort is stable, so equal scores keep their order.
2. `get_main_emotions` keeps the emotions scoring at least 0.10.
3. `compute_overall_emotion` gives two means:
   - `positif` is the mean of the `joy` scores;
   - `negatif` is the mean of the `anger`, `disgust`, `fear` and `sadness`
     scores, taken over every keyword;
   - each mean is 0.0 when its bucket is empty.
4. `run` chains the three steps over the service's list of targets.

The model takes that list as its input (`seq<Target>`).

Modules:

- `Dicts` (`dicts.dfy`): Python's insertion-ordered dict as an association
  list with distinct labels (`IsDict`). It also covers:
  - `d[k] = v` (`Put`);
  - the dict comprehension (`FromPairs`);
  - order-preserving filtering (`Filter`);
  - concatenation of a list of dicts (`Flatten`).
- `Sorting` (`sorting.dfy`): `sorted(…, key=value, reverse=True)` as a
  stable insertion sort `SortDesc`. It is proved ordered, a rearrangement,
  stable, and label-preserving.
- `Means` (`means.dfy`): sums and means, with permutation invariance and
  bounds.
- `WatsonEmotionScore` (`emotion_score.dfy`):
  - the constants;
  - `GetSortedScores`;
  - the loops of `get_main_emotions` and `compute_overall_emotion` as
    methods, proved against the specification functions `Filter` and
    `OverallEmotion`;
  - the aggregation loop of `run`.
- `EmotionProperties` (`emotion_properties.dfy`): what the aggregate
  promises. That covers independence from order and from the sort, the
  closed form, the 0.0 cases, ignored labels, bounds, and two worked
  examples.

## Model

| member | source | states |
|---|---|---|
| Dicts.Put | watson_emotion_score.py:80 | `d[k] = v`: a label not yet present is appended at the end; in a dict, a label already present keeps its position and takes the new value |
| Dicts.PutKeepsDict | watson_emotion_score.py:80 | assigning into a dict keeps its labels pairwise distinct |
| Dicts.FromPairs | watson_emotion_score.py:71 | the dict comprehension always yields a dict, with distinct labels |
| Dicts.FromDistinctPairs | watson_emotion_score.py:71 | rebuilding a dict from pairs whose labels are already distinct gives back exactly those pairs, in the same order |
| Dicts.FilterMember | watson_emotion_score.py:77-80 | an entry survives the filter if and only if it is in the input and satisfies the condition |
| Dicts.FilterPermutation | watson_emotion_score.py:77-80 | filtering two rearrangements of the same entries gives two rearrangements of the same survivors |
| Dicts.FlattenPermutation | watson_emotion_score.py:53-55 | the entries visited by the nested loops do not depend on the order of the list of dicts |
| Sorting.SortDesc | watson_emotion_score.py:71 | the sorted entries are a rearrangement of the input (same multiset, same length), with values non-increasing |
| Sorting.SortDescStable | watson_emotion_score.py:71 | the entries sharing any one value come out in the order they went in, as Python's stable `sorted` with `reverse=True` does |
| Sorting.SortDescKeepsDict | watson_emotion_score.py:71 | sorting a dict's items keeps their labels distinct |
| Means.MeanPermutation | watson_emotion_score.py:53-66 | sum divided by count does not depend on the order in which the values are added |
| Means.MeanTimesCount | watson_emotion_score.py:62-66 | the mean times the number of values is their sum, and the mean of no values is 0.0 |
| Means.MeanAtLeast | watson_emotion_score.py:62-66 | the mean of at least one value is at least any lower bound of the values |
| Means.MeanAtMost | watson_emotion_score.py:62-66 | the mean of at least one value is at most any upper bound of the values |
| WatsonEmotionScore.Labels | watson_emotion_score.py:10-11 | states the meaning of the constants `PosEmotions`, `NegEmotions` and `MainThreshold`: an entry is positive exactly when its label is `joy`; it is negative exactly when its label is `anger`, `disgust`, `fear` or `sadness`; it is a main emotion exactly when its score is at least 0.10 (line 79) |
| WatsonEmotionScore.GetSortedScores | watson_emotion_score.py:70-71 | `get_sorted_scores`: the comprehension over the stably sorted items always yields a dict; order and contents are stated by GetSortedScoresCorrect |
| WatsonEmotionScore.GetSortedScoresCorrect | watson_emotion_score.py:70-71 | the sorted dict holds exactly the input's (label, score) pairs, ordered by non-increasing score, with ties in input order |
| WatsonEmotionScore.GetMainEmotions | watson_emotion_score.py:74-81 | the new dict holds exactly the input entries with score at least 0.10 (both directions), with values unchanged and order kept, and is a dict |
| WatsonEmotionScore.AccumulateStep | watson_emotion_score.py:55-61 | one visited entry adds its score and one count to the positive bucket if its label is `joy`, to the negative one if it is a negative label, and to neither otherwise |
| WatsonEmotionScore.OverallEmotion | watson_emotion_score.py:48-67 | the reference aggregate: `positif` times the number of positive-label entries equals their sum, and it is 0.0 when there are none; `negatif` likewise for the negative-label entries |
| WatsonEmotionScore.ComputeOverallEmotion | watson_emotion_score.py:48-67 | the result is the mean of the positive-label scores and the mean of the negative-label scores over all dicts, each 0.0 when none is present |
| WatsonEmotionScore.KeywordScores | watson_emotion_score.py:31-37 | the `scores` list: one dict per target, in target order |
| WatsonEmotionScore.KeywordScoresAt | watson_emotion_score.py:33-37 | the `i`-th dict of `scores` is `get_main_emotions(get_sorted_scores(...))` of the `i`-th target's emotion dict |
| WatsonEmotionScore.Run | watson_emotion_score.py:31-38 | the aggregate of the list built by sorting and then cutting each target's emotion dict |
| EmotionProperties.ScoreListOrderDoesNotMatter | watson_emotion_score.py:53-67 | reordering the list of score dicts does not change either output |
| EmotionProperties.OverallDependsOnlyOnEntries | watson_emotion_score.py:53-67 | two score lists with the same (label, score) entries give the same outputs |
| EmotionProperties.SortedMainEmotions | watson_emotion_score.py:35-36 | cutting the sorted dict keeps the same entries as cutting the unsorted one |
| EmotionProperties.KeywordScoresEntries | watson_emotion_score.py:33-37 | the list built by the loop holds exactly the reported entries scoring at least 0.10 |
| EmotionProperties.SortingDoesNotChangeAggregate | watson_emotion_score.py:35-38 | skipping the sort before the cut gives the same outputs |
| EmotionProperties.RunIsMeanOfMainEmotions | watson_emotion_score.py:33-38 | `positif` is the mean of the joy scores of at least 0.10 across all targets, and `negatif` the mean of the negative-label scores of at least 0.10 |
| EmotionProperties.AllEntriesMember | watson_emotion_score.py:33-34 | an entry is among the reported entries if and only if some target's dict holds it |
| EmotionProperties.NoPolarLabelsGiveZero | watson_emotion_score.py:49-52 | no entry with a positive or negative label (in particular an empty list) gives 0.0 and 0.0 |
| EmotionProperties.IgnoredLabelHasNoEffect | watson_emotion_score.py:56-61 | an entry whose label is in neither list, inserted anywhere in any dict, changes neither output |
| EmotionProperties.BucketMeanBounds | watson_emotion_score.py:62-66 | an empty bucket gives 0.0; a non-empty bucket whose scores lie in [lo, hi] gives a mean in [lo, hi] |
| EmotionProperties.OverallInUnitInterval | watson_emotion_score.py:62-67 | scores in [0, 1] give outputs in [0, 1] |
| EmotionProperties.ReportedMember | watson_emotion_score.py:56-61 | a bucket averaged by run is non-empty if and only if some target reports a main emotion of that polarity |
| EmotionProperties.BucketMeanAtLeast | watson_emotion_score.py:62-66 | a non-empty bucket whose scores are all at least lo has a mean of at least lo |
| EmotionProperties.RunZeroIffUnreported | watson_emotion_score.py:62-67 | for any scores, after the cut an output is 0.0 if and only if no target reports a main emotion of its polarity, and otherwise it is at least 0.10 |
| EmotionProperties.RunBounds | watson_emotion_score.py:62-67 | in addition, when every score is at most 1.0, a nonzero output also lies at or below 1.0; only this upper limit needs the bound on the scores |
| EmotionProperties.ExampleWeakAngerIsDropped | watson_emotion_score.py:79 | one target with joy at or above 0.10 and anger below it gives `positif` = the joy score and `negatif` = 0.0 |
| EmotionProperties.ExampleTwoNegativesAreAveraged | watson_emotion_score.py:59-63 | two targets with anger and sadness at or above 0.10 give `positif` 0.0 and `negatif` their mean |

## Left out

- The call to the NLU service, with its authenticator, service URL and
  version (`watson_emotion_score.py:14-19, 26`). The service's response
  is I/O. The model takes over from the list `targets` it contains
  (line 30).
- The JSON shape of the response (`nlu_response["emotion"]["targets"]`,
  lines 28-30): a target is modelled as its keyword text plus its emotion
  dict.
- `ENTITIES` (line 9): only the service call uses it.
- The lowering of the input text: only the service call uses it.
- The output dict with `text`, `sentiment` and `detailed_sentiment`
  (lines 40-44): it only copies inputs beside the modelled `overall`.
- The `__main__` demonstration and its printing (lines 86-89).
- `handler.py` is not part of this model. It is the SES/S3 e-mail and
  attachment handler: it reads the e-mail from S3, stores its first
  attachment and deletes the e-mail. It imports `run` but does not call it.
- Floating point: scores are exact reals and the two counters are natural
  numbers. The source keeps the counters as floats, but they only ever
  hold small integers, so the model matches whenever float addition and
  division are exact. Rounding of the sums and quotients is not modelled.
- Python's dynamic types: every score is taken to be a number, and every
  emotion dict is taken to have distinct labels (`WellFormed`), as every
  Python dict does.
