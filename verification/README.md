# Career-fit assessment: scoring engine, question catalog and flow

This project models the core of the affiliate-marketing career-fit assessment in Dafny.

- **The question catalog.** A constant list of sixteen questions in three categories: psychometric, technical and WISCAR. WISCAR stands for Will, Interest, Skill, Cognitive ability, Ability to learn and Real-world fit.
- **The scoring engine.** It turns the respondent's answers into several results:
  - a psychometric fit score and a technical readiness score;
  - six WISCAR sub-scores;
  - an overall confidence score;
  - a Yes/Maybe/No recommendation;
  - the career matches, skill gaps, learning path and next steps derived from these.
- **The assessment flow.** The component state that shows the intro, walks through the question cards, records answers and finally stores the results.

The project has four modules:

- `Optional` (`optional.dfy`): the option type used for optional fields and `undefined` results.
- `Catalog` (`catalog.dfy`): the sixteen questions, with the lookup by id and lemmas about the catalog's shape.
- `Scoring` (`scoring.dfy`): the engine. Each `forEach`/`push` loop of the source is a method, proved equal to a specification function. The properties are proved about those functions.
- `AssessmentFlow` (`assessment.dfy`): the component state as a class. Its handlers update the fields in place.

Arithmetic is exact (`real`). `Math.round(x)` is `Floor(x + 1/2)`.

An empty psychometric or technical group divides 0 by 0 in the source. The model keeps that outcome: `Score` is either an integer or `NaN`. `NaN` carries through rounding and the confidence formula, and every comparison with it is false. So when a category has no answer, the model gives what the source gives:

- the recommendation is No;
- the learning path is the beginner path;
- the next steps are the No steps;
- when the technical group is the empty one, "Technical foundations" is missing from the skill gaps.

The catalog guarantees that this cannot happen for a complete answer set, and that such a set leaves no WISCAR dimension at its empty-bucket default of 50 (`Scoring.CompleteAnswersDefined`).

Two results about the engine as a whole are proved as well:

- The results depend on which answers were given, not on their order (`Scoring.ResultsReorder`). In the flow, answering two different questions in either order gives the same results (`AssessmentFlow.AnswerOrderIrrelevant`).
- `Scoring.BestAnswers` answers every question with its best value: the top of every slider, the correct option where there is one, and otherwise the option that the question's scoring table ranks highest. These answers get a Yes recommendation with the top four careers (`Scoring.BestAnswersRecommendYes`).

The model follows the code where it departs from what one might expect:

- The slider rescale divides by 9 whatever bounds the question declares. Every catalog slider declares 1..10 (`Catalog.SlidersSpanOneToTen`), so the two agree on the catalog.
- The catalog has 16 questions.
- A psychometric multiple-choice answer whose subcategory is neither `personality` nor `work_style` scores 0.
- The WISCAR average is rounded before it enters the confidence.
- WISCAR answers are filed by subcategory only; the question's category is not checked again.

## Model

| member | source | states |
|---|---|---|
| Catalog.CatalogSize | src/data/questions.ts:3-207 | The catalog has exactly 16 questions. |
| Catalog.CatalogIdsDistinct | src/data/questions.ts:5-206 | No two catalog questions share an id. |
| Catalog.FindIn | src/utils/scoring.ts:49 | `find` over a question list: the first question carrying the id, or none. Its properties are `Catalog.FindInFinds` and `Catalog.FindInDistinct`. |
| Catalog.Weight | src/utils/scoring.ts:67-68 | `question.weight \|\| 1`: the declared weight, or 1 when it is missing or zero. On the catalog it is the declared weight (`Catalog.CatalogWeights`). |
| Catalog.InRange | src/components/assessment/QuestionCard.tsx:92-93 | The values the card offers: a slider from `min \|\| 1` to `max \|\| 10`, or an option index. On the catalog a slider value is in range exactly when it lies in 1..10 (`Catalog.SlidersSpanOneToTen`). |
| Catalog.Find | src/utils/scoring.ts:49-50 | The lookup by id returns, when it hits, a question carrying that id with the catalog's shape (positive weight, 1..10 sliders, four-option choices). |
| Catalog.FindInFinds | src/utils/scoring.ts:49 | `find` returns an element of the list carrying the id, and misses exactly when no element carries it. |
| Catalog.FindInCatalog | src/utils/scoring.ts:49-50 | The lookup returns an entry of the catalog, and misses exactly the ids that no question has. |
| Catalog.FindInDistinct | src/utils/scoring.ts:49 | In a list with distinct ids, looking up an element's id returns that element. |
| Catalog.FindCatalog | src/data/questions.ts:5-206 | Every catalog question is found by its own id. |
| Catalog.CatalogWellFormed | src/data/questions.ts:3-207 | Every catalog question has a positive weight. Sliders span 1..10 and have no options. Choice questions have four options, and any correct answer is one of them. |
| Catalog.SlidersSpanOneToTen | src/data/questions.ts:3-207 | Every slider declares min 1 and max 10, so an answer is within its range exactly when it lies in 1..10; the hard-coded /9 rescale matches. |
| Catalog.ChoicesHaveFourOptions | src/data/questions.ts:3-207 | Every non-slider question has four options and no bounds. Every correct answer (1, 1 and 0) is a valid option index of a choice question. |
| Catalog.CatalogWeights | src/data/questions.ts:3-207 | Every weight is declared, positive and one of 1, 1.5 and 2, so `weight \|\| 1` is the declared weight. |
| Catalog.WiscarOnePerDimension | src/data/questions.ts:128-205 | Each of the six WISCAR keys is the subcategory of exactly one WISCAR question, and every WISCAR question's subcategory is one of the keys. |
| Catalog.PsychometricChoiceSubcategories | src/data/questions.ts:15-52 | The psychometric choice questions are multiple-choice with subcategory `personality` or `work_style`, and no psychometric question has a correct answer. |
| Catalog.TechnicalCorrectAnswers | src/data/questions.ts:65-125 | A technical question has a correct answer exactly when it is not a slider; WISCAR questions have none. |
| Scoring.Round | src/utils/scoring.ts:71 | `Math.round` returns the integer within one half of its argument, halves rounding up. |
| Scoring.SliderScore | src/utils/scoring.ts:54 | The slider rescale (v−1)/9·100, with the divisor fixed at 9. Its properties are `Scoring.SliderScoreRescale`. |
| Scoring.TableScore | src/utils/scoring.ts:59-63 | `scores[i] \|\| 50`: the table entry, or 50 for a missing or zero entry. Its properties are `Scoring.TableScoreFallback`. |
| Scoring.RawScore | src/utils/scoring.ts:52-155 | The score of one answer under the psychometric (lines 52-65), technical (82-89) or WISCAR (137-155) branches. Its properties are the lemmas below and `Scoring.RawScoreWithinBounds`. |
| Scoring.SliderScoreRescale | src/utils/scoring.ts:54 | The slider rescale maps 1 to 0 and 10 to 100. It is strictly increasing, and it lies in [0,100] exactly for values 1..10. |
| Scoring.TableScoreFallback | src/utils/scoring.ts:59-63 | A table lookup returns the table's entry for an index in 0..3 and 50 for any other index. |
| Scoring.TechnicalChoiceAllOrNothing | src/utils/scoring.ts:85-88 | A technical choice or scenario answer to a question with a correct answer scores 100 when it matches and 0 otherwise. |
| Scoring.PsychometricOtherChoiceScoresZero | src/utils/scoring.ts:55-65 | A psychometric scenario answer, whatever its subcategory, and a psychometric multiple-choice answer whose subcategory has no table, score 0. |
| Scoring.WiscarDefaultRule | src/utils/scoring.ts:152-153 | A WISCAR choice answer in a dimension without a table scores (i+1)/4·100, which is 25 to 100 for the four options. |
| Scoring.RawScoreWithinBounds | src/utils/scoring.ts:52-155 | Under every rule, an answer within its question's range scores between 0 and 100. |
| Scoring.Key | src/utils/scoring.ts:99-106 | Every dimension's key is one of the six keys of the WISCAR record. |
| Scoring.DimensionOf | src/utils/scoring.ts:112 | A subcategory names a dimension exactly when it is one of the six keys, and that dimension's key is the subcategory. |
| Scoring.WeightOf | src/utils/scoring.ts:67-68 | One answer adds a non-negative weight, which is positive exactly when its id names a catalog question. |
| Scoring.TotalScore | src/utils/scoring.ts:67-90 | `totalScore += score * (question.weight \|\| 1)` summed in answer order. Its properties are `Scoring.TotalScoreWithin`, `Scoring.TotalsAppend`, `Scoring.TotalsReorder` and `Scoring.Accumulate`. |
| Scoring.TotalWeight | src/utils/scoring.ts:68 | The summed weight is never negative. |
| Scoring.TotalWeightPositive | src/utils/scoring.ts:50 | The summed weight is positive exactly when some answer names a catalog question. |
| Scoring.TotalScoreWithin | src/utils/scoring.ts:67 | When every raw score is in [0,100], the weighted score sum lies between 0 and 100 times the weight sum. |
| Scoring.ScoreOfWithin | src/utils/scoring.ts:67 | A raw score in [0,100] contributes between 0 and 100 times its weight. |
| Scoring.AggregateWithin | src/utils/scoring.ts:71 | When every raw score is in [0,100], so are the weighted mean and its rounding. |
| Scoring.InRangeAnswersWithin | src/utils/scoring.ts:44-72 | Answers within their questions' ranges have raw scores in [0,100] under every rule. |
| Scoring.Accumulate | src/utils/scoring.ts:45-69 | The `forEach` loop returns Σ score·weight and Σ weight over the answers. Unknown ids add nothing. |
| Scoring.Mean | src/utils/scoring.ts:71 | A group's rounded weighted mean is NaN exactly when no answer of the group names a catalog question. With raw scores in range it is otherwise in [0,100]. |
| Scoring.CalculatePsychometricScore | src/utils/scoring.ts:44-72 | The psychometric fit is the group's rounded weighted mean under the psychometric rule, NaN for 0/0. |
| Scoring.CalculateTechnicalScore | src/utils/scoring.ts:74-96 | The technical readiness is the group's rounded weighted mean under the technical rule, NaN for 0/0. |
| Scoring.SubcategoryScore | src/utils/scoring.ts:127-162 | A WISCAR dimension scores 50 with no answers. It is never NaN when all its answers name catalog questions, and with raw scores in range it lies in [0,100]. |
| Scoring.CalculateSubcategoryScore | src/utils/scoring.ts:127-162 | The loop computes the dimension score. |
| Scoring.DimensionOfAnswer | src/utils/scoring.ts:109-113 | An answer is filed under a dimension only when it names a catalog question. |
| Scoring.Bucket | src/utils/scoring.ts:108-115 | Every answer filed under a dimension names a catalog question whose subcategory is that dimension's key. Unknown ids, a missing subcategory and other subcategories are dropped. |
| Scoring.BucketStep | src/utils/scoring.ts:112-114 | One more answer extends a dimension's list exactly when that answer is filed under the dimension. |
| Scoring.BucketInRange | src/utils/scoring.ts:108-115 | Filing keeps answers within their ranges. |
| Scoring.FileByDimension | src/utils/scoring.ts:108-115 | The `forEach` loop pushes each answer onto the list of its dimension. |
| Scoring.DimensionScore | src/utils/scoring.ts:117-124 | A dimension with no filed answers scores exactly 50; with answers in range it scores between 0 and 100. |
| Scoring.WiscarScoresOf | src/utils/scoring.ts:117-124 | With answers in range, all six WISCAR sub-scores lie in [0,100]. |
| Scoring.CalculateWiscarScores | src/utils/scoring.ts:98-125 | Filing and then scoring each dimension gives the six dimension scores. |
| Scoring.GetAverageWiscarScore | src/utils/scoring.ts:164-167 | The rounded mean of the six sub-scores lies in [0,100] when they do, and equals their common value when all six are equal. |
| Scoring.OverallConfidence | src/utils/scoring.ts:21-23 | The confidence is NaN exactly when the psychometric or technical score is. It lies in [0,100] when its inputs do. |
| Scoring.GetRecommendation | src/utils/scoring.ts:169-173 | Yes iff confidence ≥ 85, Maybe iff 65 ≤ confidence < 85, No otherwise (including NaN). |
| Scoring.RecommendationMonotone | src/utils/scoring.ts:169-173 | A higher confidence never gets a less favourable recommendation, and NaN gets the least favourable. |
| Scoring.GetCareerMatches | src/utils/scoring.ts:175-195 | From 65 the careers are a prefix of the ranked list: four items from 85, three below. Below 65 they are the fixed two-item list when skill ≥ 70 and the fixed three-item list otherwise. |
| Scoring.CareersFollowRecommendation | src/utils/scoring.ts:175-195 | Yes gets the top four careers and Maybe the top three. No keeps affiliate careers only with skill ≥ 70, and otherwise offers careers outside the ranked list. |
| Scoring.CareersExtend | src/utils/scoring.ts:185-188 | Raising a confidence of at least 65 only extends the career list. |
| Scoring.GetLearningPath | src/utils/scoring.ts:208-216 | The learning path always has exactly two entries. |
| Scoring.LearningPathFollowsRecommendation | src/utils/scoring.ts:208-216 | The learning path is chosen by the recommendation's thresholds, and different recommendations get different paths. |
| Scoring.GapLabel | src/utils/scoring.ts:200-203 | The label pushed for each of the four gaps. Its property is `Scoring.GapLabelsDistinct`. |
| Scoring.GapLabelsDistinct | src/utils/scoring.ts:200-203 | The four gap labels are pairwise distinct, so a gap is identified by its label. |
| Scoring.SkillGaps | src/utils/scoring.ts:197-206 | The four checks in order: technical, skill, cognitive, real-world fit, each a gap below 70. Its properties are `Scoring.SkillGapsBelowSeventy`. |
| Scoring.SkillGapsBelowSeventy | src/utils/scoring.ts:197-206 | A gap is listed iff its score is strictly below 70 (never for NaN). Gaps appear at most once and in checking order. |
| Scoring.GetSkillGaps | src/utils/scoring.ts:197-206 | The pushes build the skill-gap list. |
| Scoring.GapTip | src/utils/scoring.ts:228-229 | The tip one gap adds: the SEO tip for technical foundations, the content tip for content creation, none otherwise. Its properties are `Scoring.GapTips` and `Scoring.GapTipsAppend`. |
| Scoring.GapTips | src/utils/scoring.ts:227-230 | The gap tips number at most one per gap, and each is the SEO tip or the content tip. |
| Scoring.GapTipsAppend | src/utils/scoring.ts:227-230 | The tips of two gap lists put together are the two tip lists put together. |
| Scoring.NextSteps | src/utils/scoring.ts:218-237 | Yes and No give exactly three steps. Maybe gives the foundation course first, and at most one more step per gap. |
| Scoring.GetNextSteps | src/utils/scoring.ts:218-237 | The pushes and the `forEach` over the gaps build the next steps. |
| Scoring.MaybeStepsForSkillGaps | src/utils/scoring.ts:225-230 | For the engine's own gaps, Maybe's steps are the foundation course, then the SEO tip iff technical < 70, then the content tip iff skill < 70 (at most three steps). |
| Scoring.CategoryAnswers | src/utils/scoring.ts:5-15 | The filter keeps only answers that name a catalog question of that category. |
| Scoring.CategoryAnswersKeep | src/utils/scoring.ts:5-15 | The filter keeps every answer of that category. |
| Scoring.CategoryInRange | src/utils/scoring.ts:5-15 | Filtering keeps answers within their ranges. |
| Scoring.CategoryMeanNaN | src/utils/scoring.ts:71 | A category's score is NaN exactly when no answer belongs to the category. |
| Scoring.AssessmentResultsOf | src/utils/scoring.ts:4-42 | The results record of the answers: filter by category, score the three groups, combine. It is the specification that `Scoring.CalculateAssessmentResults` meets, and the subject of `Scoring.ResultsWithin`, `Scoring.MissingCategory`, `Scoring.ResultsReorder` and `Scoring.BestAnswersRecommendYes`. |
| Scoring.CalculateAssessmentResults | src/utils/scoring.ts:4-42 | The results record is built from the filtered groups, the three scores, the confidence and the four derived lists. |
| Scoring.ResultsWithin | src/utils/scoring.ts:4-42 | For answers within their ranges, every score in the results (psychometric, technical, WISCAR, confidence) is NaN or in [0,100]. |
| Scoring.MissingCategory | src/utils/scoring.ts:17-29 | With no psychometric (or no technical) answer that score is NaN, and vice versa. A NaN confidence gives No, the beginner path and the No steps; a NaN technical score reports no technical gap. |
| Scoring.UnknownAnswerIgnored | src/utils/scoring.ts:5-15 | An answer whose id names no catalog question changes no part of the results. |
| Scoring.CompleteAnswersDefined | src/utils/scoring.ts:4-42 | An answer to every catalog question gives a defined psychometric score, technical score and confidence, and fills the bucket of every WISCAR dimension, so none falls back to the empty-bucket 50. |
| Scoring.AnsweredBucket | src/utils/scoring.ts:108-127 | An answer to the WISCAR question of a dimension puts an answer in that dimension's bucket. |
| Scoring.TotalsAppend | src/utils/scoring.ts:45-69 | The weighted score sum and the weight sum over two answer lists put together are the sums over each. |
| Scoring.CategoryAppend | src/utils/scoring.ts:5-15 | Filtering two answer lists put together gives the two filtered lists put together. |
| Scoring.BucketAppend | src/utils/scoring.ts:108-115 | Filing two answer lists put together gives, per dimension, the two filed lists put together. |
| Scoring.TotalsReorder | src/utils/scoring.ts:45-69 | Reordering the answers changes neither the weighted score sum nor the weight sum. |
| Scoring.CategoryReorder | src/utils/scoring.ts:5-15 | Reordering the answers only reorders each category's group. |
| Scoring.BucketReorder | src/utils/scoring.ts:108-115 | Reordering the answers only reorders each dimension's list. |
| Scoring.MeanReorder | src/utils/scoring.ts:44-72 | A group's rounded weighted mean does not depend on the order of its answers. |
| Scoring.ResultsReorder | src/utils/scoring.ts:4-42 | The whole results record does not depend on the order of the answers. |
| Scoring.BestScore | src/utils/scoring.ts:52-162 | The best value of each catalog question scores at least 85 psychometrically, exactly 100 technically, and at least 90 in its WISCAR dimension. |
| Scoring.TotalScoreAtLeast | src/utils/scoring.ts:45-69 | When every answer to a catalog question scores at least a bound, the weighted score sum is at least the bound times each weight, summed. |
| Scoring.MeanAtLeast | src/utils/scoring.ts:71 | A group with an answer to a catalog question, every one of whose raw scores is at least a bound, has a defined rounded mean of at least that bound. |
| Scoring.BestCategoryMean | src/utils/scoring.ts:44-96 | When every best value of a category's questions scores at least a bound, the category's mean over the best answers is defined and at least that bound. |
| Scoring.BestPsychometric | src/utils/scoring.ts:44-72 | With the best answers the psychometric fit is defined and at least 85. |
| Scoring.BestTechnical | src/utils/scoring.ts:74-96 | With the best answers the technical readiness is exactly 100. |
| Scoring.BestDimension | src/utils/scoring.ts:117-162 | With the best answers every WISCAR dimension scores at least 90. |
| Scoring.AverageAtLeast | src/utils/scoring.ts:164-167 | Six sub-scores of at least a bound average to at least that bound. |
| Scoring.BestAnswersRecommendYes | src/utils/scoring.ts:4-42 | Answering every question with its best value gives psychometric fit ≥ 85, technical readiness 100, every WISCAR score ≥ 90 and confidence ≥ 85, so the recommendation is Yes with the top four careers. |
| AssessmentFlow.IndexOf | src/components/assessment/Assessment.tsx:29 | `findIndex` returns the first position answering the question, or none when no position does. |
| AssessmentFlow.FindIndex | src/components/assessment/Assessment.tsx:29 | The search loop finds that first position, or -1. |
| AssessmentFlow.IndexOfFirst | src/components/assessment/Assessment.tsx:29 | The first position holding an id is the one `findIndex` returns. |
| AssessmentFlow.Upsert | src/components/assessment/Assessment.tsx:28-40 | Overwrite the answer at the `findIndex` position, or append when there is none. Its properties are `AssessmentFlow.UpsertRecords`, `AssessmentFlow.UpsertDistinct`, `AssessmentFlow.UpsertLatestWins` and `AssessmentFlow.UpsertCommutes`. |
| AssessmentFlow.UpsertRecords | src/components/assessment/Assessment.tsx:28-40 | An answer to an answered question overwrites that entry in place, keeping the length and every other entry. An answer to a new question is appended. The answers to other questions are unchanged. |
| AssessmentFlow.UpsertDistinct | src/components/assessment/Assessment.tsx:29-40 | Recording keeps at most one answer per question, and afterwards the entry for that question is the new answer. |
| AssessmentFlow.UpsertLatestWins | src/components/assessment/Assessment.tsx:28-40 | Recording two answers to the same question in turn leaves the same list as recording only the second. |
| AssessmentFlow.IndexOfOther | src/components/assessment/Assessment.tsx:28-40 | Recording an answer does not move the position of the answer to any other question. |
| AssessmentFlow.UpsertCommutes | src/components/assessment/Assessment.tsx:28-40 | Recording answers to two different questions in either order leaves the same answers, possibly in a different order. |
| AssessmentFlow.AnswerOrderIrrelevant | src/components/assessment/Assessment.tsx:24-47 | Answering two different questions in either order gives the same results. |
| AssessmentFlow.Assessment.constructor | src/components/assessment/Assessment.tsx:10-15 | The initial state: index -1, no answers, not complete, no results, showing the intro. |
| AssessmentFlow.Assessment.Valid | src/components/assessment/Assessment.tsx:10-81 | The state every handler keeps: the index is -1 or a catalog position; the answers are to catalog questions, one per question; the assessment is complete only on the last question; results are present exactly when complete and are then the results of the answers. |
| AssessmentFlow.Assessment.IsInitial | src/components/assessment/Assessment.tsx:10-15 | Index -1, no answers, not complete, no results. |
| AssessmentFlow.Assessment.View | src/components/assessment/Assessment.tsx:83-108 | The intro is shown exactly at index -1. The results page is shown exactly when started and complete, with the results of the recorded answers. Otherwise the card shows the question at the current index. |
| AssessmentFlow.Assessment.Start | src/components/assessment/Assessment.tsx:17-22 | Start moves from the intro to question 0 and changes nothing else. |
| AssessmentFlow.Assessment.HandleAnswer | src/components/assessment/Assessment.tsx:24-47 | The answer to the question on screen is upserted. The card then shows the new value, and the state invariant (catalog ids only, one answer per question) still holds. |
| AssessmentFlow.Assessment.Next | src/components/assessment/Assessment.tsx:49-65 | On the last question it completes and stores the results of the recorded answers, leaving the index. Otherwise it advances the index by one. The index stays within 0..15. |
| AssessmentFlow.Assessment.Complete | src/components/assessment/Assessment.tsx:50-57 | On the last question the assessment completes and stores the results of the recorded answers, keeping the answers and the index. |
| AssessmentFlow.Assessment.Previous | src/components/assessment/Assessment.tsx:67-72 | Previous steps back exactly when the back button is enabled (index > 0). It never goes below 0. |
| AssessmentFlow.Assessment.Restart | src/components/assessment/Assessment.tsx:74-81 | Restart returns to exactly the initial state. |
| AssessmentFlow.Assessment.QuestionNumber | src/components/assessment/Assessment.tsx:100 | The displayed question number is between 1 and 16. |
| AssessmentFlow.Assessment.CanGoBack | src/components/assessment/Assessment.tsx:105 | The back button is enabled exactly when the index is above 0; `AssessmentFlow.Assessment.Previous` steps back exactly then. |
| AssessmentFlow.Assessment.CurrentAnswer | src/components/assessment/Assessment.tsx:95-106 | The card's initial value is present exactly when some answer is to the question on screen, and it is then the value of such an answer. |

## Left out

- Rendering is not modelled: the intro, the question card, the results page, progress, colours, icons and the slider's initial position. Only the render choice between intro, card and results page is kept, as `Assessment.View`.
- The React machinery is not modelled: `useState`, `useCallback`, closures and the asynchronous state updates. Each handler is a method that updates the state at once.
- Question text, option strings and scenario prose are not modelled. A question keeps its option count only.
- `Answer.value` is an `int`. The `number | string` union, `Number()` coercion and the optional `score` field are not modelled.
- Arithmetic is exact rational arithmetic. IEEE-754 rounding of the intermediate sums is not modelled; NaN is, as described above.
- The WISCAR filing check is membership in the six keys. JavaScript's `in` also accepts inherited property names such as `toString`; no catalog subcategory is one.
- The skill gaps are a datatype with their labels (`GapLabel`), rather than strings. The next-steps function therefore only ever sees the four labels the engine produces.
- Scoring.GetCareerMatches, Scoring.GetLearningPath and Scoring.NextSteps return their literal lists. Their contracts state the lists' shape and thresholds, not every literal string; the strings are the constants of the module.
- The handlers carry the preconditions the render logic guarantees:
  - `Start` runs only on the intro;
  - `HandleAnswer`, `Next` and `Previous` run only while a question card is shown.

  `HandleAnswer` with index -1 would dereference a missing question.
- Scoring.BestAnswersRecommendYes: states lower bounds for the psychometric fit (85), the WISCAR scores (90) and the confidence (85), not their exact values; the bounds decide the recommendation and the careers.
