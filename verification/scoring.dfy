/**
 * The career-fit scoring engine: from the respondent's answers to category
 * scores, six WISCAR sub-scores, an overall confidence, a Yes/Maybe/No
 * recommendation and the advisory lists derived from them.
 *
 * Arithmetic is exact (`real`); `Math.round(x)` is `Floor(x + 1/2)`.
 */
module Scoring {
  import opened Optional
  import opened Catalog

  /** An answer: the id of the question and the slider value or option index chosen. */
  datatype Answer = Answer(questionId: string, value: int)

  datatype WiscarScores = WiscarScores(
    will: int, interest: int, skill: int, cognitive: int, abilityToLearn: int, realWorldFit: int)

  datatype Recommendation = Yes | Maybe | No

  /** A number the aggregations produce: an integer, or NaN when a group with no
      weight is averaged (0/0). `Math.round` and arithmetic keep NaN, and every
      comparison with it is false. */
  datatype Score = Num(value: int) | NaN

  /** `x >= t` on such a number. */
  predicate AtLeast(x: Score, t: int)
  {
    x.Num? && x.value >= t
  }

  /** `x < t` on such a number. */
  predicate Below(x: Score, t: int)
  {
    x.Num? && x.value < t
  }

  /** A score that is NaN or lies between 0 and 100. */
  predicate Percent(x: Score)
  {
    x.Num? ==> 0 <= x.value <= 100
  }

  datatype AssessmentResults = AssessmentResults(
    psychFitScore: Score,
    techReadyScore: Score,
    wiscarScores: WiscarScores,
    overallConfidence: Score,
    recommendation: Recommendation,
    careerMatches: seq<string>,
    skillGaps: seq<Gap>,
    learningPath: seq<string>,
    nextSteps: seq<string>)

  // ---------------------------------------------------------------------------
  // Rounding and per-answer raw scores
  // ---------------------------------------------------------------------------

  /** `Math.round`: the nearest integer, halves rounded up. */
  function Round(x: real): (r: int)
    ensures x - 0.5 < r as real <= x + 0.5
  {
    (x + 0.5).Floor
  }

  /** The slider rescale, hard-coded for the range 1..10 whatever the question declares. */
  function SliderScore(v: int): real
  {
    (v - 1) as real / 9.0 * 100.0
  }

  const PersonalityScores: seq<int> := [90, 70, 40, 85]
  const WorkStyleScores: seq<int> := [85, 75, 55, 80]
  const WillScores: seq<int> := [20, 90, 40, 85]
  const CognitiveScores: seq<int> := [30, 40, 95, 20]
  const RealWorldFitScores: seq<int> := [40, 95, 30, 60]

  /** `scores[i] || 50`: a missing (or zero) entry falls back to 50. */
  function TableScore(table: seq<int>, i: int): real
  {
    if 0 <= i < |table| && table[i] != 0 then table[i] as real else 50.0
  }

  /** The six keys of the WISCAR record, as a closed variant. */
  datatype Dimension = Will | Interest | Skill | Cognitive | AbilityToLearn | RealWorldFit

  /** The record key of each dimension. */
  function Key(d: Dimension): (k: string)
    ensures k in WiscarKeys
  {
    match d
    case Will => "will"
    case Interest => "interest"
    case Skill => "skill"
    case Cognitive => "cognitive"
    case AbilityToLearn => "abilityToLearn"
    case RealWorldFit => "realWorldFit"
  }

  /** `s in wiscarCategories`: the dimension whose key is `s`, if any. */
  function DimensionOf(s: string): (d: Option<Dimension>)
    ensures d.Some? <==> s in WiscarKeys
    ensures d.Some? ==> Key(d.value) == s
  {
    if s == "will" then Some(Will)
    else if s == "interest" then Some(Interest)
    else if s == "skill" then Some(Skill)
    else if s == "cognitive" then Some(Cognitive)
    else if s == "abilityToLearn" then Some(AbilityToLearn)
    else if s == "realWorldFit" then Some(RealWorldFit)
    else None
  }

  /** Which of the three scoring loops an answer is scored by; a WISCAR
      dimension is scored with the table of the dimension it was filed under. */
  datatype Rule = PsychometricRule | TechnicalRule | WiscarRule(dimension: Dimension)

  /** The score of one answer `v` to question `q` under `rule`. */
  function RawScore(rule: Rule, q: Question, v: int): real
  {
    match rule
    case PsychometricRule =>
      if q.kind == Slider then SliderScore(v)
      else if q.kind == MultipleChoice then
        if q.subcategory == Some("personality") then TableScore(PersonalityScores, v)
        else if q.subcategory == Some("work_style") then TableScore(WorkStyleScores, v)
        else 0.0
      else 0.0
    case TechnicalRule =>
      if q.kind == Slider then SliderScore(v)
      else if (q.kind == MultipleChoice || q.kind == Scenario) && q.correctAnswer.Some? then
        if v == q.correctAnswer.value then 100.0 else 0.0
      else 0.0
    case WiscarRule(dimension) =>
      if q.kind == Slider then SliderScore(v)
      else if dimension == Will then TableScore(WillScores, v)
      else if dimension == Cognitive then TableScore(CognitiveScores, v)
      else if dimension == RealWorldFit then TableScore(RealWorldFitScores, v)
      else (v + 1) as real / 4.0 * 100.0
  }

  /** Slider value 1 scores 0, value 10 scores 100, and the rescale is strictly increasing. */
  lemma SliderScoreRescale(v: int, w: int)
    ensures SliderScore(1) == 0.0 && SliderScore(10) == 100.0
    ensures v < w ==> SliderScore(v) < SliderScore(w)
    ensures 0.0 <= SliderScore(v) <= 100.0 <==> 1 <= v <= 10
  {
  }

  /** Every table lookup is 50 outside the indices 0..3, the table entry inside. */
  lemma TableScoreFallback(i: int)
    ensures forall table :: table in [PersonalityScores, WorkStyleScores, WillScores, CognitiveScores, RealWorldFitScores] ==>
      (0 <= i < 4 ==> TableScore(table, i) == table[i] as real && 0.0 < TableScore(table, i) <= 100.0)
      && (!(0 <= i < 4) ==> TableScore(table, i) == 50.0)
  {
  }

  /** A technical choice or scenario question with a correct answer scores 100 exactly when it is chosen. */
  lemma TechnicalChoiceAllOrNothing(q: Question, v: int)
    requires q.kind != Slider && q.correctAnswer.Some?
    ensures RawScore(TechnicalRule, q, v) == 100.0 <==> v == q.correctAnswer.value
    ensures RawScore(TechnicalRule, q, v) == 0.0 <==> v != q.correctAnswer.value
  {
  }

  /** A psychometric scenario question, and a multiple-choice question outside
      `personality` and `work_style`, scores 0 whatever the answer. */
  lemma PsychometricOtherChoiceScoresZero(q: Question, v: int)
    requires q.kind != Slider
    requires q.kind == MultipleChoice ==> q.subcategory != Some("personality") && q.subcategory != Some("work_style")
    ensures RawScore(PsychometricRule, q, v) == 0.0
  {
  }

  /** A WISCAR choice question with no table scores (i+1)/4*100: 25, 50, 75 or 100 for the four options. */
  lemma WiscarDefaultRule(q: Question, d: Dimension, i: int)
    requires q.kind != Slider && d in {Interest, Skill, AbilityToLearn}
    ensures RawScore(WiscarRule(d), q, i) == (i + 1) as real * 25.0
    ensures 0 <= i < 4 ==> 25.0 <= RawScore(WiscarRule(d), q, i) <= 100.0
  {
  }

  /** An answer within its catalog question's range scores between 0 and 100 under every rule. */
  lemma RawScoreWithinBounds(rule: Rule, q: Question, v: int)
    requires WellFormed(q) && InRange(q, v)
    ensures 0.0 <= RawScore(rule, q, v) <= 100.0
  {
    TableScoreFallback(v);
  }

  // ---------------------------------------------------------------------------
  // Weighted aggregation
  // ---------------------------------------------------------------------------

  /** The raw score of one answer under `rule`; 0 for an unknown question id. */
  function RawScoreOf(rule: Rule, a: Answer): real
  {
    match Find(a.questionId)
    case None => 0.0
    case Some(q) => RawScore(rule, q, a.value)
  }

  /** What one answer adds to the running total score; an unknown question id adds nothing. */
  function ScoreOf(rule: Rule, a: Answer): real
  {
    Weighted(RawScoreOf(rule, a), WeightOf(a))
  }

  /** A score multiplied by the weight of its question. */
  function Weighted(score: real, weight: real): real
  {
    score * weight
  }

  /** What one answer adds to the running total weight; an unknown question id adds nothing. */
  function WeightOf(a: Answer): (w: real)
    ensures w >= 0.0
    ensures w > 0.0 <==> Find(a.questionId).Some?
  {
    match Find(a.questionId)
    case None => 0.0
    case Some(q) => Weight(q)
  }

  /** Σ rawScore·weight over the answers, accumulated in answer order. */
  function TotalScore(rule: Rule, answers: seq<Answer>): real
    decreases |answers|
  {
    if answers == [] then 0.0
    else TotalScore(rule, answers[..|answers| - 1]) + ScoreOf(rule, answers[|answers| - 1])
  }

  /** Σ weight over the answers, accumulated in answer order. */
  function TotalWeight(answers: seq<Answer>): (w: real)
    decreases |answers|
    ensures w >= 0.0
  {
    if answers == [] then 0.0
    else TotalWeight(answers[..|answers| - 1]) + WeightOf(answers[|answers| - 1])
  }

  /** An answer names a question of the catalog. */
  predicate Known(a: Answer)
  {
    Find(a.questionId).Some?
  }

  /** The total weight is positive exactly when some answer names a catalog question. */
  lemma {:induction false} TotalWeightPositive(answers: seq<Answer>)
    decreases |answers|
    ensures TotalWeight(answers) > 0.0 <==> exists i :: 0 <= i < |answers| && Known(answers[i])
  {
    if answers != [] {
      var n := |answers| - 1;
      var init := answers[..n];
      TotalWeightPositive(init);
      if TotalWeight(init) > 0.0 {
        var j :| 0 <= j < |init| && Known(init[j]);
        assert answers[j] == init[j];
      } else if exists i :: 0 <= i < |answers| && Known(answers[i]) {
        var i :| 0 <= i < |answers| && Known(answers[i]);
        if i < n {
          assert init[i] == answers[i];
        }
      }
    }
  }

  /** Σ score·w / Σ w. */
  function WeightedMean(rule: Rule, answers: seq<Answer>): real
    requires TotalWeight(answers) > 0.0
  {
    TotalScore(rule, answers) / TotalWeight(answers)
  }

  /** Every answer that names a catalog question has a raw score between 0 and 100. */
  ghost predicate RawScoresWithin(rule: Rule, answers: seq<Answer>)
  {
    forall i :: 0 <= i < |answers| ==> RawScoreWithin(rule, answers[i])
  }

  ghost predicate RawScoreWithin(rule: Rule, a: Answer)
  {
    0.0 <= RawScoreOf(rule, a) <= 100.0
  }

  /** A raw score in [0,100] contributes between 0 and 100 times its weight. */
  lemma ScoreOfWithin(rule: Rule, a: Answer)
    requires RawScoreWithin(rule, a)
    ensures 0.0 <= ScoreOf(rule, a) <= 100.0 * WeightOf(a)
  {
    WeightedWithin(RawScoreOf(rule, a), WeightOf(a));
  }

  lemma WeightedWithin(x: real, w: real)
    requires 0.0 <= x <= 100.0 && w >= 0.0
    ensures 0.0 <= Weighted(x, w) <= 100.0 * w
  {
    var room := 100.0 - x;
    assert x * w >= 0.0 && room * w >= 0.0;
    assert 100.0 * w - x * w == room * w;
  }

  lemma {:induction false} TotalScoreWithin(rule: Rule, answers: seq<Answer>)
    requires RawScoresWithin(rule, answers)
    ensures 0.0 <= TotalScore(rule, answers) <= 100.0 * TotalWeight(answers)
    decreases |answers|
  {
    if answers != [] {
      var n := |answers| - 1;
      assert RawScoresWithin(rule, answers[..n]) by {
        forall i | 0 <= i < n ensures RawScoreWithin(rule, answers[..n][i]) {
          assert answers[..n][i] == answers[i];
        }
      }
      TotalScoreWithin(rule, answers[..n]);
      ScoreOfWithin(rule, answers[n]);
    }
  }

  /** If every raw score lies in [0,100], so does the rounded weighted mean. */
  lemma {:induction false} AggregateWithin(rule: Rule, answers: seq<Answer>)
    requires TotalWeight(answers) > 0.0
    ensures RawScoresWithin(rule, answers) ==> 0.0 <= WeightedMean(rule, answers) <= 100.0
    ensures RawScoresWithin(rule, answers) ==> 0 <= Round(WeightedMean(rule, answers)) <= 100
  {
    if RawScoresWithin(rule, answers) {
      TotalScoreWithin(rule, answers);
      MeanWithin(TotalScore(rule, answers), TotalWeight(answers));
    }
  }

  lemma MeanWithin(t: real, w: real)
    requires w > 0.0 && 0.0 <= t <= 100.0 * w
    ensures 0.0 <= t / w <= 100.0
  {
    assert t / w * w == t;
  }

  /** Answers that stay within their questions' ranges have raw scores in [0,100]. */
  lemma InRangeAnswersWithin(rule: Rule, answers: seq<Answer>)
    ensures AnswersInRange(answers) ==> RawScoresWithin(rule, answers)
  {
    forall i | 0 <= i < |answers| && AnswerInRange(answers[i]) ensures RawScoreWithin(rule, answers[i]) {
      if Known(answers[i]) {
        RawScoreWithinBounds(rule, Find(answers[i].questionId).value, answers[i].value);
      }
    }
  }

  /** Every answer to a catalog question is within that question's range. */
  predicate AnswersInRange(answers: seq<Answer>)
  {
    forall i :: 0 <= i < |answers| ==> AnswerInRange(answers[i])
  }

  /** An answer to a catalog question is within that question's range. */
  predicate AnswerInRange(a: Answer)
  {
    Known(a) ==> InRange(Find(a.questionId).value, a.value)
  }

  /** The `forEach` loop shared by the three aggregations: it sums score·weight and weight. */
  method Accumulate(rule: Rule, answers: seq<Answer>) returns (totalScore: real, totalWeight: real)
    ensures totalScore == TotalScore(rule, answers)
    ensures totalWeight == TotalWeight(answers)
  {
    totalScore, totalWeight := 0.0, 0.0;
    var i := 0;
    while i < |answers|
      invariant 0 <= i <= |answers|
      invariant totalScore == TotalScore(rule, answers[..i])
      invariant totalWeight == TotalWeight(answers[..i])
    {
      var answer := answers[i];
      assert answers[..i + 1][..i] == answers[..i];
      // An answer to an unknown question adds 0 to both sums: the callback's early return.
      totalScore := totalScore + ScoreOf(rule, answer);
      totalWeight := totalWeight + WeightOf(answer);
      i := i + 1;
    }
    assert answers[..|answers|] == answers;
  }

  /** The rounded weighted mean of one group of answers: NaN exactly when no answer
      of the group names a catalog question, since the weights then sum to 0. */
  function Mean(rule: Rule, answers: seq<Answer>): (r: Score)
    ensures r.NaN? <==> forall i :: 0 <= i < |answers| ==> !Known(answers[i])
    ensures RawScoresWithin(rule, answers) ==> Percent(r)
  {
    TotalWeightPositive(answers);
    if TotalWeight(answers) > 0.0 then
      AggregateWithin(rule, answers);
      Num(Round(WeightedMean(rule, answers)))
    else
      NaN
  }

  /** The psychometric fit: the rounded weighted mean under the psychometric rule. */
  method CalculatePsychometricScore(answers: seq<Answer>) returns (score: Score)
    ensures score == Mean(PsychometricRule, answers)
  {
    var totalScore, totalWeight := Accumulate(PsychometricRule, answers);
    // With no weight the score sum is 0 as well, and 0/0 is NaN.
    score := if totalWeight == 0.0 then NaN else Num(Round(totalScore / totalWeight));
  }

  /** The technical readiness: the rounded weighted mean under the technical rule. */
  method CalculateTechnicalScore(answers: seq<Answer>) returns (score: Score)
    ensures score == Mean(TechnicalRule, answers)
  {
    var totalScore, totalWeight := Accumulate(TechnicalRule, answers);
    score := if totalWeight == 0.0 then NaN else Num(Round(totalScore / totalWeight));
  }

  // ---------------------------------------------------------------------------
  // WISCAR sub-scores
  // ---------------------------------------------------------------------------

  /** One WISCAR dimension: 50 when it has no answers, the rounded weighted mean otherwise. */
  function SubcategoryScore(answers: seq<Answer>, d: Dimension): (r: Score)
    ensures |answers| == 0 ==> r == Num(50)
    ensures (forall i :: 0 <= i < |answers| ==> Known(answers[i])) ==> r.Num?
    ensures RawScoresWithin(WiscarRule(d), answers) ==> Percent(r)
  {
    if |answers| == 0 then Num(50) else Mean(WiscarRule(d), answers)
  }

  method CalculateSubcategoryScore(answers: seq<Answer>, d: Dimension) returns (score: Score)
    ensures score == SubcategoryScore(answers, d)
  {
    if |answers| == 0 {
      return Num(50);
    }
    var totalScore, totalWeight := Accumulate(WiscarRule(d), answers);
    score := if totalWeight == 0.0 then NaN else Num(Round(totalScore / totalWeight));
  }

  /** The WISCAR dimension an answer is filed under: its question's subcategory when
      that is one of the six keys; none for an unknown id or any other subcategory. */
  function DimensionOfAnswer(a: Answer): (d: Option<Dimension>)
    ensures d.Some? ==> Known(a)
  {
    match Find(a.questionId)
    case None => None
    case Some(q) =>
      if q.subcategory.None? || q.subcategory.value == "" then None
      else DimensionOf(q.subcategory.value)
  }

  /** The answers filed under `d`, in answer order. */
  function Bucket(answers: seq<Answer>, d: Dimension): (r: seq<Answer>)
    decreases |answers|
    ensures forall i :: 0 <= i < |r| ==> DimensionOfAnswer(r[i]) == Some(d) && Known(r[i])
    ensures |r| <= |answers|
  {
    if answers == [] then []
    else
      var last := answers[|answers| - 1];
      Bucket(answers[..|answers| - 1], d) + (if DimensionOfAnswer(last) == Some(d) then [last] else [])
  }

  /** The bucket of a one-longer prefix grows by the new answer exactly when it is filed under `d`. */
  lemma BucketStep(answers: seq<Answer>, i: int, d: Dimension)
    requires 0 <= i < |answers|
    ensures Bucket(answers[..i + 1], d)
         == Bucket(answers[..i], d) + (if DimensionOfAnswer(answers[i]) == Some(d) then [answers[i]] else [])
  {
    assert answers[..i + 1][..i] == answers[..i];
  }

  /** Filing keeps only answers of the filed list, so it keeps them within range. */
  lemma {:induction false} BucketInRange(answers: seq<Answer>, d: Dimension)
    ensures AnswersInRange(answers) ==> AnswersInRange(Bucket(answers, d))
    decreases |answers|
  {
    if answers != [] && AnswersInRange(answers) {
      var n := |answers| - 1;
      assert AnswersInRange(answers[..n]) by {
        forall i | 0 <= i < n ensures AnswerInRange(answers[..n][i]) {
          assert answers[..n][i] == answers[i];
        }
      }
      BucketInRange(answers[..n], d);
    }
  }

  /** The `forEach` that files every answer under its WISCAR dimension. */
  method FileByDimension(answers: seq<Answer>)
    returns (will: seq<Answer>, interest: seq<Answer>, skill: seq<Answer>,
             cognitive: seq<Answer>, abilityToLearn: seq<Answer>, realWorldFit: seq<Answer>)
    ensures will == Bucket(answers, Will) && interest == Bucket(answers, Interest)
    ensures skill == Bucket(answers, Skill) && cognitive == Bucket(answers, Cognitive)
    ensures abilityToLearn == Bucket(answers, AbilityToLearn) && realWorldFit == Bucket(answers, RealWorldFit)
  {
    will, interest, skill, cognitive, abilityToLearn, realWorldFit := [], [], [], [], [], [];
    var i := 0;
    while i < |answers|
      invariant 0 <= i <= |answers|
      invariant will == Bucket(answers[..i], Will)
      invariant interest == Bucket(answers[..i], Interest)
      invariant skill == Bucket(answers[..i], Skill)
      invariant cognitive == Bucket(answers[..i], Cognitive)
      invariant abilityToLearn == Bucket(answers[..i], AbilityToLearn)
      invariant realWorldFit == Bucket(answers[..i], RealWorldFit)
    {
      var answer := answers[i];
      BucketStep(answers, i, Will);
      BucketStep(answers, i, Interest);
      BucketStep(answers, i, Skill);
      BucketStep(answers, i, Cognitive);
      BucketStep(answers, i, AbilityToLearn);
      BucketStep(answers, i, RealWorldFit);
      var question := Find(answer.questionId);
      if question.Some? && question.value.subcategory.Some? && question.value.subcategory.value != "" {
        var key := DimensionOf(question.value.subcategory.value);
        if key.Some? {
          match key.value
          case Will => will := will + [answer];
          case Interest => interest := interest + [answer];
          case Skill => skill := skill + [answer];
          case Cognitive => cognitive := cognitive + [answer];
          case AbilityToLearn => abilityToLearn := abilityToLearn + [answer];
          case RealWorldFit => realWorldFit := realWorldFit + [answer];
        }
      }
      i := i + 1;
    }
    assert answers[..|answers|] == answers;
  }

  /** The score of dimension `d`. Every answer filed under it names a catalog
      question, so it is never NaN; an empty bucket scores the default 50. */
  function DimensionScore(answers: seq<Answer>, d: Dimension): (r: int)
    ensures Bucket(answers, d) == [] ==> r == 50
    ensures AnswersInRange(answers) ==> 0 <= r <= 100
  {
    var b := Bucket(answers, d);
    BucketInRange(answers, d);
    InRangeAnswersWithin(WiscarRule(d), b);
    SubcategoryScore(b, d).value
  }

  /** The record of the six dimension scores. */
  function WiscarScoresOf(answers: seq<Answer>): (w: WiscarScores)
    ensures AnswersInRange(answers) ==> WiscarWithin(w)
  {
    WiscarScores(
      DimensionScore(answers, Will), DimensionScore(answers, Interest),
      DimensionScore(answers, Skill), DimensionScore(answers, Cognitive),
      DimensionScore(answers, AbilityToLearn), DimensionScore(answers, RealWorldFit))
  }

  /** Files every answer under its WISCAR dimension, then scores each dimension. */
  method CalculateWiscarScores(answers: seq<Answer>) returns (scores: WiscarScores)
    ensures scores == WiscarScoresOf(answers)
  {
    var will, interest, skill, cognitive, abilityToLearn, realWorldFit := FileByDimension(answers);
    var willScore := CalculateSubcategoryScore(will, Will);
    var interestScore := CalculateSubcategoryScore(interest, Interest);
    var skillScore := CalculateSubcategoryScore(skill, Skill);
    var cognitiveScore := CalculateSubcategoryScore(cognitive, Cognitive);
    var learnScore := CalculateSubcategoryScore(abilityToLearn, AbilityToLearn);
    var fitScore := CalculateSubcategoryScore(realWorldFit, RealWorldFit);
    scores := WiscarScores(
      willScore.value, interestScore.value, skillScore.value,
      cognitiveScore.value, learnScore.value, fitScore.value);
  }

  /** The rounded mean of the six WISCAR sub-scores. */
  function GetAverageWiscarScore(w: WiscarScores): (r: int)
    ensures WiscarWithin(w) ==> 0 <= r <= 100
    ensures w.will == w.interest == w.skill == w.cognitive == w.abilityToLearn == w.realWorldFit ==> r == w.will
  {
    Round((w.will + w.interest + w.skill + w.cognitive + w.abilityToLearn + w.realWorldFit) as real / 6.0)
  }

  predicate WiscarWithin(w: WiscarScores)
  {
    && 0 <= w.will <= 100 && 0 <= w.interest <= 100 && 0 <= w.skill <= 100
    && 0 <= w.cognitive <= 100 && 0 <= w.abilityToLearn <= 100 && 0 <= w.realWorldFit <= 100
  }

  // ---------------------------------------------------------------------------
  // Overall confidence and recommendation
  // ---------------------------------------------------------------------------

  /** `Math.round((psych + tech + average) / 3)`; a NaN category score makes it NaN. */
  function OverallConfidence(psych: Score, tech: Score, wiscar: WiscarScores): (r: Score)
    ensures r.NaN? <==> psych.NaN? || tech.NaN?
    ensures Percent(psych) && Percent(tech) && WiscarWithin(wiscar) ==> Percent(r)
  {
    if psych.NaN? || tech.NaN? then NaN
    else Num(Round((psych.value + tech.value + GetAverageWiscarScore(wiscar)) as real / 3.0))
  }

  /** Yes from 85, Maybe from 65, No below 65 — and No for NaN, which compares false. */
  function GetRecommendation(c: Score): (r: Recommendation)
    ensures r == Yes <==> AtLeast(c, 85)
    ensures r == Maybe <==> AtLeast(c, 65) && !AtLeast(c, 85)
    ensures r == No <==> !AtLeast(c, 65)
  {
    if AtLeast(c, 85) then Yes
    else if AtLeast(c, 65) then Maybe
    else No
  }

  /** How favourable a recommendation is. */
  function Rank(r: Recommendation): nat
  {
    match r
    case No => 0
    case Maybe => 1
    case Yes => 2
  }

  /** A higher confidence never gets a less favourable recommendation. */
  lemma RecommendationMonotone(a: int, b: int)
    requires a <= b
    ensures Rank(GetRecommendation(Num(a))) <= Rank(GetRecommendation(Num(b)))
    ensures Rank(GetRecommendation(NaN)) <= Rank(GetRecommendation(Num(a)))
  {
  }

  // ---------------------------------------------------------------------------
  // Careers, learning path, skill gaps and next steps
  // ---------------------------------------------------------------------------

  /** The affiliate careers, most recommended first. */
  const AllCareers: seq<string> := [
    "Affiliate Marketing Specialist",
    "Affiliate Program Manager",
    "Affiliate Strategist",
    "SEO Affiliate Specialist",
    "Content Writer (Affiliate-focused)",
    "High-ticket Affiliate Marketer"]

  /** Offered below 65 when the skill sub-score is at least 70. */
  const SkilledFallbackCareers: seq<string> := ["Content Writer (Affiliate-focused)", "SEO Affiliate Specialist"]

  /** Offered below 65 otherwise: careers outside affiliate marketing. */
  const AlternativeCareers: seq<string> := ["Content Marketing", "Digital Analytics", "Customer Engagement"]

  function GetCareerMatches(c: Score, w: WiscarScores): (r: seq<string>)
    ensures AtLeast(c, 65) ==> r <= AllCareers && |r| == (if AtLeast(c, 85) then 4 else 3)
    ensures !AtLeast(c, 65) ==> r == (if w.skill >= 70 then SkilledFallbackCareers else AlternativeCareers)
  {
    if AtLeast(c, 85) then AllCareers[..4]
    else if AtLeast(c, 65) then AllCareers[..3]
    else if w.skill >= 70 then SkilledFallbackCareers
    else AlternativeCareers
  }

  /** Careers follow the recommendation: Yes and Maybe get the top four and three
      affiliate careers; No keeps affiliate careers only for a strong skill score,
      and otherwise offers careers outside the affiliate list. */
  lemma CareersFollowRecommendation(c: Score, w: WiscarScores)
    ensures GetRecommendation(c) == Yes ==> GetCareerMatches(c, w) == AllCareers[..4]
    ensures GetRecommendation(c) == Maybe ==> GetCareerMatches(c, w) == AllCareers[..3]
    ensures GetRecommendation(c) == No && w.skill >= 70 ==>
      forall i :: 0 <= i < |GetCareerMatches(c, w)| ==> GetCareerMatches(c, w)[i] in AllCareers
    ensures GetRecommendation(c) == No && w.skill < 70 ==>
      forall i :: 0 <= i < |GetCareerMatches(c, w)| ==> GetCareerMatches(c, w)[i] !in AllCareers
  {
    if GetRecommendation(c) == No {
      if w.skill >= 70 {
        assert SkilledFallbackCareers[0] == AllCareers[4] && SkilledFallbackCareers[1] == AllCareers[3];
      }
    }
  }

  /** Raising a confidence of at least 65 only extends the career list. */
  lemma CareersExtend(a: int, b: int, w: WiscarScores)
    requires 65 <= a <= b
    ensures GetCareerMatches(Num(a), w) <= GetCareerMatches(Num(b), w)
  {
  }

  const AdvancedPath: seq<string> := ["Advanced Strategies", "Scaling and Automation"]
  const IntermediatePath: seq<string> := ["Intermediate Skills", "Campaign Optimization"]
  const BeginnerPath: seq<string> := ["Beginner Foundations", "Basic Campaign Setup"]

  function GetLearningPath(c: Score): (r: seq<string>)
    ensures |r| == 2
  {
    if AtLeast(c, 85) then AdvancedPath
    else if AtLeast(c, 65) then IntermediatePath
    else BeginnerPath
  }

  /** The learning path of each recommendation tier. */
  function PathFor(r: Recommendation): seq<string>
  {
    match r
    case Yes => AdvancedPath
    case Maybe => IntermediatePath
    case No => BeginnerPath
  }

  /** The learning path is decided by the same thresholds as the recommendation,
      and different recommendations get different paths. */
  lemma LearningPathFollowsRecommendation(c: Score)
    ensures GetLearningPath(c) == PathFor(GetRecommendation(c))
    ensures forall r1: Recommendation, r2: Recommendation :: r1 != r2 ==> PathFor(r1) != PathFor(r2)
  {
    forall r1: Recommendation, r2: Recommendation | r1 != r2 ensures PathFor(r1) != PathFor(r2) {
      assert PathFor(r1)[0] != PathFor(r2)[0];
    }
  }

  /** A skill gap; the report lists it by its label. */
  datatype Gap = TechnicalFoundations | ContentCreation | AnalyticsAndOptimization | CampaignStrategy

  /** The label under which the report lists a gap. */
  function GapLabel(g: Gap): string
  {
    match g
    case TechnicalFoundations => "Technical foundations"
    case ContentCreation => "Content creation"
    case AnalyticsAndOptimization => "Analytics and optimization"
    case CampaignStrategy => "Campaign strategy"
  }

  /** Distinct gaps have distinct labels, so comparing labels is comparing gaps. */
  lemma GapLabelsDistinct(g: Gap, h: Gap)
    ensures GapLabel(g) == GapLabel(h) <==> g == h
  {
    if g != h {
      assert GapLabel(g)[0] != GapLabel(h)[0] || GapLabel(g)[1] != GapLabel(h)[1];
    }
  }

  /** The order in which the gaps are checked. */
  function GapOrder(g: Gap): nat
  {
    match g
    case TechnicalFoundations => 0
    case ContentCreation => 1
    case AnalyticsAndOptimization => 2
    case CampaignStrategy => 3
  }

  /** The score each gap is decided by. */
  function GapScore(tech: Score, w: WiscarScores, g: Gap): Score
  {
    match g
    case TechnicalFoundations => tech
    case ContentCreation => Num(w.skill)
    case AnalyticsAndOptimization => Num(w.cognitive)
    case CampaignStrategy => Num(w.realWorldFit)
  }

  /** The skill gaps, one check per gap in checking order. */
  function SkillGaps(tech: Score, w: WiscarScores): seq<Gap>
  {
    (if Below(tech, 70) then [TechnicalFoundations] else [])
    + (if w.skill < 70 then [ContentCreation] else [])
    + (if w.cognitive < 70 then [AnalyticsAndOptimization] else [])
    + (if w.realWorldFit < 70 then [CampaignStrategy] else [])
  }

  /** The skill gaps are exactly the gaps whose score is below 70 (NaN never is),
      each at most once and in checking order. */
  lemma SkillGapsBelowSeventy(tech: Score, w: WiscarScores)
    ensures forall g :: g in SkillGaps(tech, w) <==> Below(GapScore(tech, w, g), 70)
    ensures forall i, j :: 0 <= i < j < |SkillGaps(tech, w)| ==>
      GapOrder(SkillGaps(tech, w)[i]) < GapOrder(SkillGaps(tech, w)[j])
  {
  }

  method GetSkillGaps(tech: Score, w: WiscarScores) returns (gaps: seq<Gap>)
    ensures gaps == SkillGaps(tech, w)
  {
    gaps := [];
    if Below(tech, 70) {
      gaps := gaps + [TechnicalFoundations];
    }
    if w.skill < 70 {
      gaps := gaps + [ContentCreation];
    }
    if w.cognitive < 70 {
      gaps := gaps + [AnalyticsAndOptimization];
    }
    if w.realWorldFit < 70 {
      gaps := gaps + [CampaignStrategy];
    }
  }

  const YesSteps: seq<string> := [
    "Start your first affiliate campaign",
    "Join affiliate networks like Amazon Associates",
    "Create content in your chosen niche"]

  const NoSteps: seq<string> := [
    "Explore alternative careers in digital marketing",
    "Consider content marketing or social media roles",
    "Build foundational digital skills first"]

  const FoundationStep: string := "Complete foundational training courses"
  const TechnicalTip: string := "Learn SEO and analytics basics"
  const ContentTip: string := "Practice content writing and video creation"

  /** The steps one gap adds for a Maybe: a tip for the technical and content gaps only. */
  function GapTip(gap: Gap): seq<string>
  {
    match gap
    case TechnicalFoundations => [TechnicalTip]
    case ContentCreation => [ContentTip]
    case _ => []
  }

  /** The tips of a list of gaps, in gap order. */
  function GapTips(gaps: seq<Gap>): (r: seq<string>)
    decreases |gaps|
    ensures |r| <= |gaps|
    ensures forall i :: 0 <= i < |r| ==> r[i] == TechnicalTip || r[i] == ContentTip
  {
    if gaps == [] then []
    else GapTips(gaps[..|gaps| - 1]) + GapTip(gaps[|gaps| - 1])
  }

  /** The tips of two lists of gaps put together are the two lists of tips put together. */
  lemma {:induction false} GapTipsAppend(a: seq<Gap>, b: seq<Gap>)
    ensures GapTips(a + b) == GapTips(a) + GapTips(b)
    decreases |b|
  {
    if b == [] {
      assert a + b == a;
    } else {
      var n := |b| - 1;
      assert (a + b)[..|a + b| - 1] == a + b[..n];
      assert (a + b)[|a + b| - 1] == b[n];
      assert GapTips(a + b) == GapTips(a + b[..n]) + GapTip(b[n]);
      GapTipsAppend(a, b[..n]);
    }
  }

  /** The next steps: three fixed steps for Yes and for No; for Maybe the foundation
      course followed by one tip per technical or content gap. */
  function NextSteps(rec: Recommendation, gaps: seq<Gap>): (r: seq<string>)
    ensures rec != Maybe ==> |r| == 3
    ensures rec == Maybe ==> 1 <= |r| <= |gaps| + 1 && r[0] == FoundationStep
  {
    match rec
    case Yes => YesSteps
    case Maybe => [FoundationStep] + GapTips(gaps)
    case No => NoSteps
  }

  method GetNextSteps(rec: Recommendation, gaps: seq<Gap>) returns (steps: seq<string>)
    ensures steps == NextSteps(rec, gaps)
  {
    steps := [];
    if rec == Yes {
      steps := steps + [YesSteps[0]];
      steps := steps + [YesSteps[1]];
      steps := steps + [YesSteps[2]];
    } else if rec == Maybe {
      steps := steps + [FoundationStep];
      for i := 0 to |gaps|
        invariant steps == [FoundationStep] + GapTips(gaps[..i])
      {
        assert gaps[..i + 1][..i] == gaps[..i];
        if gaps[i] == TechnicalFoundations {
          steps := steps + [TechnicalTip];
        }
        if gaps[i] == ContentCreation {
          steps := steps + [ContentTip];
        }
      }
      assert gaps[..|gaps|] == gaps;
    } else {
      steps := steps + [NoSteps[0]];
      steps := steps + [NoSteps[1]];
      steps := steps + [NoSteps[2]];
    }
  }

  /** For the gaps the engine computes, a Maybe's steps are the foundation course,
      then the SEO tip exactly when the technical score is below 70, then the content
      tip exactly when the skill sub-score is below 70. */
  lemma MaybeStepsForSkillGaps(tech: Score, w: WiscarScores)
    ensures NextSteps(Maybe, SkillGaps(tech, w))
         == [FoundationStep]
          + (if Below(tech, 70) then [TechnicalTip] else [])
          + (if w.skill < 70 then [ContentTip] else [])
  {
    var t := if Below(tech, 70) then [TechnicalFoundations] else [];
    var s := if w.skill < 70 then [ContentCreation] else [];
    var c := if w.cognitive < 70 then [AnalyticsAndOptimization] else [];
    var f := if w.realWorldFit < 70 then [CampaignStrategy] else [];
    var gaps := SkillGaps(tech, w);
    assert gaps == t + s + c + f;
    TipsOfChecks(t, s, c, f);
    var technical: seq<string> := if Below(tech, 70) then [TechnicalTip] else [];
    var content: seq<string> := if w.skill < 70 then [ContentTip] else [];
    assert GapTips(gaps) == technical + content;
    assert NextSteps(Maybe, gaps) == [FoundationStep] + (technical + content);
  }

  /** The tips of the four checks' outcomes put together. */
  lemma TipsOfChecks(t: seq<Gap>, s: seq<Gap>, c: seq<Gap>, f: seq<Gap>)
    requires t == [] || t == [TechnicalFoundations]
    requires s == [] || s == [ContentCreation]
    requires c == [] || c == [AnalyticsAndOptimization]
    requires f == [] || f == [CampaignStrategy]
    ensures GapTips(t + s + c + f)
         == (if t == [] then [] else [TechnicalTip]) + (if s == [] then [] else [ContentTip])
  {
    GapTipsAppend(t + s + c, f);
    GapTipsAppend(t + s, c);
    GapTipsAppend(t, s);
    OneGapTips(c);
    OneGapTips(f);
    assert GapTips(c) == [] && GapTips(f) == [];
    OneGapTips(t);
    OneGapTips(s);
    assert GapTips(t + s + c + f) == GapTips(t) + GapTips(s);
  }

  lemma OneGapTips(gaps: seq<Gap>)
    requires |gaps| <= 1
    ensures gaps == [] ==> GapTips(gaps) == []
    ensures |gaps| == 1 ==> GapTips(gaps) == GapTip(gaps[0])
  {
    if |gaps| == 1 {
      assert gaps[..0] == [];
    }
  }

  // ---------------------------------------------------------------------------
  // The whole assessment
  // ---------------------------------------------------------------------------

  /** An answer names a catalog question of category `c`. */
  predicate InCategory(a: Answer, c: Category)
  {
    Find(a.questionId).Some? && Find(a.questionId).value.category == c
  }

  /** `answers.filter(...)`: the answers to questions of category `c`, in answer order. */
  function CategoryAnswers(answers: seq<Answer>, c: Category): (r: seq<Answer>)
    decreases |answers|
    ensures forall i :: 0 <= i < |r| ==> InCategory(r[i], c) && Known(r[i])
  {
    if answers == [] then []
    else
      var last := answers[|answers| - 1];
      CategoryAnswers(answers[..|answers| - 1], c) + (if InCategory(last, c) then [last] else [])
  }

  /** The filter keeps every answer of the category. */
  lemma {:induction false} CategoryAnswersKeep(answers: seq<Answer>, c: Category)
    ensures forall i :: 0 <= i < |answers| && InCategory(answers[i], c) ==> answers[i] in CategoryAnswers(answers, c)
    decreases |answers|
  {
    if answers != [] {
      var n := |answers| - 1;
      var last := answers[n];
      var kept := CategoryAnswers(answers[..n], c);
      assert CategoryAnswers(answers, c) == kept + (if InCategory(last, c) then [last] else []);
      CategoryAnswersKeep(answers[..n], c);
      forall i | 0 <= i < |answers| && InCategory(answers[i], c) ensures answers[i] in CategoryAnswers(answers, c) {
        if i < n {
          assert answers[..n][i] == answers[i];
          assert answers[i] in kept;
        }
      }
    }
  }

  /** Filtering keeps only answers of the filtered list, so it keeps them within range. */
  lemma {:induction false} CategoryInRange(answers: seq<Answer>, c: Category)
    ensures AnswersInRange(answers) ==> AnswersInRange(CategoryAnswers(answers, c))
    decreases |answers|
  {
    if answers != [] && AnswersInRange(answers) {
      var n := |answers| - 1;
      assert AnswersInRange(answers[..n]) by {
        forall i | 0 <= i < n ensures AnswerInRange(answers[..n][i]) {
          assert answers[..n][i] == answers[i];
        }
      }
      CategoryInRange(answers[..n], c);
    }
  }

  /** The results the engine reports for `answers`. */
  function AssessmentResultsOf(answers: seq<Answer>): AssessmentResults
  {
    var psych := Mean(PsychometricRule, CategoryAnswers(answers, Psychometric));
    var tech := Mean(TechnicalRule, CategoryAnswers(answers, Technical));
    var wiscar := WiscarScoresOf(CategoryAnswers(answers, Wiscar));
    var confidence := OverallConfidence(psych, tech, wiscar);
    var rec := GetRecommendation(confidence);
    var gaps := SkillGaps(tech, wiscar);
    AssessmentResults(
      psych, tech, wiscar, confidence, rec,
      GetCareerMatches(confidence, wiscar), gaps, GetLearningPath(confidence), NextSteps(rec, gaps))
  }

  method CalculateAssessmentResults(answers: seq<Answer>) returns (results: AssessmentResults)
    ensures results == AssessmentResultsOf(answers)
  {
    var psychometricAnswers := CategoryAnswers(answers, Psychometric);
    var technicalAnswers := CategoryAnswers(answers, Technical);
    var wiscarAnswers := CategoryAnswers(answers, Wiscar);
    var psychFitScore := CalculatePsychometricScore(psychometricAnswers);
    var techReadyScore := CalculateTechnicalScore(technicalAnswers);
    var wiscarScores := CalculateWiscarScores(wiscarAnswers);
    var overallConfidence := OverallConfidence(psychFitScore, techReadyScore, wiscarScores);
    var recommendation := GetRecommendation(overallConfidence);
    var careerMatches := GetCareerMatches(overallConfidence, wiscarScores);
    var skillGaps := GetSkillGaps(techReadyScore, wiscarScores);
    var learningPath := GetLearningPath(overallConfidence);
    var nextSteps := GetNextSteps(recommendation, skillGaps);
    results := AssessmentResults(
      psychFitScore, techReadyScore, wiscarScores, overallConfidence, recommendation,
      careerMatches, skillGaps, learningPath, nextSteps);
  }

  /** Answers within their questions' ranges give scores between 0 and 100 (or NaN). */
  lemma ResultsWithin(answers: seq<Answer>)
    requires AnswersInRange(answers)
    ensures var r := AssessmentResultsOf(answers);
      Percent(r.psychFitScore) && Percent(r.techReadyScore)
      && WiscarWithin(r.wiscarScores) && Percent(r.overallConfidence)
  {
    CategoryInRange(answers, Psychometric);
    CategoryInRange(answers, Technical);
    CategoryInRange(answers, Wiscar);
    InRangeAnswersWithin(PsychometricRule, CategoryAnswers(answers, Psychometric));
    InRangeAnswersWithin(TechnicalRule, CategoryAnswers(answers, Technical));
  }

  /** Without an answer to a psychometric or a technical question the confidence is
      NaN, and the report falls to its lowest tier: No, the beginner path, the No
      steps. Without a technical answer the technical gap is not reported either. */
  lemma MissingCategory(answers: seq<Answer>)
    ensures var r := AssessmentResultsOf(answers);
      r.psychFitScore.NaN? <==> forall i :: 0 <= i < |answers| ==> !InCategory(answers[i], Psychometric)
    ensures var r := AssessmentResultsOf(answers);
      r.techReadyScore.NaN? <==> forall i :: 0 <= i < |answers| ==> !InCategory(answers[i], Technical)
    ensures var r := AssessmentResultsOf(answers);
      r.overallConfidence.NaN? ==>
        r.recommendation == No && r.learningPath == PathFor(No) && r.nextSteps == NoSteps
    ensures var r := AssessmentResultsOf(answers);
      r.techReadyScore.NaN? ==> TechnicalFoundations !in r.skillGaps
  {
    var r := AssessmentResultsOf(answers);
    SkillGapsBelowSeventy(r.techReadyScore, r.wiscarScores);
    CategoryMeanNaN(PsychometricRule, answers, Psychometric);
    CategoryMeanNaN(TechnicalRule, answers, Technical);
  }

  /** A category's score is NaN exactly when no answer is of that category. */
  lemma CategoryMeanNaN(rule: Rule, answers: seq<Answer>, c: Category)
    ensures Mean(rule, CategoryAnswers(answers, c)).NaN? <==> forall i :: 0 <= i < |answers| ==> !InCategory(answers[i], c)
  {
    var g := CategoryAnswers(answers, c);
    CategoryAnswersKeep(answers, c);
    CategoryFrom(answers, c);
    if g != [] {
      assert InCategory(g[0], c) && g[0] in answers;
    }
  }

  /** An answer whose id names no catalog question changes nothing. */
  lemma UnknownAnswerIgnored(answers: seq<Answer>, a: Answer)
    requires !Known(a)
    ensures AssessmentResultsOf(answers + [a]) == AssessmentResultsOf(answers)
  {
    var extended := answers + [a];
    assert extended[..|extended| - 1] == answers;
    forall c ensures CategoryAnswers(extended, c) == CategoryAnswers(answers, c) {
    }
    forall d ensures Bucket(CategoryAnswers(extended, Wiscar), d) == Bucket(CategoryAnswers(answers, Wiscar), d) {
    }
  }

  /** Some answer is to the catalog question at position `k`. */
  predicate Answered(answers: seq<Answer>, k: nat)
    requires k < |AssessmentQuestions|
  {
    exists i :: 0 <= i < |answers| && answers[i].questionId == AssessmentQuestions[k].id
  }

  /** An answer to every catalog question gives defined scores: no NaN anywhere. */
  lemma CompleteAnswersDefined(answers: seq<Answer>)
    requires forall k :: 0 <= k < |AssessmentQuestions| ==> Answered(answers, k)
    ensures var r := AssessmentResultsOf(answers);
      r.psychFitScore.Num? && r.techReadyScore.Num? && r.overallConfidence.Num?
    ensures forall d :: Bucket(CategoryAnswers(answers, Wiscar), d) != []
  {
    forall d ensures Bucket(CategoryAnswers(answers, Wiscar), d) != [] {
      AnsweredBucket(answers, d);
    }
    CatalogSize();
    assert AssessmentQuestions[0].category == Psychometric && AssessmentQuestions[5].category == Technical;
    AnsweredCategoryDefined(answers, 0, PsychometricRule);
    AnsweredCategoryDefined(answers, 5, TechnicalRule);
    var r := AssessmentResultsOf(answers);
    assert r.psychFitScore == Mean(PsychometricRule, CategoryAnswers(answers, Psychometric));
    assert r.techReadyScore == Mean(TechnicalRule, CategoryAnswers(answers, Technical));
  }

  /** An answer to the WISCAR question of dimension `d` lands in the bucket of `d`,
      so that dimension does not fall back to the default of 50. */
  lemma AnsweredBucket(answers: seq<Answer>, d: Dimension)
    requires forall k :: 0 <= k < |AssessmentQuestions| ==> Answered(answers, k)
    ensures Bucket(CategoryAnswers(answers, Wiscar), d) != []
  {
    var k := DimensionQuestion(d);
    assert Answered(answers, k);
    var p :| 0 <= p < |answers| && answers[p].questionId == AssessmentQuestions[k].id;
    FindCatalog(k);
    assert InCategory(answers[p], Wiscar);
    CategoryAnswersKeep(answers, Wiscar);
    var ws := CategoryAnswers(answers, Wiscar);
    var j :| 0 <= j < |ws| && ws[j] == answers[p];
    DimensionOfKey(d);
    assert DimensionOfAnswer(ws[j]) == Some(d);
    BucketKeep(ws, d);
  }

  /** An answer to catalog question `k` gives its category a defined score. */
  lemma AnsweredCategoryDefined(answers: seq<Answer>, k: nat, rule: Rule)
    requires k < |AssessmentQuestions| && Answered(answers, k)
    ensures Mean(rule, CategoryAnswers(answers, AssessmentQuestions[k].category)).Num?
  {
    var c := AssessmentQuestions[k].category;
    var p :| 0 <= p < |answers| && answers[p].questionId == AssessmentQuestions[k].id;
    FindCatalog(k);
    assert InCategory(answers[p], c);
    CategoryMeanNaN(rule, answers, c);
  }

  // ---------------------------------------------------------------------------
  // Order independence
  // ---------------------------------------------------------------------------

  /** The sums over two lists put together are the sums over each. */
  lemma {:induction false} TotalsAppend(rule: Rule, a: seq<Answer>, b: seq<Answer>)
    ensures TotalScore(rule, a + b) == TotalScore(rule, a) + TotalScore(rule, b)
    ensures TotalWeight(a + b) == TotalWeight(a) + TotalWeight(b)
    decreases |b|
  {
    if b == [] {
      assert a + b == a;
    } else {
      var n := |b| - 1;
      assert (a + b)[..|a + b| - 1] == a + b[..n];
      assert (a + b)[|a + b| - 1] == b[n];
      TotalsAppend(rule, a, b[..n]);
    }
  }

  /** Filtering two lists put together filters each. */
  lemma {:induction false} CategoryAppend(a: seq<Answer>, b: seq<Answer>, c: Category)
    ensures CategoryAnswers(a + b, c) == CategoryAnswers(a, c) + CategoryAnswers(b, c)
    decreases |b|
  {
    if b == [] {
      assert a + b == a;
    } else {
      var n := |b| - 1;
      assert (a + b)[..|a + b| - 1] == a + b[..n];
      assert (a + b)[|a + b| - 1] == b[n];
      CategoryAppend(a, b[..n], c);
    }
  }

  /** Bucketing two lists put together buckets each. */
  lemma {:induction false} BucketAppend(a: seq<Answer>, b: seq<Answer>, d: Dimension)
    ensures Bucket(a + b, d) == Bucket(a, d) + Bucket(b, d)
    decreases |b|
  {
    if b == [] {
      assert a + b == a;
    } else {
      var n := |b| - 1;
      assert (a + b)[..|a + b| - 1] == a + b[..n];
      assert (a + b)[|a + b| - 1] == b[n];
      BucketAppend(a, b[..n], d);
    }
  }

  /** A reordering of a non-empty list: its last answer sits somewhere in the
      other list, and what is left of each are reorderings of one another. */
  lemma ReorderLast<T>(s: seq<T>, t: seq<T>) returns (t1: seq<T>, t2: seq<T>)
    requires s != [] && multiset(s) == multiset(t)
    ensures t == t1 + [s[|s| - 1]] + t2
    ensures multiset(s[..|s| - 1]) == multiset(t1 + t2)
  {
    var n := |s| - 1;
    var x := s[n];
    DropLast(s);
    assert x in multiset(t);
    var i :| 0 <= i < |t| && t[i] == x;
    SplitAt(t, i);
    t1, t2 := t[..i], t[i + 1..];
    MultisetCancel(multiset(s[..n]), multiset(t1 + t2), x);
  }

  /** A non-empty list is its front followed by its last element. */
  lemma DropLast<T>(s: seq<T>)
    requires s != []
    ensures multiset(s) == multiset(s[..|s| - 1]) + multiset{s[|s| - 1]}
  {
    assert s == s[..|s| - 1] + [s[|s| - 1]];
  }

  /** A list is what precedes position `i`, the element there, and what follows. */
  lemma SplitAt<T>(t: seq<T>, i: nat)
    requires i < |t|
    ensures t == t[..i] + [t[i]] + t[i + 1..]
    ensures multiset(t) == multiset(t[..i] + t[i + 1..]) + multiset{t[i]}
  {
    assert t == t[..i] + [t[i]] + t[i + 1..];
    assert multiset(t[..i] + t[i + 1..]) == multiset(t[..i]) + multiset(t[i + 1..]);
  }

  lemma MultisetCancel<T>(a: multiset<T>, b: multiset<T>, x: T)
    requires a + multiset{x} == b + multiset{x}
    ensures a == b
  {
    assert a == a + multiset{x} - multiset{x};
    assert b == b + multiset{x} - multiset{x};
  }

  /** A list function that distributes over concatenation, as every filter does. */
  ghost predicate Distributes(f: seq<Answer> -> seq<Answer>)
  {
    forall a, b :: f(a + b) == f(a) + f(b)
  }

  /** A sum over the list that adds up over concatenation. */
  ghost predicate Additive(g: seq<Answer> -> real)
  {
    forall a, b :: g(a + b) == g(a) + g(b)
  }

  /** A function that distributes over concatenation maps reorderings to reorderings. */
  lemma {:induction false} DistributesReorder(f: seq<Answer> -> seq<Answer>, s: seq<Answer>, t: seq<Answer>)
    requires Distributes(f) && multiset(s) == multiset(t)
    ensures multiset(f(s)) == multiset(f(t))
    decreases |s|
  {
    if s == [] {
      assert t == [];
    } else {
      var n := |s| - 1;
      var x := s[n];
      var t1, t2 := ReorderLast(s, t);
      DistributesReorder(f, s[..n], t1 + t2);
      assert s == s[..n] + [x];
      assert f(s) == f(s[..n]) + f([x]);
      assert f(t) == f(t1 + [x]) + f(t2) == f(t1) + f([x]) + f(t2);
      assert f(t1 + t2) == f(t1) + f(t2);
    }
  }

  /** An additive sum does not depend on the order of the list. */
  lemma {:induction false} AdditiveReorder(g: seq<Answer> -> real, s: seq<Answer>, t: seq<Answer>)
    requires Additive(g) && multiset(s) == multiset(t)
    ensures g(s) == g(t)
    decreases |s|
  {
    if s == [] {
      assert t == [];
    } else {
      var n := |s| - 1;
      var x := s[n];
      var t1, t2 := ReorderLast(s, t);
      AdditiveReorder(g, s[..n], t1 + t2);
      assert s == s[..n] + [x];
      assert g(s) == g(s[..n]) + g([x]);
      assert g(t) == g(t1 + [x]) + g(t2) == g(t1) + g([x]) + g(t2);
      assert g(t1 + t2) == g(t1) + g(t2);
    }
  }

  /** The weighted sums do not depend on the order of the answers. */
  lemma TotalsReorder(rule: Rule, s: seq<Answer>, t: seq<Answer>)
    requires multiset(s) == multiset(t)
    ensures TotalScore(rule, s) == TotalScore(rule, t) && TotalWeight(s) == TotalWeight(t)
  {
    var score := (a: seq<Answer>) => TotalScore(rule, a);
    var weight := (a: seq<Answer>) => TotalWeight(a);
    forall a, b ensures score(a + b) == score(a) + score(b) && weight(a + b) == weight(a) + weight(b) {
      TotalsAppend(rule, a, b);
    }
    AdditiveReorder(score, s, t);
    AdditiveReorder(weight, s, t);
  }

  /** Filtering a reordering gives a reordering of the answers filed under `c`. */
  lemma CategoryReorder(s: seq<Answer>, t: seq<Answer>, c: Category)
    requires multiset(s) == multiset(t)
    ensures multiset(CategoryAnswers(s, c)) == multiset(CategoryAnswers(t, c))
  {
    var f := (a: seq<Answer>) => CategoryAnswers(a, c);
    forall a, b ensures f(a + b) == f(a) + f(b) {
      CategoryAppend(a, b, c);
    }
    DistributesReorder(f, s, t);
  }

  /** Bucketing a reordering gives a reordering of the answers filed under `d`. */
  lemma BucketReorder(s: seq<Answer>, t: seq<Answer>, d: Dimension)
    requires multiset(s) == multiset(t)
    ensures multiset(Bucket(s, d)) == multiset(Bucket(t, d))
  {
    var f := (a: seq<Answer>) => Bucket(a, d);
    forall a, b ensures f(a + b) == f(a) + f(b) {
      BucketAppend(a, b, d);
    }
    DistributesReorder(f, s, t);
  }

  /** A group's score does not depend on the order of its answers. */
  lemma MeanReorder(rule: Rule, s: seq<Answer>, t: seq<Answer>)
    requires multiset(s) == multiset(t)
    ensures Mean(rule, s) == Mean(rule, t)
    ensures |s| == |t|
  {
    TotalsReorder(rule, s, t);
    assert |multiset(s)| == |s| && |multiset(t)| == |t|;
  }

  /** The results do not depend on the order in which the answers are given. */
  lemma ResultsReorder(s: seq<Answer>, t: seq<Answer>)
    requires multiset(s) == multiset(t)
    ensures AssessmentResultsOf(s) == AssessmentResultsOf(t)
  {
    CategoryReorder(s, t, Psychometric);
    CategoryReorder(s, t, Technical);
    CategoryReorder(s, t, Wiscar);
    MeanReorder(PsychometricRule, CategoryAnswers(s, Psychometric), CategoryAnswers(t, Psychometric));
    MeanReorder(TechnicalRule, CategoryAnswers(s, Technical), CategoryAnswers(t, Technical));
    var ws, wt := CategoryAnswers(s, Wiscar), CategoryAnswers(t, Wiscar);
    forall d ensures DimensionScore(ws, d) == DimensionScore(wt, d) {
      BucketReorder(ws, wt, d);
      MeanReorder(WiscarRule(d), Bucket(ws, d), Bucket(wt, d));
    }
    assert WiscarScoresOf(ws) == WiscarScoresOf(wt);
  }

  // ---------------------------------------------------------------------------
  // The best answers
  // ---------------------------------------------------------------------------

  /** The highest-scoring answer to `q`: the top of a slider, the correct option of a
      technical question, the best option of a WISCAR table (the last option where
      options score (i+1)/4), and the first option of a psychometric choice. */
  function BestValue(q: Question): int
  {
    if q.kind == Slider then 10
    else if q.correctAnswer.Some? then q.correctAnswer.value
    else if q.category != Wiscar then 0
    else if q.subcategory == Some("will") then 1
    else if q.subcategory == Some("cognitive") then 2
    else if q.subcategory == Some("realWorldFit") then 1
    else 3
  }

  /** Every catalog question answered, in catalog order, with its best value. */
  const BestAnswers: seq<Answer> :=
    seq(|AssessmentQuestions|, i requires 0 <= i < |AssessmentQuestions| =>
      Answer(AssessmentQuestions[i].id, BestValue(AssessmentQuestions[i])))

  /** The best answer to a catalog question scores at least 85 under the psychometric
      rule, exactly 100 under the technical rule, and at least 90 under its WISCAR
      dimension's rule. */
  lemma BestScore(k: nat)
    requires k < |AssessmentQuestions|
    ensures var q := AssessmentQuestions[k];
      && (q.category == Psychometric ==> RawScore(PsychometricRule, q, BestValue(q)) >= 85.0)
      && (q.category == Technical ==> RawScore(TechnicalRule, q, BestValue(q)) == 100.0)
      && (q.category == Wiscar ==>
            q.subcategory.Some? && DimensionOf(q.subcategory.value).Some?
            && RawScore(WiscarRule(DimensionOf(q.subcategory.value).value), q, BestValue(q)) >= 90.0)
  {
    PsychometricChoiceSubcategories();
    TechnicalCorrectAnswers();
    WiscarOnePerDimension();
  }

  /** Every answer that names a catalog question scores at least `bound`. */
  ghost predicate RawScoresAtLeast(rule: Rule, answers: seq<Answer>, bound: real)
  {
    forall i :: 0 <= i < |answers| ==> RawScoreAtLeast(rule, answers[i], bound)
  }

  ghost predicate RawScoreAtLeast(rule: Rule, a: Answer, bound: real)
  {
    Known(a) ==> RawScoreOf(rule, a) >= bound
  }

  /** Σ bound·weight over the answers: what the weighted sum would be if every
      answer scored exactly `bound`. */
  function BoundTotal(bound: real, answers: seq<Answer>): real
    decreases |answers|
  {
    if answers == [] then 0.0
    else BoundTotal(bound, answers[..|answers| - 1]) + BoundOf(bound, answers[|answers| - 1])
  }

  /** What one answer would add to the running total if it scored exactly `bound`. */
  function BoundOf(bound: real, a: Answer): real
  {
    Weighted(bound, WeightOf(a))
  }

  /** The sum at a constant score is that score times the total weight. */
  lemma {:induction false} BoundTotalScales(bound: real, answers: seq<Answer>)
    ensures BoundTotal(bound, answers) == Weighted(bound, TotalWeight(answers))
    decreases |answers|
  {
    if answers == [] {
      ScaleZero(bound, TotalWeight(answers));
    } else {
      var n := |answers| - 1;
      BoundTotalScales(bound, answers[..n]);
      ScaleStep(bound, BoundTotal(bound, answers), BoundTotal(bound, answers[..n]), BoundOf(bound, answers[n]),
                TotalWeight(answers), TotalWeight(answers[..n]), WeightOf(answers[n]));
    }
  }

  lemma ScaleZero(b: real, weight: real)
    requires weight == 0.0
    ensures Weighted(b, weight) == 0.0
  {
  }

  lemma ScaleStep(b: real, total: real, init: real, last: real, weight: real, initWeight: real, lastWeight: real)
    requires total == init + last && weight == initWeight + lastWeight
    requires init == Weighted(b, initWeight) && last == Weighted(b, lastWeight)
    ensures total == Weighted(b, weight)
  {
  }

  /** When every answer that names a catalog question scores at least `bound`, the
      weighted sum is at least what it would be with every score exactly `bound`. */
  lemma {:induction false} TotalScoreAtLeast(rule: Rule, answers: seq<Answer>, bound: real)
    requires RawScoresAtLeast(rule, answers, bound)
    ensures TotalScore(rule, answers) >= BoundTotal(bound, answers)
    decreases |answers|
  {
    if answers != [] {
      var n := |answers| - 1;
      assert RawScoresAtLeast(rule, answers[..n], bound) by {
        forall i | 0 <= i < n ensures RawScoreAtLeast(rule, answers[..n][i], bound) {
          assert answers[..n][i] == answers[i];
        }
      }
      TotalScoreAtLeast(rule, answers[..n], bound);
      ScoreOfAtLeast(rule, answers[n], bound);
    }
  }

  /** A raw score of at least `bound` contributes at least `bound` times its weight. */
  lemma ScoreOfAtLeast(rule: Rule, a: Answer, bound: real)
    requires RawScoreAtLeast(rule, a, bound)
    ensures ScoreOf(rule, a) >= BoundOf(bound, a)
  {
    WeightedAtLeast(RawScoreOf(rule, a), bound, WeightOf(a));
  }

  lemma WeightedAtLeast(x: real, bound: real, w: real)
    requires w >= 0.0 && (w > 0.0 ==> x >= bound)
    ensures Weighted(x, w) >= Weighted(bound, w)
  {
    if w > 0.0 {
      var d := x - bound;
      assert d >= 0.0 && d * w >= 0.0;
      assert Weighted(x, w) - Weighted(bound, w) == d * w;
    } else {
      assert w == 0.0;
      assert Weighted(x, w) == x * 0.0 == 0.0;
      assert Weighted(bound, w) == bound * 0.0 == 0.0;
    }
  }

  /** A quotient over a positive weight is at least `bound` when the sum is
      at least `bound` times the weight. */
  lemma QuotientAtLeast(t: real, w: real, bound: int, scaled: real)
    requires w > 0.0 && scaled == Weighted(bound as real, w) && t >= scaled
    ensures Round(t / w) >= bound
  {
    var q := t / w;
    assert q * w == t;
    if q < bound as real {
      assert false;
    }
  }

  /** A group with an answer to a catalog question, all of whose answers score at
      least `bound`, has a rounded mean of at least `bound`. */
  lemma MeanAtLeast(rule: Rule, answers: seq<Answer>, bound: int, k: nat)
    requires k < |answers| && Known(answers[k])
    requires RawScoresAtLeast(rule, answers, bound as real)
    ensures Mean(rule, answers).Num? && Mean(rule, answers).value >= bound
  {
    TotalWeightPositive(answers);
    TotalScoreAtLeast(rule, answers, bound as real);
    BoundTotalScales(bound as real, answers);
    assert TotalWeight(answers) > 0.0;
    assert BoundTotal(bound as real, answers) == Weighted(bound as real, TotalWeight(answers));
    assert TotalScore(rule, answers) >= BoundTotal(bound as real, answers);
    QuotientAtLeast(TotalScore(rule, answers), TotalWeight(answers), bound, BoundTotal(bound as real, answers));
    MeanValue(rule, answers);
  }

  /** Over a positive weight the mean is the rounded quotient. */
  lemma MeanValue(rule: Rule, answers: seq<Answer>)
    requires TotalWeight(answers) > 0.0
    ensures Mean(rule, answers) == Num(Round(TotalScore(rule, answers) / TotalWeight(answers)))
  {
  }

  /** The category filter keeps only answers of the list it filters. */
  lemma {:induction false} CategoryFrom(answers: seq<Answer>, c: Category)
    ensures forall i :: 0 <= i < |CategoryAnswers(answers, c)| ==> CategoryAnswers(answers, c)[i] in answers
    decreases |answers|
  {
    if answers != [] {
      var n := |answers| - 1;
      CategoryFrom(answers[..n], c);
      assert answers == answers[..n] + [answers[n]];
    }
  }

  /** Filing keeps only answers of the list it files. */
  lemma {:induction false} BucketFrom(answers: seq<Answer>, d: Dimension)
    ensures forall i :: 0 <= i < |Bucket(answers, d)| ==> Bucket(answers, d)[i] in answers
    decreases |answers|
  {
    if answers != [] {
      var n := |answers| - 1;
      BucketFrom(answers[..n], d);
      assert answers == answers[..n] + [answers[n]];
    }
  }

  /** Filing keeps every answer filed under `d`. */
  lemma {:induction false} BucketKeep(answers: seq<Answer>, d: Dimension)
    ensures forall i :: 0 <= i < |answers| && DimensionOfAnswer(answers[i]) == Some(d) ==> answers[i] in Bucket(answers, d)
    decreases |answers|
  {
    if answers != [] {
      var n := |answers| - 1;
      var last := answers[n];
      var kept := Bucket(answers[..n], d);
      assert Bucket(answers, d) == kept + (if DimensionOfAnswer(last) == Some(d) then [last] else []);
      BucketKeep(answers[..n], d);
      forall i | 0 <= i < |answers| && DimensionOfAnswer(answers[i]) == Some(d) ensures answers[i] in Bucket(answers, d) {
        if i < n {
          assert answers[..n][i] == answers[i];
          assert answers[i] in kept;
        }
      }
    }
  }

  /** The best answer at catalog position `k` is scored as that question. */
  lemma BestAnswerFound(k: nat)
    requires k < |AssessmentQuestions|
    ensures k < |BestAnswers| && Find(BestAnswers[k].questionId) == Some(AssessmentQuestions[k])
    ensures BestAnswers[k].value == BestValue(AssessmentQuestions[k])
  {
    FindCatalog(k);
  }

  /** Every best answer to a catalog question of category `c` scores at least `bound` under `rule`. */
  ghost predicate BestAtLeast(c: Category, rule: Rule, bound: real)
  {
    forall k :: 0 <= k < |AssessmentQuestions| && AssessmentQuestions[k].category == c ==>
      RawScore(rule, AssessmentQuestions[k], BestValue(AssessmentQuestions[k])) >= bound
  }

  /** A best answer filed under category `c` is the best answer to a catalog question of `c`. */
  lemma BestMember(x: Answer, c: Category, rule: Rule) returns (k: nat)
    requires x in BestAnswers && InCategory(x, c)
    ensures k < |AssessmentQuestions| && x == BestAnswers[k] && AssessmentQuestions[k].category == c
    ensures RawScoreOf(rule, x) == RawScore(rule, AssessmentQuestions[k], BestValue(AssessmentQuestions[k]))
  {
    k :| 0 <= k < |BestAnswers| && BestAnswers[k] == x;
    BestAnswerFound(k);
  }

  /** Every best answer filed under category `c` scores at least `bound` under `rule`
      when every best answer to a catalog question of that category does. */
  lemma BestCategoryScores(c: Category, rule: Rule, bound: int)
    requires BestAtLeast(c, rule, bound as real)
    ensures RawScoresAtLeast(rule, CategoryAnswers(BestAnswers, c), bound as real)
  {
    var g := CategoryAnswers(BestAnswers, c);
    CategoryFrom(BestAnswers, c);
    forall i | 0 <= i < |g| ensures RawScoreAtLeast(rule, g[i], bound as real) {
      var k := BestMember(g[i], c, rule);
    }
  }

  /** The best answer at catalog position `k` is filed under its question's category. */
  lemma BestInCategory(k: nat) returns (j: nat)
    requires k < |AssessmentQuestions|
    ensures j < |CategoryAnswers(BestAnswers, AssessmentQuestions[k].category)|
    ensures CategoryAnswers(BestAnswers, AssessmentQuestions[k].category)[j] == BestAnswers[k]
  {
    BestAnswerFound(k);
    CategoryAnswersKeep(BestAnswers, AssessmentQuestions[k].category);
    j :| 0 <= j < |CategoryAnswers(BestAnswers, AssessmentQuestions[k].category)|
      && CategoryAnswers(BestAnswers, AssessmentQuestions[k].category)[j] == BestAnswers[k];
  }

  /** The rounded mean of a category of the best answers is at least `bound` when
      every best answer to a question of that category scores at least `bound`. */
  lemma BestCategoryMean(c: Category, rule: Rule, bound: int, k0: nat)
    requires k0 < |AssessmentQuestions| && AssessmentQuestions[k0].category == c
    requires BestAtLeast(c, rule, bound as real)
    ensures Mean(rule, CategoryAnswers(BestAnswers, c)).Num?
    ensures Mean(rule, CategoryAnswers(BestAnswers, c)).value >= bound
  {
    BestCategoryScores(c, rule, bound);
    var j := BestInCategory(k0);
    MeanAtLeast(rule, CategoryAnswers(BestAnswers, c), bound, j);
  }

  /** The catalog position of the one WISCAR question of each dimension, as the
      catalog lays them out. */
  lemma DimensionQuestion(d: Dimension) returns (k: nat)
    ensures OnlyWiscarQuestionFor(Key(d), k)
  {
    WiscarOnePerDimension();
    var i :| 0 <= i < |WiscarKeys| && WiscarKeys[i] == Key(d);
    k := 10 + i;
  }

  /** The dimension whose key is the key of `d` is `d`. */
  lemma DimensionOfKey(d: Dimension)
    ensures DimensionOf(Key(d)) == Some(d)
  {
  }

  /** The best answer to a WISCAR question filed under `d` scores at least 90 under `d`'s rule. */
  lemma BestWiscarScore(k: nat, d: Dimension)
    requires k < |AssessmentQuestions| && AssessmentQuestions[k].category == Wiscar
    requires DimensionOfAnswer(BestAnswers[k]) == Some(d)
    ensures RawScoreAtLeast(WiscarRule(d), BestAnswers[k], 90.0)
  {
    BestAnswerFound(k);
    BestScore(k);
  }

  /** Every best answer filed under dimension `d` scores at least 90 under its rule. */
  lemma BestBucketScores(d: Dimension)
    ensures RawScoresAtLeast(WiscarRule(d), Bucket(CategoryAnswers(BestAnswers, Wiscar), d), 90.0)
  {
    var ws := CategoryAnswers(BestAnswers, Wiscar);
    var b := Bucket(ws, d);
    CategoryFrom(BestAnswers, Wiscar);
    BucketFrom(ws, d);
    forall i | 0 <= i < |b| ensures RawScoreAtLeast(WiscarRule(d), b[i], 90.0) {
      BestFiledScore(b[i], d);
    }
  }

  /** A best answer to a WISCAR question filed under `d` scores at least 90 under `d`'s rule. */
  lemma BestFiledScore(x: Answer, d: Dimension)
    requires x in BestAnswers && InCategory(x, Wiscar) && DimensionOfAnswer(x) == Some(d)
    ensures RawScoreAtLeast(WiscarRule(d), x, 90.0)
  {
    var k := BestMember(x, Wiscar, WiscarRule(d));
    BestWiscarScore(k, d);
  }

  /** The best answer at catalog position `k` is filed by its question's subcategory. */
  lemma BestFiled(k: nat)
    requires k < |AssessmentQuestions|
    requires AssessmentQuestions[k].subcategory.Some? && AssessmentQuestions[k].subcategory.value != ""
    ensures DimensionOfAnswer(BestAnswers[k]) == DimensionOf(AssessmentQuestions[k].subcategory.value)
  {
    BestAnswerFound(k);
  }

  /** The one WISCAR question of dimension `d` is filed under `d`. */
  lemma BestDimensionQuestion(d: Dimension) returns (k: nat)
    ensures k < |AssessmentQuestions| && AssessmentQuestions[k].category == Wiscar
    ensures DimensionOfAnswer(BestAnswers[k]) == Some(d)
  {
    k := DimensionQuestion(d);
    BestFiled(k);
    DimensionOfKey(d);
  }

  /** The one WISCAR question of dimension `d` is answered in the bucket of `d`. */
  lemma BestInBucket(d: Dimension) returns (m: nat)
    ensures m < |Bucket(CategoryAnswers(BestAnswers, Wiscar), d)|
    ensures Known(Bucket(CategoryAnswers(BestAnswers, Wiscar), d)[m])
  {
    var ws := CategoryAnswers(BestAnswers, Wiscar);
    var k0 := BestDimensionQuestion(d);
    var j := BestInCategory(k0);
    BucketKeep(ws, d);
    assert DimensionOfAnswer(ws[j]) == Some(d);
    m :| 0 <= m < |Bucket(ws, d)| && Bucket(ws, d)[m] == ws[j];
  }

  /** With the best answers every WISCAR dimension scores at least 90. */
  lemma BestDimension(d: Dimension)
    ensures DimensionScore(CategoryAnswers(BestAnswers, Wiscar), d) >= 90
  {
    BestBucketScores(d);
    var m := BestInBucket(d);
    MeanAtLeast(WiscarRule(d), Bucket(CategoryAnswers(BestAnswers, Wiscar), d), 90, m);
  }

  /** With the best answers the psychometric fit is at least 85. */
  lemma BestPsychometric()
    ensures Mean(PsychometricRule, CategoryAnswers(BestAnswers, Psychometric)).Num?
    ensures Mean(PsychometricRule, CategoryAnswers(BestAnswers, Psychometric)).value >= 85
  {
    forall k | 0 <= k < |AssessmentQuestions| && AssessmentQuestions[k].category == Psychometric
      ensures RawScore(PsychometricRule, AssessmentQuestions[k], BestValue(AssessmentQuestions[k])) >= 85.0
    {
      BestScore(k);
    }
    BestCategoryMean(Psychometric, PsychometricRule, 85, 0);
  }

  /** With the best answers the technical readiness is exactly 100. */
  lemma BestTechnical()
    ensures Mean(TechnicalRule, CategoryAnswers(BestAnswers, Technical)) == Num(100)
  {
    BestTechnicalAtLeast();
    TechnicalBest();
  }

  lemma BestTechnicalAtLeast()
    ensures Mean(TechnicalRule, CategoryAnswers(BestAnswers, Technical)).Num?
    ensures Mean(TechnicalRule, CategoryAnswers(BestAnswers, Technical)).value >= 100
  {
    forall k | 0 <= k < |AssessmentQuestions| && AssessmentQuestions[k].category == Technical
      ensures RawScore(TechnicalRule, AssessmentQuestions[k], BestValue(AssessmentQuestions[k])) >= 100.0
    {
      BestScore(k);
    }
    BestCategoryMean(Technical, TechnicalRule, 100, 5);
  }

  /** Six sub-scores of at least `bound` average to at least `bound`. */
  lemma AverageAtLeast(w: WiscarScores, bound: int)
    requires w.will >= bound && w.interest >= bound && w.skill >= bound
    requires w.cognitive >= bound && w.abilityToLearn >= bound && w.realWorldFit >= bound
    ensures GetAverageWiscarScore(w) >= bound
  {
  }

  /** Answering every question with its best value scores at least 85 psychometrically,
      100 technically and 90 in every WISCAR dimension, for a confidence of at least
      85: the recommendation is Yes with the top four careers. */
  lemma BestAnswersRecommendYes()
    ensures var r := AssessmentResultsOf(BestAnswers);
      && r.psychFitScore.Num? && r.psychFitScore.value >= 85
      && r.techReadyScore == Num(100)
      && r.wiscarScores.will >= 90 && r.wiscarScores.interest >= 90 && r.wiscarScores.skill >= 90
      && r.wiscarScores.cognitive >= 90 && r.wiscarScores.abilityToLearn >= 90 && r.wiscarScores.realWorldFit >= 90
      && AtLeast(r.overallConfidence, 85)
      && r.recommendation == Yes
      && r.careerMatches == AllCareers[..4]
  {
    BestPsychometric();
    BestTechnical();
    BestDimension(Will);
    BestDimension(Interest);
    BestDimension(Skill);
    BestDimension(Cognitive);
    BestDimension(AbilityToLearn);
    BestDimension(RealWorldFit);
    var w := WiscarScoresOf(CategoryAnswers(BestAnswers, Wiscar));
    AverageAtLeast(w, 90);
    var r := AssessmentResultsOf(BestAnswers);
    CareersFollowRecommendation(r.overallConfidence, r.wiscarScores);
  }

  /** The best technical answers all score 100, so the technical score is at most 100. */
  lemma TechnicalBest()
    ensures Percent(Mean(TechnicalRule, CategoryAnswers(BestAnswers, Technical)))
  {
    var g := CategoryAnswers(BestAnswers, Technical);
    CategoryFrom(BestAnswers, Technical);
    forall i | 0 <= i < |g| ensures RawScoreWithin(TechnicalRule, g[i]) {
      var k := BestMember(g[i], Technical, TechnicalRule);
      BestScore(k);
    }
  }

}
