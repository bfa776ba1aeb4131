/**
 * The static question catalog of the career-fit assessment: sixteen questions
 * in three categories (psychometric, technical, WISCAR). Only what scoring
 * reads is kept: ids, types, categories, subcategories, option counts,
 * slider bounds, correct answers and weights.
 */
module Catalog {
  import opened Optional

  datatype QuestionType = Slider | MultipleChoice | Scenario

  datatype Category = Psychometric | Technical | Wiscar

  /** `optionCount` is the length of the `options` list, 0 when the question has none. */
  datatype Question = Question(
    id: string,
    kind: QuestionType,
    category: Category,
    subcategory: Option<string>,
    optionCount: nat,
    min: Option<int>,
    max: Option<int>,
    correctAnswer: Option<int>,
    weight: Option<real>)

  const AssessmentQuestions: seq<Question> := [
    // Psychometric section
    Question("psych_1", Slider, Psychometric, Some("interest"), 0, Some(1), Some(10), None, Some(2.0)),
    Question("psych_2", MultipleChoice, Psychometric, Some("personality"), 4, None, None, None, Some(1.5)),
    Question("psych_3", Slider, Psychometric, Some("motivation"), 0, Some(1), Some(10), None, Some(2.0)),
    Question("psych_4", MultipleChoice, Psychometric, Some("work_style"), 4, None, None, None, Some(1.0)),
    Question("psych_5", Slider, Psychometric, Some("analytical"), 0, Some(1), Some(10), None, Some(2.0)),
    // Technical section
    Question("tech_1", MultipleChoice, Technical, None, 4, None, None, Some(1), Some(1.5)),
    Question("tech_2", Slider, Technical, None, 0, Some(1), Some(10), None, Some(2.0)),
    Question("tech_3", MultipleChoice, Technical, None, 4, None, None, Some(1), Some(1.5)),
    Question("tech_4", Scenario, Technical, None, 4, None, None, Some(0), Some(2.0)),
    Question("tech_5", Slider, Technical, None, 0, Some(1), Some(10), None, Some(2.0)),
    // WISCAR framework
    Question("wiscar_will_1", Scenario, Wiscar, Some("will"), 4, None, None, None, Some(2.0)),
    Question("wiscar_interest_1", MultipleChoice, Wiscar, Some("interest"), 4, None, None, None, Some(1.5)),
    Question("wiscar_skill_1", Slider, Wiscar, Some("skill"), 0, Some(1), Some(10), None, Some(1.5)),
    Question("wiscar_cognitive_1", Scenario, Wiscar, Some("cognitive"), 4, None, None, None, Some(2.0)),
    Question("wiscar_learn_1", Slider, Wiscar, Some("abilityToLearn"), 0, Some(1), Some(10), None, Some(1.5)),
    Question("wiscar_fit_1", Scenario, Wiscar, Some("realWorldFit"), 4, None, None, None, Some(2.0))
  ]

  /** The six WISCAR dimensions, in the order of the source's score record. */
  const WiscarKeys: seq<string> := ["will", "interest", "skill", "cognitive", "abilityToLearn", "realWorldFit"]

  /** `question.weight || 1`: a missing weight or a weight of 0 counts as 1. */
  function Weight(q: Question): real
  {
    if q.weight.Some? && q.weight.value != 0.0 then q.weight.value else 1.0
  }

  /** `qs.find(q => q.id === id)`: the first question with that id. */
  function FindIn(qs: seq<Question>, id: string): Option<Question>
  {
    if qs == [] then None
    else if qs[0].id == id then Some(qs[0])
    else FindIn(qs[1..], id)
  }

  /** The lookup the scoring engine does for every answer: a hit is a well-formed
      catalog question carrying that id. */
  function Find(id: string): (r: Option<Question>)
    ensures r.Some? ==> r.value.id == id && WellFormed(r.value)
  {
    FindInFinds(AssessmentQuestions, id);
    CatalogWellFormed();
    FindIn(AssessmentQuestions, id)
  }

  /** Find hits exactly the catalog's ids, and returns the catalog's own entry. */
  lemma FindInCatalog(id: string)
    ensures Find(id).Some? ==> Find(id).value in AssessmentQuestions
    ensures Find(id).None? <==> forall i :: 0 <= i < |AssessmentQuestions| ==> AssessmentQuestions[i].id != id
  {
    FindInFinds(AssessmentQuestions, id);
  }

  /** The shape shared by every catalog question: positive weight, sliders over
      1..10 without options, choice questions with four options and any correct
      answer among them. */
  predicate WellFormed(q: Question)
  {
    && Weight(q) > 0.0
    && (q.kind == Slider ==> q.min == Some(1) && q.max == Some(10) && q.optionCount == 0 && q.correctAnswer.None?)
    && (q.kind != Slider ==> q.optionCount == 4 && q.min.None? && q.max.None?)
    && (q.correctAnswer.Some? ==> 0 <= q.correctAnswer.value < q.optionCount)
  }

  lemma CatalogWellFormed()
    ensures forall q :: q in AssessmentQuestions ==> WellFormed(q)
  {
    SlidersSpanOneToTen();
    ChoicesHaveFourOptions();
    CatalogWeights();
  }

  /** `find` returns an element carrying the id, and misses only when no element carries it. */
  lemma {:induction false} FindInFinds(qs: seq<Question>, id: string)
    ensures FindIn(qs, id).Some? ==> FindIn(qs, id).value in qs && FindIn(qs, id).value.id == id
    ensures FindIn(qs, id).None? <==> forall i :: 0 <= i < |qs| ==> qs[i].id != id
  {
    if qs != [] {
      FindInFinds(qs[1..], id);
      if qs[0].id != id {
        assert forall i :: 1 <= i < |qs| ==> qs[i] == qs[1..][i - 1];
      }
    }
  }

  ghost predicate DistinctIds(qs: seq<Question>)
  {
    forall i, j :: 0 <= i < j < |qs| ==> qs[i].id != qs[j].id
  }

  /** Looking up a question of a list with distinct ids returns that question. */
  lemma {:induction false} FindInDistinct(qs: seq<Question>, k: nat)
    requires DistinctIds(qs) && k < |qs|
    ensures FindIn(qs, qs[k].id) == Some(qs[k])
  {
    if k > 0 {
      assert qs[0].id != qs[k].id;
      assert qs[1..][k - 1] == qs[k];
      FindInDistinct(qs[1..], k - 1);
    }
  }

  lemma CatalogSize()
    ensures |AssessmentQuestions| == 16
  {
  }

  /** No two questions of the catalog share an id. */
  lemma CatalogIdsDistinct()
    ensures DistinctIds(AssessmentQuestions)
  {
    IdsDistinctFrom(0);
    IdsDistinctFrom(4);
    IdsDistinctFrom(8);
    IdsDistinctFrom(12);
  }

  /** The four questions from position `lo` on have ids that no later question repeats. */
  lemma IdsDistinctFrom(lo: nat)
    requires lo % 4 == 0 && lo + 4 <= |AssessmentQuestions|
    ensures forall i, j :: lo <= i < lo + 4 && i < j < |AssessmentQuestions| ==>
      AssessmentQuestions[i].id != AssessmentQuestions[j].id
  {
    assert lo == 0 || lo == 4 || lo == 8 || lo == 12;
  }

  /** Every question of the catalog is found by its own id. */
  lemma FindCatalog(k: nat)
    requires k < |AssessmentQuestions|
    ensures Find(AssessmentQuestions[k].id) == Some(AssessmentQuestions[k])
  {
    CatalogIdsDistinct();
    FindInDistinct(AssessmentQuestions, k);
  }

  /** The range of answer values the question card offers: the slider's declared
      bounds (1 and 10 when undeclared), or an index into the options. */
  predicate InRange(q: Question, v: int)
  {
    if q.kind == Slider then
      (if q.min.Some? && q.min.value != 0 then q.min.value else 1) <= v
      && v <= (if q.max.Some? && q.max.value != 0 then q.max.value else 10)
    else
      0 <= v < q.optionCount
  }

  /** Every slider declares the range 1..10, so a value in range rescales by (v-1)/9. */
  lemma SlidersSpanOneToTen()
    ensures forall i :: 0 <= i < |AssessmentQuestions| && AssessmentQuestions[i].kind == Slider ==>
      AssessmentQuestions[i].min == Some(1) && AssessmentQuestions[i].max == Some(10)
      && AssessmentQuestions[i].optionCount == 0
    ensures forall i, v :: 0 <= i < |AssessmentQuestions| && AssessmentQuestions[i].kind == Slider ==>
      (InRange(AssessmentQuestions[i], v) <==> 1 <= v <= 10)
  {
  }

  /** Every choice question offers four options, and every correct answer is one of them. */
  lemma ChoicesHaveFourOptions()
    ensures forall i :: 0 <= i < |AssessmentQuestions| && AssessmentQuestions[i].kind != Slider ==>
      AssessmentQuestions[i].optionCount == 4
      && AssessmentQuestions[i].min.None? && AssessmentQuestions[i].max.None?
    ensures forall i :: 0 <= i < |AssessmentQuestions| && AssessmentQuestions[i].correctAnswer.Some? ==>
      AssessmentQuestions[i].kind != Slider
      && 0 <= AssessmentQuestions[i].correctAnswer.value < AssessmentQuestions[i].optionCount
  {
  }

  /** Every weight is declared, positive and one of 1, 1.5 and 2. */
  lemma CatalogWeights()
    ensures forall i :: 0 <= i < |AssessmentQuestions| ==>
      AssessmentQuestions[i].weight.Some? && AssessmentQuestions[i].weight.value in {1.0, 1.5, 2.0}
      && Weight(AssessmentQuestions[i]) == AssessmentQuestions[i].weight.value
  {
  }

  /** Each WISCAR dimension is the subcategory of exactly one WISCAR question
      (WiscarKeys[k] that of question 10 + k), and no WISCAR question has
      another subcategory. */
  lemma WiscarOnePerDimension()
    ensures forall k :: 0 <= k < |WiscarKeys| ==> OnlyWiscarQuestionFor(WiscarKeys[k], 10 + k)
    ensures forall i :: 0 <= i < |AssessmentQuestions| && AssessmentQuestions[i].category == Wiscar ==>
      AssessmentQuestions[i].subcategory.Some? && AssessmentQuestions[i].subcategory.value in WiscarKeys
  {
    WiscarFirstKeys();
    WiscarLastKeys();
    forall k | 0 <= k < |WiscarKeys| ensures OnlyWiscarQuestionFor(WiscarKeys[k], 10 + k) {
    }
  }

  lemma WiscarFirstKeys()
    ensures OnlyWiscarQuestionFor(WiscarKeys[0], 10)
    ensures OnlyWiscarQuestionFor(WiscarKeys[1], 11)
    ensures OnlyWiscarQuestionFor(WiscarKeys[2], 12)
  {
    assert OnlyWiscarQuestionFor(WiscarKeys[0], 10);
    assert OnlyWiscarQuestionFor(WiscarKeys[1], 11);
  }

  lemma WiscarLastKeys()
    ensures OnlyWiscarQuestionFor(WiscarKeys[3], 13)
    ensures OnlyWiscarQuestionFor(WiscarKeys[4], 14)
    ensures OnlyWiscarQuestionFor(WiscarKeys[5], 15)
  {
    assert OnlyWiscarQuestionFor(WiscarKeys[3], 13);
    assert OnlyWiscarQuestionFor(WiscarKeys[4], 14);
  }

  predicate IsWiscarQuestionFor(q: Question, key: string)
  {
    q.category == Wiscar && q.subcategory == Some(key)
  }

  /** Question i is a WISCAR question for `key`, and the only one. */
  predicate OnlyWiscarQuestionFor(key: string, i: int)
  {
    && 0 <= i < |AssessmentQuestions|
    && IsWiscarQuestionFor(AssessmentQuestions[i], key)
    && forall j :: 0 <= j < |AssessmentQuestions| && IsWiscarQuestionFor(AssessmentQuestions[j], key) ==> j == i
  }

  /** The psychometric choice questions are exactly those with a scoring table. */
  lemma PsychometricChoiceSubcategories()
    ensures forall i ::
      (0 <= i < |AssessmentQuestions| && AssessmentQuestions[i].category == Psychometric
       && AssessmentQuestions[i].kind != Slider) ==>
        AssessmentQuestions[i].kind == MultipleChoice
        && AssessmentQuestions[i].subcategory in {Some("personality"), Some("work_style")}
    ensures forall i :: 0 <= i < |AssessmentQuestions| && AssessmentQuestions[i].category == Psychometric ==>
      AssessmentQuestions[i].correctAnswer.None?
  {
  }

  /** Technical choice and scenario questions have a correct answer; technical sliders have none. */
  lemma TechnicalCorrectAnswers()
    ensures forall i :: 0 <= i < |AssessmentQuestions| && AssessmentQuestions[i].category == Technical ==>
      (AssessmentQuestions[i].correctAnswer.Some? <==> AssessmentQuestions[i].kind != Slider)
    ensures forall i :: 0 <= i < |AssessmentQuestions| && AssessmentQuestions[i].category == Wiscar ==>
      AssessmentQuestions[i].correctAnswer.None?
  {
  }
}
