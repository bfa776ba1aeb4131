/**
 * The assessment flow: an intro screen, one question card per catalog question
 * and, once the last card is submitted, the results page. The state that the
 * component keeps is a class whose handlers update its fields in place.
 */
module AssessmentFlow {
  import opened Optional
  import opened Catalog
  import opened Scoring

  // ---------------------------------------------------------------------------
  // Recording an answer
  // ---------------------------------------------------------------------------

  /** `findIndex`: the first position holding an answer to question `id`. */
  function IndexOf(answers: seq<Answer>, id: string): (r: Option<nat>)
    ensures r.Some? ==> r.value < |answers| && answers[r.value].questionId == id
    ensures r.Some? ==> forall j :: 0 <= j < r.value ==> answers[j].questionId != id
    ensures r.None? ==> forall j :: 0 <= j < |answers| ==> answers[j].questionId != id
  {
    if answers == [] then None
    else if answers[0].questionId == id then Some(0)
    else
      match IndexOf(answers[1..], id)
      case None => None
      case Some(k) => Some(k + 1)
  }

  /** The answers after recording `a`: it overwrites the answer to the same
      question in place, or is appended when that question has none yet. */
  function Upsert(answers: seq<Answer>, a: Answer): seq<Answer>
  {
    match IndexOf(answers, a.questionId)
    case Some(k) => answers[k := a]
    case None => answers + [a]
  }

  /** Every answer is to a catalog question. */
  ghost predicate AllKnown(answers: seq<Answer>)
  {
    forall i :: 0 <= i < |answers| ==> Known(answers[i])
  }

  /** No two answers are to the same question. */
  ghost predicate DistinctAnswerIds(answers: seq<Answer>)
  {
    forall i, j :: 0 <= i < j < |answers| ==> answers[i].questionId != answers[j].questionId
  }

  /** Recording an answer to a question already answered overwrites that entry at
      its position and keeps every other entry and the length; recording an answer
      to a new question appends it. Either way `a` is kept, and the answers to other
      questions are exactly those before. */
  lemma UpsertRecords(answers: seq<Answer>, a: Answer)
    ensures IndexOf(answers, a.questionId).Some? ==>
      var k := IndexOf(answers, a.questionId).value;
      var r := Upsert(answers, a);
      |r| == |answers| && r[k] == a && forall j :: 0 <= j < |answers| && j != k ==> r[j] == answers[j]
    ensures IndexOf(answers, a.questionId).None? ==> Upsert(answers, a) == answers + [a]
    ensures a in Upsert(answers, a)
    ensures forall b: Answer :: b.questionId != a.questionId ==> (b in Upsert(answers, a) <==> b in answers)
    ensures |Upsert(answers, a)| == |answers| + (if IndexOf(answers, a.questionId).None? then 1 else 0)
  {
    match IndexOf(answers, a.questionId)
    case None =>
    case Some(k) =>
      var r := answers[k := a];
      assert r[k] == a;
      forall b: Answer | b.questionId != a.questionId ensures b in r <==> b in answers {
        if b in answers {
          var i :| 0 <= i < |answers| && answers[i] == b;
          assert r[i] == b;
        }
        if b in r {
          var i :| 0 <= i < |r| && r[i] == b;
          assert answers[i] == b;
        }
      }
  }

  /** Recording keeps the answers one per question, and afterwards the answer
      to `a`'s question is `a`. */
  lemma UpsertDistinct(answers: seq<Answer>, a: Answer)
    requires DistinctAnswerIds(answers)
    ensures DistinctAnswerIds(Upsert(answers, a))
    ensures IndexOf(Upsert(answers, a), a.questionId).Some?
    ensures var r := Upsert(answers, a); r[IndexOf(r, a.questionId).value] == a
  {
    var r := Upsert(answers, a);
    match IndexOf(answers, a.questionId)
    case None =>
      assert r[|answers|] == a;
    case Some(k) =>
      assert r[k] == a;
  }

  /** The latest answer to a question wins: recording twice is recording the second. */
  lemma UpsertLatestWins(answers: seq<Answer>, a: Answer, b: Answer)
    requires a.questionId == b.questionId
    ensures Upsert(Upsert(answers, a), b) == Upsert(answers, b)
  {
    var id := a.questionId;
    match IndexOf(answers, id)
    case None =>
      var r := answers + [a];
      IndexOfFirst(r, id, |answers|);
      assert r[|answers| := b] == answers + [b];
    case Some(k) =>
      IndexOfFirst(answers[k := a], id, k);
  }

  /** The first position holding `id` is what `IndexOf` finds. */
  lemma IndexOfFirst(answers: seq<Answer>, id: string, k: nat)
    requires k < |answers| && answers[k].questionId == id
    requires forall j :: 0 <= j < k ==> answers[j].questionId != id
    ensures IndexOf(answers, id) == Some(k)
  {
  }

  /** Recording an answer to one question does not move the answer to another. */
  lemma IndexOfOther(answers: seq<Answer>, a: Answer, id: string)
    requires id != a.questionId
    ensures IndexOf(Upsert(answers, a), id) == IndexOf(answers, id)
  {
    var r := Upsert(answers, a);
    UpsertRecords(answers, a);
    assert forall j :: 0 <= j < |answers| ==> (r[j].questionId == id <==> answers[j].questionId == id);
    match IndexOf(answers, id)
    case Some(k) =>
      IndexOfFirst(r, id, k);
    case None =>
  }

  /** Answering two different questions in either order records the same answers. */
  lemma UpsertCommutes(answers: seq<Answer>, a: Answer, b: Answer)
    requires a.questionId != b.questionId
    ensures multiset(Upsert(Upsert(answers, a), b)) == multiset(Upsert(Upsert(answers, b), a))
  {
    var ia, ib := IndexOf(answers, a.questionId), IndexOf(answers, b.questionId);
    var ra, rb := Upsert(answers, a), Upsert(answers, b);
    IndexOfOther(answers, a, b.questionId);
    IndexOfOther(answers, b, a.questionId);
    var rab, rba := Upsert(ra, b), Upsert(rb, a);
    if ia.Some? && ib.Some? {
      assert rab == answers[ia.value := a][ib.value := b];
      assert rba == answers[ib.value := b][ia.value := a];
      assert rab == rba;
    } else if ia.Some? {
      assert rab == answers[ia.value := a] + [b];
      assert rba == (answers + [b])[ia.value := a];
      assert rab == rba;
    } else if ib.Some? {
      assert rab == (answers + [a])[ib.value := b];
      assert rba == answers[ib.value := b] + [a];
      assert rab == rba;
    } else {
      assert rab == answers + [a] + [b];
      assert rba == answers + [b] + [a];
      assert multiset(rab) == multiset(answers) + multiset{a} + multiset{b};
      assert multiset(rba) == multiset(answers) + multiset{b} + multiset{a};
    }
  }

  /** The results do not depend on the order in which two questions are answered. */
  lemma AnswerOrderIrrelevant(answers: seq<Answer>, a: Answer, b: Answer)
    requires a.questionId != b.questionId
    ensures AssessmentResultsOf(Upsert(Upsert(answers, a), b)) == AssessmentResultsOf(Upsert(Upsert(answers, b), a))
  {
    UpsertCommutes(answers, a, b);
    ResultsReorder(Upsert(Upsert(answers, a), b), Upsert(Upsert(answers, b), a));
  }

  /** The `findIndex` loop: the first position holding an answer to `id`, or -1. */
  method FindIndex(answers: seq<Answer>, id: string) returns (k: int)
    ensures k == -1 <==> IndexOf(answers, id).None?
    ensures k != -1 ==> IndexOf(answers, id) == Some(k)
  {
    k := 0;
    while k < |answers|
      invariant 0 <= k <= |answers|
      invariant forall j :: 0 <= j < k ==> answers[j].questionId != id
    {
      if answers[k].questionId == id {
        IndexOfFirst(answers, id, k);
        return;
      }
      k := k + 1;
    }
    return -1;
  }

  // ---------------------------------------------------------------------------
  // The component's state
  // ---------------------------------------------------------------------------

  /** What the component renders. */
  datatype Screen = Intro | QuestionCard(index: nat) | ResultsPage(results: AssessmentResults)

  const LastIndex: int := |AssessmentQuestions| - 1

  class Assessment {
    /** -1 while the intro is shown, then the position of the question on screen. */
    var currentQuestionIndex: int
    var answers: seq<Answer>
    var isComplete: bool
    var results: Option<AssessmentResults>

    /** The state every handler keeps: the index is the intro or a catalog position,
        the answers are to catalog questions, one per question, and results are
        present exactly once the assessment is complete, on the last question, and
        are then the results of the recorded answers. */
    ghost predicate Valid()
      reads this
    {
      && -1 <= currentQuestionIndex <= LastIndex
      && DistinctAnswerIds(answers)
      && AllKnown(answers)
      && (isComplete ==> currentQuestionIndex == LastIndex)
      && results == (if isComplete then Some(AssessmentResultsOf(answers)) else None)
    }

    /** The state the component starts in and returns to on restart. */
    predicate IsInitial()
      reads this
    {
      currentQuestionIndex == -1 && answers == [] && !isComplete && results == None
    }

    /** The intro at index -1, the results page once complete, otherwise the card. */
    function View(): (s: Screen)
      reads this
      requires Valid()
      ensures s.Intro? <==> currentQuestionIndex == -1
      ensures s.ResultsPage? ==> s.results == AssessmentResultsOf(answers)
      ensures s.QuestionCard? ==> s.index == currentQuestionIndex && s.index < |AssessmentQuestions| && !isComplete
      ensures s.ResultsPage? <==> currentQuestionIndex != -1 && isComplete
    {
      if currentQuestionIndex == -1 then Intro
      else if isComplete && results.Some? then ResultsPage(results.value)
      else QuestionCard(currentQuestionIndex)
    }

    constructor ()
      ensures IsInitial() && Valid()
      ensures View() == Intro
    {
      currentQuestionIndex := -1;
      answers := [];
      isComplete := false;
      results := None;
    }

    /** Leaves the intro for the first question. */
    method Start()
      requires Valid() && currentQuestionIndex == -1
      modifies this
      ensures Valid()
      ensures currentQuestionIndex == 0 && View() == QuestionCard(0)
      ensures answers == old(answers) && isComplete == old(isComplete) && results == old(results)
    {
      currentQuestionIndex := 0;
    }

    /** Records `value` as the answer to the question on screen, overwriting an
        earlier answer to it. */
    method HandleAnswer(value: int)
      requires Valid() && 0 <= currentQuestionIndex && !isComplete
      modifies this
      ensures currentQuestionIndex == old(currentQuestionIndex) && Valid()
      ensures answers == Upsert(old(answers), Answer(AssessmentQuestions[currentQuestionIndex].id, value))
      ensures CurrentAnswer() == Some(value)
      ensures isComplete == old(isComplete) && results == old(results)
    {
      var id := AssessmentQuestions[currentQuestionIndex].id;
      var newAnswer := Answer(id, value);
      var existingAnswerIndex := FindIndex(answers, id);
      FindCatalog(currentQuestionIndex);
      UpsertDistinct(answers, newAnswer);
      if existingAnswerIndex >= 0 {
        answers := answers[existingAnswerIndex := newAnswer];
      } else {
        answers := answers + [newAnswer];
      }
      KnownAfterUpsert(old(answers), newAnswer);
    }

    /** Moves to the next question, or on the last one completes the assessment
        with the results of the recorded answers. */
    method Next()
      requires Valid() && 0 <= currentQuestionIndex && !isComplete
      modifies this
      ensures Valid()
      ensures answers == old(answers)
      ensures old(currentQuestionIndex) == LastIndex ==>
        isComplete && currentQuestionIndex == LastIndex && View() == ResultsPage(AssessmentResultsOf(answers))
      ensures old(currentQuestionIndex) < LastIndex ==>
        !isComplete && currentQuestionIndex == old(currentQuestionIndex) + 1 && results == None
    {
      if currentQuestionIndex == LastIndex {
        Complete();
      } else {
        currentQuestionIndex := currentQuestionIndex + 1;
      }
    }

    /** The last question's "next": computes and shows the results. */
    method Complete()
      requires Valid() && currentQuestionIndex == LastIndex && !isComplete
      modifies this
      ensures Valid() && isComplete && currentQuestionIndex == LastIndex && answers == old(answers)
      ensures results == Some(AssessmentResultsOf(answers))
    {
      var r := CalculateAssessmentResults(answers);
      isComplete := true;
      results := Some(r);
    }

    /** Moves back one question, staying on the first. */
    method Previous()
      requires Valid() && 0 <= currentQuestionIndex && !isComplete
      modifies this
      ensures Valid()
      ensures currentQuestionIndex == old(currentQuestionIndex) - (if old(CanGoBack()) then 1 else 0)
      ensures currentQuestionIndex >= 0
      ensures answers == old(answers) && isComplete == old(isComplete) && results == old(results)
    {
      currentQuestionIndex := if currentQuestionIndex - 1 > 0 then currentQuestionIndex - 1 else 0;
    }

    /** Discards everything and returns to the intro. */
    method Restart()
      modifies this
      ensures IsInitial() && Valid()
      ensures View() == Intro
    {
      currentQuestionIndex := -1;
      answers := [];
      isComplete := false;
      results := None;
    }

    /** The back button is enabled past the first question. */
    function CanGoBack(): bool
      reads this
    {
      currentQuestionIndex > 0
    }

    /** The one-based number shown on the card. */
    function QuestionNumber(): (n: int)
      reads this
      requires Valid() && currentQuestionIndex >= 0
      ensures 1 <= n <= |AssessmentQuestions|
    {
      currentQuestionIndex + 1
    }

    /** The value the card starts from: the recorded answer to the question on screen. */
    function CurrentAnswer(): (r: Option<int>)
      reads this
      requires Valid() && currentQuestionIndex >= 0
      ensures r.Some? <==> exists i :: 0 <= i < |answers| && answers[i].questionId == AssessmentQuestions[currentQuestionIndex].id
      ensures r.Some? ==> Answer(AssessmentQuestions[currentQuestionIndex].id, r.value) in answers
    {
      match IndexOf(answers, AssessmentQuestions[currentQuestionIndex].id)
      case None => None
      case Some(k) => Some(answers[k].value)
    }
  }

  /** Recording an answer to a catalog question keeps every answer to a catalog question. */
  lemma KnownAfterUpsert(answers: seq<Answer>, a: Answer)
    requires Known(a) && AllKnown(answers)
    ensures AllKnown(Upsert(answers, a))
  {
  }
}
