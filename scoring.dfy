/** Scoring of a submitted attempt (backend/routes/test.js, the attempt route):
    each submitted answer is checked against the stored answer key, and every
    match adds one to the score. */
module Scoring {
  import opened Common

  /** A stored question: its prompt `q`, its options, and the 0-based index of
      the correct option. */
  datatype Question = Question(q: string, options: seq<string>, correctIndex: int)

  /** One entry of the submitted `answers` array. */
  datatype Answer = Answer(questionIndex: int, selectedOption: int)

  /** One record of a test's attempt log. `userName` is copied from the user
      record when the attempt is submitted. */
  datatype Attempt = Attempt(userId: UserId, userName: string, score: int, timeTaken: int, submittedAt: string)

  predicate InRange(questions: seq<Question>, a: Answer) {
    0 <= a.questionIndex < |questions|
  }

  predicate AllInRange(questions: seq<Question>, answers: seq<Answer>) {
    forall i :: 0 <= i < |answers| ==> InRange(questions, answers[i])
  }

  predicate IsCorrect(questions: seq<Question>, a: Answer)
    requires InRange(questions, a)
  {
    questions[a.questionIndex].correctIndex == a.selectedOption
  }

  /** The number of entries of `answers` that match the answer key; every entry
      counts on its own, so a repeated question index is counted each time. */
  function CountCorrect(questions: seq<Question>, answers: seq<Answer>): nat
    requires AllInRange(questions, answers)
  {
    if answers == [] then 0
    else
      var last := answers[|answers| - 1];
      CountCorrect(questions, answers[..|answers| - 1]) + (if IsCorrect(questions, last) then 1 else 0)
  }

  /** The scoring loop of the attempt route: `None` stands for the exception
      that indexing past the question list raises (the route then answers 500
      and stores nothing). */
  method ScoreAnswers(questions: seq<Question>, answers: seq<Answer>) returns (score: Option<nat>)
    ensures score.Some? <==> AllInRange(questions, answers)
    ensures score.Some? ==> score.value == CountCorrect(questions, answers)
  {
    var s := 0;
    var i := 0;
    while i < |answers|
      invariant 0 <= i <= |answers|
      invariant AllInRange(questions, answers[..i])
      invariant s == CountCorrect(questions, answers[..i])
    {
      var answer := answers[i];
      if !(0 <= answer.questionIndex < |questions|) {
        return None;
      }
      assert answers[..i + 1][..i] == answers[..i];
      if questions[answer.questionIndex].correctIndex == answer.selectedOption {
        s := s + 1;
      }
      i := i + 1;
    }
    assert answers[..i] == answers;
    score := Some(s);
  }

  /** Each entry counts independently: the score of a concatenation is the sum
      of the scores of its parts. */
  lemma {:induction false} CountCorrectAppend(questions: seq<Question>, a: seq<Answer>, b: seq<Answer>)
    requires AllInRange(questions, a) && AllInRange(questions, b)
    ensures AllInRange(questions, a + b)
    ensures CountCorrect(questions, a + b) == CountCorrect(questions, a) + CountCorrect(questions, b)
  {
    if b != [] {
      var ab := a + b;
      assert ab[..|ab| - 1] == a + b[..|b| - 1];
      assert ab[|ab| - 1] == b[|b| - 1];
      CountCorrectAppend(questions, a, b[..|b| - 1]);
    } else {
      assert a + b == a;
    }
  }

  /** The score is the number of positions of `answers` that hold a correct
      answer. */
  lemma {:induction false} CountCorrectIsCardinality(questions: seq<Question>, answers: seq<Answer>)
    requires AllInRange(questions, answers)
    ensures CountCorrect(questions, answers) == |CorrectPositions(questions, answers)|
  {
    if answers != [] {
      var n := |answers| - 1;
      CountCorrectIsCardinality(questions, answers[..n]);
      CorrectPositionsStep(questions, answers);
    }
  }

  function CorrectPositions(questions: seq<Question>, answers: seq<Answer>): set<nat>
    requires AllInRange(questions, answers)
  {
    set j: nat | j < |answers| && IsCorrect(questions, answers[j])
  }

  /** The correct positions of a list are those of its prefix, plus the last
      position when the last answer is correct. */
  lemma CorrectPositionsStep(questions: seq<Question>, answers: seq<Answer>)
    requires AllInRange(questions, answers) && answers != []
    ensures var n := |answers| - 1;
            AllInRange(questions, answers[..n]) &&
            |CorrectPositions(questions, answers)| ==
              |CorrectPositions(questions, answers[..n])| + (if IsCorrect(questions, answers[n]) then 1 else 0)
  {
    var n := |answers| - 1;
    var init := answers[..n];
    assert AllInRange(questions, init) by {
      forall j | 0 <= j < n ensures InRange(questions, init[j]) {
        assert init[j] == answers[j];
      }
    }
    var before := CorrectPositions(questions, init);
    var last: set<nat> := if IsCorrect(questions, answers[n]) then {n} else {};
    forall j: nat
      ensures j in CorrectPositions(questions, answers) <==> j in before + last
    {
      if j < n {
        assert init[j] == answers[j];
      }
    }
    assert CorrectPositions(questions, answers) == before + last;
    assert n !in before;
  }

  /** The score never exceeds the number of answers submitted. */
  lemma {:induction false} CountCorrectAtMostAnswers(questions: seq<Question>, answers: seq<Answer>)
    requires AllInRange(questions, answers)
    ensures CountCorrect(questions, answers) <= |answers|
  {
    if answers != [] {
      CountCorrectAtMostAnswers(questions, answers[..|answers| - 1]);
    }
  }

  predicate DistinctIndices(answers: seq<Answer>) {
    forall i, j :: 0 <= i < j < |answers| ==> answers[i].questionIndex != answers[j].questionIndex
  }

  function IndexSet(answers: seq<Answer>): set<int> {
    set i | 0 <= i < |answers| :: answers[i].questionIndex
  }

  lemma {:induction false} IndexSetSize(answers: seq<Answer>)
    requires DistinctIndices(answers)
    ensures |IndexSet(answers)| == |answers|
  {
    if answers != [] {
      var n := |answers| - 1;
      IndexSetSize(answers[..n]);
      assert IndexSet(answers) == IndexSet(answers[..n]) + {answers[n].questionIndex};
      assert answers[n].questionIndex !in IndexSet(answers[..n]);
    }
  }

  /** The valid question indices of a test with `n` questions. */
  function Range(n: nat): (r: set<int>)
    ensures forall i :: i in r <==> 0 <= i < n
    ensures |r| == n
  {
    if n == 0 then {} else Range(n - 1) + {n - 1}
  }

  lemma SubsetSize(a: set<int>, b: set<int>)
    requires a <= b
    ensures |a| <= |b|
  {
    assert b == a + (b - a);
  }

  /** When the submitted question indices are distinct and in range, the score
      is at most the number of questions. */
  lemma DistinctScoreAtMostQuestions(questions: seq<Question>, answers: seq<Answer>)
    requires AllInRange(questions, answers)
    requires DistinctIndices(answers)
    ensures CountCorrect(questions, answers) <= |questions|
  {
    CountCorrectAtMostAnswers(questions, answers);
    IndexSetSize(answers);
    SubsetSize(IndexSet(answers), Range(|questions|));
  }

  /** With a repeated index the score can exceed the number of questions: one
      question answered correctly twice scores 2 out of 1. */
  lemma RepeatedAnswerCountsTwice()
    ensures var qs := [Question("q", ["a", "b", "c", "d"], 0)];
            var answers := [Answer(0, 0), Answer(0, 0)];
            AllInRange(qs, answers) && CountCorrect(qs, answers) == 2 > |qs|
  {
    var qs := [Question("q", ["a", "b", "c", "d"], 0)];
    var answers := [Answer(0, 0), Answer(0, 0)];
    assert answers[..1] == [Answer(0, 0)];
    assert answers[..1][..0] == [];
  }
}
