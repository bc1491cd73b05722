/** The test-taking page (frontend/src/pages/Test.jsx): a cursor over the
    questions, a map from question index to the chosen option, the submission
    payload built from that map, and the elapsed-time display. */
module TestPage {
  import opened Common
  import opened Scoring

  /** The JSON body of the attempt request. */
  datatype Submission = Submission(answers: seq<Answer>, timeTaken: nat)

  /** `Object.entries(answers).map(...)` restricted to the keys in [from, n).
      The keys of the answers object are integer-like property names, which
      ECMA-262 (10th edition, section 9.1.11.1) enumerates in ascending numeric
      order, so the entries come out sorted by question index. */
  function Entries(answers: map<int, int>, from: nat, n: nat): seq<Answer>
    decreases n - from
  {
    if from >= n then []
    else (if from in answers then [Answer(from, answers[from])] else []) + Entries(answers, from + 1, n)
  }

  /** Every entry is a key of the map in [from, n) with the option stored for
      it. */
  lemma {:induction false} EntriesSound(answers: map<int, int>, from: nat, n: nat)
    decreases n - from
    ensures forall i :: 0 <= i < |Entries(answers, from, n)| ==>
              var e := Entries(answers, from, n)[i];
              from <= e.questionIndex < n && e.questionIndex in answers && e.selectedOption == answers[e.questionIndex]
  {
    if from < n {
      EntriesSound(answers, from + 1, n);
      var rest := Entries(answers, from + 1, n);
      var head := if from in answers then [Answer(from, answers[from])] else [];
      var r := head + rest;
      assert Entries(answers, from, n) == r;
      forall i | 0 <= i < |r|
        ensures from <= r[i].questionIndex < n && r[i].questionIndex in answers
        ensures r[i].selectedOption == answers[r[i].questionIndex]
      {
        if i < |head| {
          assert r[i] == head[i] == Answer(from, answers[from]);
        } else {
          assert r[i] == rest[i - |head|];
        }
      }
    }
  }

  /** The entries come in strictly ascending question order. */
  lemma {:induction false} EntriesAscending(answers: map<int, int>, from: nat, n: nat)
    decreases n - from
    ensures forall i, j :: 0 <= i < j < |Entries(answers, from, n)| ==>
              Entries(answers, from, n)[i].questionIndex < Entries(answers, from, n)[j].questionIndex
  {
    if from < n {
      EntriesAscending(answers, from + 1, n);
      EntriesSound(answers, from + 1, n);
      var rest := Entries(answers, from + 1, n);
      var head := if from in answers then [Answer(from, answers[from])] else [];
      var r := head + rest;
      assert Entries(answers, from, n) == r;
      forall i, j | 0 <= i < j < |r|
        ensures r[i].questionIndex < r[j].questionIndex
      {
        assert r[j] == rest[j - |head|];
        if i < |head| {
          assert r[i] == head[i] == Answer(from, answers[from]);
        } else {
          assert r[i] == rest[i - |head|];
        }
      }
    }
  }

  /** Every key of the map in [from, n) has its entry. */
  lemma {:induction false} EntriesComplete(answers: map<int, int>, from: nat, n: nat)
    decreases n - from
    ensures forall q :: from <= q < n && q in answers ==> Answer(q, answers[q]) in Entries(answers, from, n)
  {
    if from < n {
      EntriesComplete(answers, from + 1, n);
      var rest := Entries(answers, from + 1, n);
      var head := if from in answers then [Answer(from, answers[from])] else [];
      assert Entries(answers, from, n) == head + rest;
      forall q | from <= q < n && q in answers
        ensures Answer(q, answers[q]) in head + rest
      {
        if q > from {
          assert Answer(q, answers[q]) in rest;
        }
      }
    }
  }

  /** The submitted answers: one entry per answered question. */
  function Payload(answers: map<int, int>, n: nat): seq<Answer> {
    Entries(answers, 0, n)
  }

  /** The keys of `answers` in [from, n). */
  function KeysBetween(answers: map<int, int>, from: int, n: int): set<int> {
    set k | k in answers && from <= k < n
  }

  lemma KeysBetweenStep(answers: map<int, int>, from: int, n: int)
    requires from < n
    ensures KeysBetween(answers, from, n)
         == KeysBetween(answers, from + 1, n) + (if from in answers then {from} else {})
  {
  }

  lemma {:induction false} EntriesCount(answers: map<int, int>, from: nat, n: nat)
    ensures |Entries(answers, from, n)| == |KeysBetween(answers, from, n)|
    decreases n - from
  {
    if from < n {
      EntriesCount(answers, from + 1, n);
      KeysBetweenStep(answers, from, n);
      assert from !in KeysBetween(answers, from + 1, n);
      var head := if from in answers then [Answer(from, answers[from])] else [];
      assert Entries(answers, from, n) == head + Entries(answers, from + 1, n);
    } else {
      assert KeysBetween(answers, from, n) == {};
    }
  }

  /** When every key is a question index, the payload has exactly one entry per
      key of the map, its question indices are distinct and in range, and the
      score it earns is at most the number of questions. */
  lemma PayloadMatchesAnswers(questions: seq<Question>, answers: map<int, int>)
    requires forall k :: k in answers ==> 0 <= k < |questions|
    ensures var p := Payload(answers, |questions|);
            |p| == |answers| && AllInRange(questions, p) && DistinctIndices(p) &&
            CountCorrect(questions, p) <= |questions|
  {
    var p := Payload(answers, |questions|);
    EntriesCount(answers, 0, |questions|);
    EntriesSound(answers, 0, |questions|);
    EntriesAscending(answers, 0, |questions|);
    forall k ensures k in KeysBetween(answers, 0, |questions|) <==> k in answers.Keys {
    }
    assert KeysBetween(answers, 0, |questions|) == answers.Keys;
    assert AllInRange(questions, p);
    assert DistinctIndices(p);
    DistinctScoreAtMostQuestions(questions, p);
  }

  /** `padStart(2, '0')`. */
  function PadTwo(s: string): string {
    if |s| < 2 then "0" + s else s
  }

  /** Seconds below 60, padded, are two digits that read back as the seconds. */
  lemma PaddedSecondsReadBack(secs: nat)
    requires secs < 60
    ensures var p := PadTwo(DecimalString(secs));
            |p| == 2 && AllDigits(p) && ParseDecimal(p) == secs
  {
    var d := DecimalString(secs);
    ParseDecimalString(secs);
    if |d| < 2 {
      ParseDecimalLeadingZero(d);
    } else {
      assert Pow10(2) == 100;
      DecimalStringLength(secs, 2);
    }
  }

  /** The clock of the page: `${mins}:${secs}` with the seconds padded to two
      digits. */
  function FormatClock(seconds: nat): string {
    DecimalString(seconds / 60) + ":" + PadTwo(DecimalString(seconds % 60))
  }

  /** The clock reads back: the minutes are what precedes the last three
      characters, the seconds are the last two digits, below 60, and together
      they give the elapsed time. */
  lemma FormatClockReadsBack(seconds: nat)
    ensures var r := FormatClock(seconds);
            |r| >= 4 && r[|r| - 3] == ':' && AllDigits(r[..|r| - 3]) && AllDigits(r[|r| - 2..]) &&
            ParseDecimal(r[|r| - 2..]) < 60 &&
            ParseDecimal(r[..|r| - 3]) * 60 + ParseDecimal(r[|r| - 2..]) == seconds
  {
    var mins, padded := DecimalString(seconds / 60), PadTwo(DecimalString(seconds % 60));
    ParseDecimalString(seconds / 60);
    PaddedSecondsReadBack(seconds % 60);
    var r := mins + ":" + padded;
    assert r[..|r| - 3] == mins;
    assert r[|r| - 2..] == padded;
  }

  /** The state of the page once the test is loaded. */
  class TestSession {
    const questions: seq<Question>
    var current: int
    var answers: map<int, int>

    /** The cursor is a question index (or 0 when there are none), and every
        key of the answers map is a question index mapped to one of its
        options. */
    ghost predicate Valid()
      reads this
    {
      && 0 <= current && (current < |questions| || current == 0)
      && forall k | k in answers :: 0 <= k < |questions| && 0 <= answers[k] < |questions[k].options|
    }

    constructor (questions: seq<Question>)
      ensures Valid() && this.questions == questions && current == 0 && answers == map[]
    {
      this.questions := questions;
      current := 0;
      answers := map[];
    }

    /** `handleAnswerSelect`: an option button of the current question was
        clicked. The choice for the current question is replaced; every other
        question keeps its choice. */
    method SelectAnswer(optionIndex: int)
      requires Valid() && current < |questions| && 0 <= optionIndex < |questions[current].options|
      modifies this
      ensures Valid() && current == old(current)
      ensures answers == old(answers)[current := optionIndex]
    {
      answers := answers[current := optionIndex];
    }

    /** `handleNext`: moves forward unless on the last question. */
    method Next()
      requires Valid()
      modifies this
      ensures Valid() && answers == old(answers)
      ensures current == if old(current) < |questions| - 1 then old(current) + 1 else old(current)
    {
      if current < |questions| - 1 {
        current := current + 1;
      }
    }

    /** `handlePrevious`: moves back unless on the first question. */
    method Previous()
      requires Valid()
      modifies this
      ensures Valid() && answers == old(answers)
      ensures current == if old(current) > 0 then old(current) - 1 else old(current)
    {
      if current > 0 {
        current := current - 1;
      }
    }

    /** `handleSubmit` up to the request: with fewer answers than questions the
        user is asked to confirm (`confirmed` is the answer of that dialog), and
        declining sends nothing. */
    method Submit(confirmed: bool, timeElapsed: nat) returns (request: Option<Submission>)
      requires Valid()
      ensures request.None? <==> |answers| < |questions| && !confirmed
      ensures request.Some? ==> request.value == Submission(Payload(answers, |questions|), timeElapsed)
      ensures request.Some? ==> |request.value.answers| == |answers|
      ensures request.Some? ==> forall i :: 0 <= i < |request.value.answers| ==>
        var a := request.value.answers[i];
        a.questionIndex in answers && answers[a.questionIndex] == a.selectedOption &&
        0 <= a.selectedOption < |questions[a.questionIndex].options|
      ensures request.Some? ==> DistinctIndices(request.value.answers) && AllInRange(questions, request.value.answers)
    {
      if |answers| < |questions| && !confirmed {
        return None;
      }
      PayloadMatchesAnswers(questions, answers);
      EntriesSound(answers, 0, |questions|);
      request := Some(Submission(Payload(answers, |questions|), timeElapsed));
    }
  }

  /** The last selection for a question wins: selecting twice on the same
      question leaves only the second choice. */
  method LastSelectionWins(questions: seq<Question>, first: int, second: int)
    requires |questions| > 0 && 0 <= first < |questions[0].options| && 0 <= second < |questions[0].options|
  {
    var session := new TestSession(questions);
    session.SelectAnswer(first);
    session.SelectAnswer(second);
    assert session.answers == map[0 := second];
    session.Next();
    session.Previous();
    assert session.current == 0;
  }
}
