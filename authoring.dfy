/** The test-authoring form of the organisation page
    (frontend/src/pages/Organization.jsx): a title and a list of questions of
    four options each that never becomes empty, the handlers that edit it, and
    the create-test payload built from it. */
module Authoring {
  import opened Common
  import Scoring

  /** A question as the form holds it. `correctIndex` is the value of the
      "Correct Answer" select, a string; a blank question starts with the
      number 0, which `parseInt` reads exactly as the select's "0", so the model
      stores "0". */
  datatype FormQuestion = FormQuestion(question: string, options: seq<string>, correctIndex: string)

  /** The values the select offers, shown as "Option 1" to "Option 4". */
  const SelectValues: seq<string> := ["0", "1", "2", "3"]

  predicate IsSelectValue(s: string) {
    s in SelectValues
  }

  /** The question the form starts with and that "+ Add Question" appends. */
  const Blank := FormQuestion("", ["", "", "", ""], "0")

  /** A question the form's inputs can produce: four options and a select
      value. */
  predicate WellFormed(q: FormQuestion) {
    |q.options| == 4 && IsSelectValue(q.correctIndex)
  }

  /** The fields `handleQuestionChange` is called with. */
  datatype Field = QuestionText | CorrectIndex

  /** `s.filter((_, i) => i !== index)`. */
  function Without<T>(s: seq<T>, index: int): (r: seq<T>)
    ensures 0 <= index < |s| ==> r == s[..index] + s[index + 1..]
    ensures !(0 <= index < |s|) ==> r == s
  {
    if s == [] then []
    else (if index == 0 then [] else [s[0]]) + Without(s[1..], index - 1)
  }

  /** `parseInt(q.correctIndex)` on a select value. */
  function SelectedIndex(s: string): (k: nat)
    requires IsSelectValue(s)
    ensures k < 4 && SelectValues[k] == s
  {
    if s == "0" then 0 else if s == "1" then 1 else if s == "2" then 2 else 3
  }

  /** The `questions` of the create-test request: `question` becomes `q`, the
      options are copied and the select value is parsed. */
  function Payload(questions: seq<FormQuestion>): (p: seq<Scoring.Question>)
    requires forall i :: 0 <= i < |questions| ==> IsSelectValue(questions[i].correctIndex)
    ensures |p| == |questions|
  {
    if questions == [] then []
    else [Scoring.Question(questions[0].question, questions[0].options, SelectedIndex(questions[0].correctIndex))]
         + Payload(questions[1..])
  }

  /** Each payload question is the form question it came from, and its answer
      key is the option the select showed, so it lies in 0..3 and names one of
      the four options. */
  lemma {:induction false} PayloadFaithful(questions: seq<FormQuestion>)
    requires forall i :: 0 <= i < |questions| ==>
      |questions[i].options| == 4 && IsSelectValue(questions[i].correctIndex)
    ensures var p := Payload(questions);
            forall i :: 0 <= i < |p| ==>
              && p[i].q == questions[i].question
              && p[i].options == questions[i].options
              && 0 <= p[i].correctIndex < |p[i].options| == 4
              && SelectValues[p[i].correctIndex] == questions[i].correctIndex
  {
    if questions != [] {
      PayloadFaithful(questions[1..]);
      var p := Payload(questions);
      assert p[1..] == Payload(questions[1..]);
      forall i | 0 <= i < |p|
        ensures p[i].q == questions[i].question && p[i].options == questions[i].options
        ensures 0 <= p[i].correctIndex < |p[i].options| == 4
        ensures SelectValues[p[i].correctIndex] == questions[i].correctIndex
      {
        if i > 0 {
          assert p[i] == p[1..][i - 1] && questions[i] == questions[1..][i - 1];
        }
      }
    }
  }

  /** The form's state. */
  class TestForm {
    var title: string
    var questions: seq<FormQuestion>

    /** At least one question, each with four options and a select value. */
    ghost predicate Valid()
      reads this
    {
      |questions| >= 1 && forall i :: 0 <= i < |questions| ==> WellFormed(questions[i])
    }

    /** The initial state: an empty title and one blank question. */
    constructor ()
      ensures Valid() && title == "" && questions == [Blank]
    {
      title := "";
      questions := [Blank];
    }

    /** The title input. */
    method SetTitle(value: string)
      requires Valid()
      modifies this
      ensures Valid() && title == value && questions == old(questions)
    {
      title := value;
    }

    /** `handleAddQuestion`: one blank question is appended; the others are
        unchanged. */
    method AddQuestion()
      requires Valid()
      modifies this
      ensures Valid() && title == old(title)
      ensures questions == old(questions) + [Blank]
    {
      questions := questions + [Blank];
    }

    /** `handleRemoveQuestion`: the "Remove" button is only shown while there
        is more than one question, so the list never becomes empty. Exactly the
        question at `index` goes and the others keep their order. */
    method RemoveQuestion(index: int)
      requires Valid() && |questions| > 1 && 0 <= index < |questions|
      modifies this
      ensures Valid() && title == old(title)
      ensures |questions| == |old(questions)| - 1
      ensures questions == old(questions)[..index] + old(questions)[index + 1..]
    {
      questions := Without(questions, index);
      assert forall i :: 0 <= i < |questions| ==>
        questions[i] == if i < index then old(questions)[i] else old(questions)[i + 1];
    }

    /** `handleQuestionChange`: the question text, or the select's value, of
        question `qIndex` is replaced; nothing else changes. */
    method QuestionChange(qIndex: int, field: Field, value: string)
      requires Valid() && 0 <= qIndex < |questions|
      requires field == CorrectIndex ==> IsSelectValue(value)
      modifies this
      ensures Valid() && title == old(title) && |questions| == |old(questions)|
      ensures forall i :: 0 <= i < |questions| && i != qIndex ==> questions[i] == old(questions)[i]
      ensures questions[qIndex] == match field
        case QuestionText => old(questions)[qIndex].(question := value)
        case CorrectIndex => old(questions)[qIndex].(correctIndex := value)
    {
      var q := questions[qIndex];
      var updated := match field
        case QuestionText => q.(question := value)
        case CorrectIndex => q.(correctIndex := value);
      questions := questions[qIndex := updated];
    }

    /** `handleOptionChange`: option `optIndex` of question `qIndex` is
        replaced; the other options and questions are unchanged. */
    method OptionChange(qIndex: int, optIndex: int, value: string)
      requires Valid() && 0 <= qIndex < |questions| && 0 <= optIndex < 4
      modifies this
      ensures Valid() && title == old(title) && |questions| == |old(questions)|
      ensures forall i :: 0 <= i < |questions| && i != qIndex ==> questions[i] == old(questions)[i]
      ensures questions[qIndex].question == old(questions)[qIndex].question
      ensures questions[qIndex].correctIndex == old(questions)[qIndex].correctIndex
      ensures questions[qIndex].options == old(questions)[qIndex].options[optIndex := value]
    {
      var q := questions[qIndex];
      questions := questions[qIndex := q.(options := q.options[optIndex := value])];
    }

    /** The request body's `questions` for the current form. */
    function Request(): (p: seq<Scoring.Question>)
      requires Valid()
      reads this
      ensures |p| == |questions| >= 1
      ensures forall i :: 0 <= i < |p| ==> 0 <= p[i].correctIndex < |p[i].options| == 4
    {
      PayloadFaithful(questions);
      Payload(questions)
    }

    /** After a successful create the form goes back to its initial state. */
    method Reset()
      modifies this
      ensures Valid() && title == "" && questions == [Blank]
    {
      title := "";
      questions := [Blank];
    }
  }

  /** An author fills in a one-question test, adds a second question, removes
      the first and sees the second as the only one left. */
  method AuthorScenario()
  {
    var form := new TestForm();
    form.SetTitle("Kinematics");
    form.QuestionChange(0, QuestionText, "Unit of force?");
    form.OptionChange(0, 0, "Joule");
    form.OptionChange(0, 1, "Newton");
    form.QuestionChange(0, CorrectIndex, "1");
    form.AddQuestion();
    assert |form.questions| == 2;
    form.RemoveQuestion(0);
    assert form.questions == [Blank];
    var p := form.Request();
    assert p == [Scoring.Question("", ["", "", "", ""], 0)];
  }
}
