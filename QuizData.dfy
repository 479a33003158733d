/** The question bank (axes, questions, the five-point answer scale) and the
    answer set kept by a quiz session. The bank is loaded once and never changes. */
module QuizData {

  datatype Option<+T> = None | Some(value: T)

  /** An ideological dimension. `caption` is the source's `label` (a Dafny keyword),
      usually "<high side> vs <low side>". */
  datatype Axis = Axis(id: string, caption: string, highMeans: string, lowMeans: string)

  /** A statement answered on the Likert scale, scored on the axis whose id is `axis`;
      `reverse` questions are scored with the scale turned around. */
  datatype Question = Question(text: string, axis: string, reverse: bool)

  /** One radio button of the answer scale. */
  datatype LikertOption = LikertOption(value: int, caption: string)

  datatype Bank = Bank(likert: seq<LikertOption>, axes: seq<Axis>, questions: seq<Question>)

  /** An answer slot: unanswered, or a Likert value. */
  type Answer = Option<int>

  /** A recorded answer is an integer from 1 to 5. */
  predicate ValidAnswer(a: Answer) {
    a.Some? ==> 1 <= a.value <= 5
  }

  predicate ValidAnswers(answers: seq<Answer>) {
    forall i :: 0 <= i < |answers| ==> ValidAnswer(answers[i])
  }

  /** `axisIndex[id]` after the table is filled in axis order: the LAST axis
      with that id, or -1 when no axis has it. */
  function AxisIndexOf(axes: seq<Axis>, id: string): (r: int)
    ensures -1 <= r < |axes|
    ensures r == -1 <==> forall j :: 0 <= j < |axes| ==> axes[j].id != id
    ensures r >= 0 ==> axes[r].id == id && forall j :: r < j < |axes| ==> axes[j].id != id
  {
    if |axes| == 0 then -1
    else if axes[|axes| - 1].id == id then |axes| - 1
    else AxisIndexOf(axes[..|axes| - 1], id)
  }

  /** Every question names an existing axis, so `axisIndex[question.axis]` is defined. */
  predicate AxesResolved(bank: Bank) {
    forall i :: 0 <= i < |bank.questions| ==> AxisIndexOf(bank.axes, bank.questions[i].axis) >= 0
  }

  /** What the quiz code takes for granted of the bank it loads: at least one
      question, every question names an existing axis, every option is a value 1..5. */
  predicate WellFormed(bank: Bank) {
    && |bank.questions| > 0
    && AxesResolved(bank)
    && (forall o :: o in bank.likert ==> 1 <= o.value <= 5)
  }

  /** A well-formed bank has at least one axis, so its results list is never empty. */
  lemma WellFormedHasAxes(bank: Bank)
    requires WellFormed(bank)
    ensures |bank.axes| > 0
  {
    assert AxisIndexOf(bank.axes, bank.questions[0].axis) >= 0;
  }
}
