/** The quiz session: the shared `state.answers` and `state.currentIndex`, the
    progress item in local storage, and the handlers that change them. */
module Session {
  import opened QuizData
  import opened Progress
  import opened Scoring
  import opened Persona

  /** What pressing Next did. */
  datatype NextOutcome =
    | Refused   // the current question is unanswered: nothing happens
    | ToReview  // the last question is answered: the review list is shown
    | Advanced  // the cursor moved to the next question

  /** What pressing "Show results" did. */
  datatype ResultsOutcome =
    | Redirect(index: int)                                 // an unanswered question is shown instead
    | Show(results: seq<AxisResult>, persona: PersonaResult)

  /** Every slot is answered (`!answers.includes(null)`). */
  predicate AllAnswered(answers: seq<Answer>) {
    forall i :: 0 <= i < |answers| ==> answers[i].Some?
  }

  /** `new Array(n).fill(null)`. */
  function Unanswered(n: nat): (answers: seq<Answer>)
    ensures |answers| == n && !HasAnyAnswer(answers) && ValidAnswers(answers)
  {
    seq(n, _ => None)
  }

  class QuizSession {
    /** The question bank, loaded once. */
    const bank: Bank
    /** `state.answers`: one slot per question. */
    var answers: seq<Answer>
    /** `state.currentIndex`. */
    var cursor: int
    /** The item stored under the progress key, if any. */
    var stored: Option<Blob>

    /** The session invariant: one valid slot per question and a cursor on a question. */
    ghost predicate Valid()
      reads this
    {
      && WellFormed(bank)
      && |answers| == |bank.questions|
      && ValidAnswers(answers)
      && 0 <= cursor < |answers|
    }

    /** Storage holds exactly what `saveProgress` writes for the current state. */
    ghost predicate Mirrored()
      reads this
    {
      stored == Some(Encode(answers, cursor))
    }

    /** The state `init` sets up once the bank is loaded, before `loadProgress`;
        `storage` is whatever the browser already holds under the key. */
    constructor (bank: Bank, storage: Option<Blob>)
      requires WellFormed(bank)
      ensures Valid()
      ensures this.bank == bank && answers == Unanswered(|bank.questions|) && cursor == 0
      ensures stored == storage
    {
      this.bank := bank;
      answers := Unanswered(|bank.questions|);
      cursor := 0;
      stored := storage;
    }

    /** `saveProgress`. */
    method SaveProgress()
      modifies this
      ensures Mirrored()
      ensures answers == old(answers) && cursor == old(cursor)
    {
      stored := Some(Encode(answers, cursor));
    }

    /** `loadProgress`: restores a usable snapshot, sanitised, and reports
        whether it holds any answer. An unusable item leaves the state alone. */
    method LoadProgress() returns (resumable: bool)
      requires Valid()
      modifies this
      ensures Valid() && stored == old(stored)
      ensures !Usable(old(stored), |bank.questions|) ==>
        answers == old(answers) && cursor == old(cursor) && !resumable
      ensures Usable(old(stored), |bank.questions|) ==>
        && answers == Sanitize(old(stored).value.answers.slots)
        && cursor == ClampCursor(old(stored).value.currentIndex, |bank.questions|)
        && resumable == HasAnyAnswer(answers)
    {
      if stored.None? || stored.value.Unparsable? {
        return false;
      }
      var saved := stored.value;
      if saved.answers.NotAList? || |saved.answers.slots| != |bank.questions| {
        return false;
      }
      answers := Sanitize(saved.answers.slots);
      cursor := ClampCursor(saved.currentIndex, |bank.questions|);
      resumable := HasAnyAnswer(answers);
    }

    /** `clearProgress`; also what Start over (once confirmed) and Retake do. */
    method ClearProgress()
      requires Valid()
      modifies this
      ensures Valid()
      ensures answers == Unanswered(|bank.questions|) && cursor == 0 && stored == None
    {
      answers := Unanswered(|bank.questions|);
      cursor := 0;
      stored := None;
    }

    /** The Start over handler; `confirmed` is the user's answer to the
        confirmation dialog. Declining changes nothing. */
    method StartOver(confirmed: bool)
      requires Valid()
      modifies this
      ensures Valid()
      ensures confirmed ==> answers == Unanswered(|bank.questions|) && cursor == 0 && stored == None
      ensures !confirmed ==> answers == old(answers) && cursor == old(cursor) && stored == old(stored)
    {
      if confirmed {
        ClearProgress();
      }
    }

    /** The change listener of an answer option: records its value in the current slot. */
    method Choose(option: LikertOption)
      requires Valid() && option in bank.likert
      modifies this
      ensures Valid() && Mirrored()
      ensures answers == old(answers)[old(cursor) := Some(option.value)] && cursor == old(cursor)
    {
      answers := answers[cursor := Some(option.value)];
      SaveProgress();
    }

    /** `startQuiz`, which is also the Resume handler: go to the first unanswered question. */
    method StartQuiz()
      requires Valid()
      modifies this
      ensures Valid() && Mirrored()
      ensures answers == old(answers) && cursor == FirstUnansweredIndex(answers)
    {
      cursor := FirstUnansweredIndex(answers);
      SaveProgress();
    }

    /** The Start handler: a session without any answer is cleared first, then started. */
    method Start()
      requires Valid()
      modifies this
      ensures Valid() && Mirrored()
      ensures answers == old(answers) && cursor == FirstUnansweredIndex(answers)
      ensures !HasAnyAnswer(old(answers)) ==> cursor == 0
    {
      if !HasAnyAnswer(answers) {
        NoAnswerIsUnanswered(answers);
        ClearProgress();
      }
      StartQuiz();
    }

    /** The Back handler: one question back, unless at the first. */
    method Back()
      requires Valid()
      modifies this
      ensures Valid() && answers == old(answers)
      ensures old(cursor) > 0 ==> cursor == old(cursor) - 1 && Mirrored()
      ensures old(cursor) == 0 ==> cursor == 0 && stored == old(stored)
    {
      if cursor > 0 {
        cursor := cursor - 1;
        SaveProgress();
      }
    }

    /** The Next handler: refused on an unanswered question, the review list
        after the last question, otherwise one question forward. */
    method Next() returns (outcome: NextOutcome)
      requires Valid()
      modifies this
      ensures Valid() && answers == old(answers)
      ensures outcome == Refused <==> old(answers)[old(cursor)].None?
      ensures outcome == ToReview <==> old(answers)[old(cursor)].Some? && old(cursor) == |answers| - 1
      ensures outcome != Advanced ==> cursor == old(cursor) && stored == old(stored)
      ensures outcome == Advanced ==> cursor == old(cursor) + 1 && Mirrored()
    {
      if answers[cursor].None? {
        return Refused;
      }
      if cursor == |bank.questions| - 1 {
        return ToReview;
      }
      cursor := cursor + 1;
      SaveProgress();
      outcome := Advanced;
    }

    /** The Edit button of review entry `index`. */
    method EditQuestion(index: int)
      requires Valid() && 0 <= index < |bank.questions|
      modifies this
      ensures Valid() && Mirrored()
      ensures answers == old(answers) && cursor == index
    {
      cursor := index;
      SaveProgress();
    }

    /** The Back button of the review list: to the first unanswered question,
        without saving. */
    method ReviewBack()
      requires Valid()
      modifies this
      ensures Valid()
      ensures answers == old(answers) && cursor == FirstUnansweredIndex(answers) && stored == old(stored)
    {
      cursor := FirstUnansweredIndex(answers);
    }

    /** The "Show results" handler: with an unanswered question, move there
        (without saving); otherwise score the answers and derive the persona. */
    method ShowResults() returns (outcome: ResultsOutcome)
      requires Valid()
      modifies this
      ensures Valid() && answers == old(answers) && stored == old(stored)
      ensures !AllAnswered(answers) ==>
        outcome == Redirect(FirstUnansweredIndex(answers)) && cursor == outcome.index
      ensures AllAnswered(answers) ==> (cursor == old(cursor)
        && |Scores(bank, answers)| > 0
        && outcome == Show(Scores(bank, answers), GeneratePersona(Scores(bank, answers))))
    {
      var missing := FirstUnansweredIndex(answers);
      if !AllAnswered(answers) {
        cursor := missing;
        return Redirect(missing);
      }
      var results := CalculateResults(bank, answers);
      WellFormedHasAxes(bank);
      outcome := Show(results, GeneratePersona(results));
    }
  }

  /** A session without any answer has every slot unanswered, so clearing it
      changes no slot. */
  lemma NoAnswerIsUnanswered(answers: seq<Answer>)
    requires !HasAnyAnswer(answers)
    ensures answers == Unanswered(|answers|)
  {
  }
}
