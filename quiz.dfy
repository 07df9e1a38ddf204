/**
 * The quiz handlers: starting a quiz and answering a question. The session
 * attributes of the conversation are the fields of `QuizSession`; the
 * learner's spaced-repetition state and the persistence manager are the
 * objects the handlers obtain for the request, passed in here.
 */
module Quiz {
  import opened Wrappers
  import opened Text
  import opened Models
  import opened MathQuestions
  import opened Srs
  import opened Persistence
  import opened Helpers

  /** `MAX_QUESTIONS`: the questions of one quiz. */
  const MaxQuestions: int := 10

  /** `max_attempts`: how often the answer handler redraws a question already asked. */
  const MaxRedraws: nat := 10

  /** The conversation states `STATE_NONE`, `STATE_ASK_PLAYER`, `STATE_SETUP_GRADE`, `STATE_QUIZ`. */
  datatype State = StateNone | StateAskPlayer | StateSetupGrade | StateQuiz

  /** The number slot read as `int(value) if value else None`: nothing when absent, empty or not an integer. */
  function ParseAnswer(slot: Option<string>): Option<int> {
    if slot.Some? && slot.value != "" then ParseInt(slot.value) else None
  }

  /** Every integer said as its decimal text is understood, and a missing or empty slot is not. */
  lemma ParseAnswerSpec(n: int)
    ensures ParseAnswer(Some(IntToString(n))) == Some(n)
    ensures ParseAnswer(None) == None && ParseAnswer(Some("")) == None
  {
    ParseIntToString(n);
  }

  /** The questions successive `get_next_question` calls return, one per element of `draws`. */
  function Drawn(srs: SpacedRepetition, draws: seq<NextDraws>, now: Instant): (r: seq<Result<MathQuestion, GenerationError>>)
    reads srs
    requires srs.Valid() && forall j :: 0 <= j < |draws| ==> NextDrawsFor(srs.grade, draws[j])
    ensures |r| == |draws|
  {
    if |draws| == 0 then []
    else [srs.NextQuestion(draws[0], now)] + Drawn(srs, draws[1..], now)
  }

  /** Element `j` of the drawn questions is what the `j`-th call returns. */
  lemma {:induction false} DrawnAt(srs: SpacedRepetition, draws: seq<NextDraws>, now: Instant, j: int)
    requires srs.Valid() && forall j :: 0 <= j < |draws| ==> NextDrawsFor(srs.grade, draws[j])
    requires 0 <= j < |draws|
    ensures Drawn(srs, draws, now)[j] == srs.NextQuestion(draws[j], now)
    decreases j
  {
    if j > 0 {
      DrawnAt(srs, draws[1..], now, j - 1);
    }
  }

  /**
   * The question the answer handler settles on, from draw `attempt` on: a
   * question already asked in this quiz is drawn again while draws remain.
   */
  function Redrawn(outcomes: seq<Result<MathQuestion, GenerationError>>, asked: seq<string>, attempt: nat): Result<MathQuestion, GenerationError>
    requires attempt < |outcomes|
    decreases |outcomes| - attempt
  {
    var r := outcomes[attempt];
    if r.Success? && r.value.questionId in asked && attempt < |outcomes| - 1 then Redrawn(outcomes, asked, attempt + 1)
    else r
  }

  /** The settled question is one of the draws from `attempt` on. */
  lemma {:induction false} RedrawnIsDrawn(outcomes: seq<Result<MathQuestion, GenerationError>>, asked: seq<string>, attempt: nat)
    requires attempt < |outcomes|
    ensures exists j :: attempt <= j < |outcomes| && Redrawn(outcomes, asked, attempt) == outcomes[j]
    decreases |outcomes| - attempt
  {
    var r := outcomes[attempt];
    if r.Success? && r.value.questionId in asked && attempt < |outcomes| - 1 {
      RedrawnIsDrawn(outcomes, asked, attempt + 1);
    }
  }

  /** The settled question repeats one of the quiz only when every draw from `attempt` on did. */
  lemma {:induction false} RedrawnRepeats(outcomes: seq<Result<MathQuestion, GenerationError>>, asked: seq<string>, attempt: nat)
    requires attempt < |outcomes|
    ensures var r := Redrawn(outcomes, asked, attempt);
      r.Success? && r.value.questionId in asked ==>
        forall j :: attempt <= j < |outcomes| ==> outcomes[j].Success? && outcomes[j].value.questionId in asked
    decreases |outcomes| - attempt
  {
    var r := outcomes[attempt];
    if r.Success? && r.value.questionId in asked && attempt < |outcomes| - 1 {
      RedrawnRepeats(outcomes, asked, attempt + 1);
    }
  }

  /** The redraw loop of `AnswerIntentHandler.handle`, one element of `draws` per `get_next_question` call. */
  method Redraw(srs: SpacedRepetition, asked: seq<string>, draws: seq<NextDraws>, now: Instant) returns (next: Result<MathQuestion, GenerationError>)
    requires srs.Valid()
    requires |draws| == MaxRedraws + 1 && forall j :: 0 <= j < |draws| ==> NextDrawsFor(srs.grade, draws[j])
    ensures next == Redrawn(Drawn(srs, draws, now), asked, 0)
  {
    ghost var outcomes := Drawn(srs, draws, now);
    next := srs.GetNextQuestion(draws[0], now);
    DrawnAt(srs, draws, now, 0);
    var attempts := 0;
    while next.Success? && next.value.questionId in asked && attempts < MaxRedraws
      invariant 0 <= attempts <= MaxRedraws
      invariant next == outcomes[attempts]
      invariant Redrawn(outcomes, asked, attempts) == Redrawn(outcomes, asked, 0)
    {
      next := srs.GetNextQuestion(draws[attempts + 1], now);
      DrawnAt(srs, draws, now, attempts + 1);
      attempts := attempts + 1;
    }
  }

  /**
   * `record_answer`, `save_srs_state` and `update_session_stats` of the
   * answer handler, each write committed; a session-statistics counter that
   * is not an integer stops it after the SRS state is saved.
   */
  method StoreAnswer(srs: SpacedRepetition, pm: PersistenceManager, id: string, correct: bool, now: Instant)
    returns (failure: Option<DecodeError>)
    requires srs.Valid() && pm.Valid()
    modifies srs, pm
    ensures srs.Valid() && pm.Valid()
    ensures srs.stats == old(srs.stats)[id := Answered(Lookup(old(srs.stats), id), correct, now)]
    ensures srs.recent == PushRecent(old(srs.recent), id)
    ensures srs.sessionAsked == old(srs.sessionAsked) + {id}
    ensures srs.grade == old(srs.grade)
    ensures pm.playerName == old(pm.playerName)
  {
    srs.RecordAnswer(id, correct, now);
    pm.SaveQuestionStats(srs.stats);
    pm.Commit();
    var updated := pm.UpdateSessionStats(1, if correct then 1 else 0, !correct, now);
    if updated.Failure? {
      return Some(updated.error);
    }
    pm.Commit();
    failure := None;
  }

  /** What answering did, as the handler's speech would tell it. */
  datatype AnswerOutcome =
    | NotUnderstood
    | StatsFailed(cause: DecodeError)
    | Finished(correct: bool, verdict: EndCategory)
    | Asked(correct: bool, next: MathQuestion)
    | Failed(error: GenerationError)

  /** The session attributes the quiz handlers read and write. */
  class QuizSession {
    var state: State
    var currentQuestion: Option<SerializedQuestion>
    var questionsAsked: int
    var correctCount: int
    var sessionQuestions: seq<string>

    /**
     * A running quiz has a current question, has asked between one and
     * `MaxQuestions` questions, each recorded once, and has fewer right
     * answers than questions asked, the current one being unanswered.
     */
    ghost predicate Valid()
      reads this
    {
      state == StateQuiz ==>
        && currentQuestion.Some?
        && 1 <= questionsAsked <= MaxQuestions
        && 0 <= correctCount < questionsAsked
        && |sessionQuestions| == questionsAsked
    }

    /** Session attributes of a new conversation: every key absent, read with its default. */
    constructor ()
      ensures Valid()
      ensures state == StateNone && currentQuestion == None
      ensures questionsAsked == 0 && correctCount == 0 && sessionQuestions == []
    {
      state := StateNone;
      currentQuestion := None;
      questionsAsked := 0;
      correctCount := 0;
      sessionQuestions := [];
    }

    /** `QuizHandler.handle`: forgets the SRS session, then asks the first question. */
    method Start(srs: SpacedRepetition, d: NextDraws, now: Instant) returns (r: Result<MathQuestion, GenerationError>)
      requires srs.Valid() && NextDrawsFor(srs.grade, d)
      modifies this, srs
      ensures srs.Valid() && srs.recent == [] && srs.sessionAsked == {}
      ensures srs.stats == old(srs.stats) && srs.order == old(srs.order) && srs.grade == old(srs.grade)
      ensures r == srs.NextQuestion(d, now)
      ensures r.Success? ==>
        && state == StateQuiz && currentQuestion == Some(Serialize(r.value))
        && questionsAsked == 1 && correctCount == 0 && sessionQuestions == [r.value.questionId]
        && Valid()
      ensures r.Failure? ==> unchanged(this)
    {
      srs.ResetSession();
      r := srs.GetNextQuestion(d, now);
      if r.Success? {
        Begin(r.value);
      }
    }

    /** The session attributes a new quiz starts from, asking `q` first. */
    method Begin(q: MathQuestion)
      modifies this
      ensures state == StateQuiz && currentQuestion == Some(Serialize(q))
      ensures questionsAsked == 1 && correctCount == 0 && sessionQuestions == [q.questionId]
      ensures Valid()
    {
      state := StateQuiz;
      currentQuestion := Some(Serialize(q));
      questionsAsked := 1;
      correctCount := 0;
      sessionQuestions := [q.questionId];
    }

    /**
     * `AnswerIntentHandler.handle` for the number `slot`: records the answer
     * in the SRS and the stored statistics, then ends the quiz after
     * `MaxQuestions` questions or asks a question not yet asked in it.
     */
    method Answer(srs: SpacedRepetition, pm: PersistenceManager, slot: Option<string>, draws: seq<NextDraws>, now: Instant)
      returns (outcome: AnswerOutcome)
      requires state == StateQuiz && currentQuestion.Some?
      requires srs.Valid() && pm.Valid()
      requires |draws| == MaxRedraws + 1 && forall j :: 0 <= j < |draws| ==> NextDrawsFor(srs.grade, draws[j])
      modifies this, srs, pm
      ensures ParseAnswer(slot).None? ==> outcome == NotUnderstood && unchanged(this) && unchanged(srs) && unchanged(pm)
      ensures ParseAnswer(slot).Some? ==>
        var id := old(currentQuestion.value.questionId);
        var correct := ParseAnswer(slot).value == old(currentQuestion.value.correctAnswer);
        && srs.Valid() && pm.Valid()
        && srs.stats == old(srs.stats)[id := Answered(Lookup(old(srs.stats), id), correct, now)]
        && srs.recent == PushRecent(old(srs.recent), id)
        && srs.sessionAsked == old(srs.sessionAsked) + {id}
        && srs.grade == old(srs.grade)
        && (outcome.StatsFailed? ==> unchanged(this))
        && (!outcome.StatsFailed? ==> correctCount == old(correctCount) + (if correct then 1 else 0))
        && (!outcome.StatsFailed? && old(questionsAsked) >= MaxQuestions ==>
              && outcome == Finished(correct, QuizEndCategory(correctCount, questionsAsked))
              && state == StateNone && questionsAsked == old(questionsAsked)
              && sessionQuestions == old(sessionQuestions) && currentQuestion == old(currentQuestion))
        && (!outcome.StatsFailed? && old(questionsAsked) < MaxQuestions ==>
              var next := Redrawn(Drawn(srs, draws, now), old(sessionQuestions), 0);
              && state == StateQuiz
              && (next.Failure? ==>
                    && outcome == Failed(next.error) && questionsAsked == old(questionsAsked)
                    && sessionQuestions == old(sessionQuestions) && currentQuestion == old(currentQuestion))
              && (next.Success? ==>
                    && outcome == Asked(correct, next.value) && questionsAsked == old(questionsAsked) + 1
                    && sessionQuestions == old(sessionQuestions) + [next.value.questionId]
                    && currentQuestion == Some(Serialize(next.value))))
      ensures old(Valid()) && !outcome.Failed? ==> Valid()
    {
      var answer := ParseAnswer(slot);
      if answer.None? {
        return NotUnderstood;
      }
      var id := currentQuestion.value.questionId;
      var correct := answer.value == currentQuestion.value.correctAnswer;
      var failure := StoreAnswer(srs, pm, id, correct, now);
      if failure.Some? {
        return StatsFailed(failure.value);
      }
      outcome := Advance(srs, correct, draws, now);
    }

    /** The rest of the answer handler once the answer is stored: count it, then end or ask on. */
    method Advance(srs: SpacedRepetition, correct: bool, draws: seq<NextDraws>, now: Instant) returns (outcome: AnswerOutcome)
      requires srs.Valid()
      requires |draws| == MaxRedraws + 1 && forall j :: 0 <= j < |draws| ==> NextDrawsFor(srs.grade, draws[j])
      modifies this
      ensures correctCount == old(correctCount) + (if correct then 1 else 0)
      ensures old(questionsAsked) >= MaxQuestions ==>
        && outcome == Finished(correct, QuizEndCategory(correctCount, questionsAsked))
        && state == StateNone && questionsAsked == old(questionsAsked)
        && sessionQuestions == old(sessionQuestions) && currentQuestion == old(currentQuestion)
      ensures old(questionsAsked) < MaxQuestions ==>
        var next := Redrawn(Drawn(srs, draws, now), old(sessionQuestions), 0);
        && state == old(state)
        && (next.Failure? ==>
              && outcome == Failed(next.error) && questionsAsked == old(questionsAsked)
              && sessionQuestions == old(sessionQuestions) && currentQuestion == old(currentQuestion))
        && (next.Success? ==>
              && outcome == Asked(correct, next.value) && questionsAsked == old(questionsAsked) + 1
              && sessionQuestions == old(sessionQuestions) + [next.value.questionId]
              && currentQuestion == Some(Serialize(next.value)))
      ensures old(Valid()) && old(state) == StateQuiz && !outcome.Failed? ==> Valid()
    {
      if correct {
        correctCount := correctCount + 1;
      }
      if questionsAsked >= MaxQuestions {
        state := StateNone;
        outcome := Finished(correct, QuizEndCategory(correctCount, questionsAsked));
      } else {
        var next := Redraw(srs, sessionQuestions, draws, now);
        if next.Success? {
          currentQuestion := Some(Serialize(next.value));
          questionsAsked := questionsAsked + 1;
          sessionQuestions := sessionQuestions + [next.value.questionId];
          outcome := Asked(correct, next.value);
        } else {
          outcome := Failed(next.error);
        }
      }
    }
  }
}
