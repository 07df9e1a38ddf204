/**
 * The difficulty handler: the new grade chosen from the `grade` and
 * `direction` slots, stored in the profile when it changed, and, during a
 * quiz, the next question drawn at the new grade.
 */
module Settings {
  import opened Wrappers
  import opened Text
  import opened Models
  import opened MathQuestions
  import opened Srs
  import opened PlayerNames
  import opened Persistence
  import opened Helpers
  import opened Quiz

  /** The directions that ask for an easier grade. */
  const EasierWords: seq<string> := ["leichter", "einfacher", "leicht"]

  /** The directions that ask for a harder grade. */
  const HarderWords: seq<string> := ["schwerer", "schwieriger", "schwer"]

  /** A slot value Python treats as true: present and not the empty string. */
  predicate Given(slot: Option<string>) {
    slot.Some? && slot.value != ""
  }

  /**
   * The grade `SetDifficultyHandler.handle` settles on: a given grade slot
   * decides alone (an integer in 1..4, else the current grade); otherwise a
   * known direction moves one grade, never below 1 or above 4.
   */
  function NewGrade(current: int, gradeSlot: Option<string>, directionSlot: Option<string>): int {
    if Given(gradeSlot) then
      match ParseInt(gradeSlot.value)
      case Some(g) => if 1 <= g <= 4 then g else current
      case None => current
    else if Given(directionSlot) then
      var direction := Lower(directionSlot.value);
      if direction in EasierWords then (if current - 1 >= 1 then current - 1 else 1)
      else if direction in HarderWords then (if current + 1 <= 4 then current + 1 else 4)
      else current
    else current
  }

  /** Starting from a grade in 1..4, every request ends in 1..4. */
  lemma NewGradeInRange(current: int, gradeSlot: Option<string>, directionSlot: Option<string>)
    requires 1 <= current <= 4
    ensures 1 <= NewGrade(current, gradeSlot, directionSlot) <= 4
  {
  }

  /** Saying a grade from 1 to 4 selects it, whatever the current grade and the direction. */
  lemma ExplicitGrade(current: int, n: int, directionSlot: Option<string>)
    requires 1 <= n <= 4
    ensures NewGrade(current, Some(IntToString(n)), directionSlot) == n
  {
    ParseIntToString(n);
  }

  /** A grade value that is not an integer, or is outside 1..4, keeps the current grade. */
  lemma InvalidGradeKeepsCurrent(current: int, gradeSlot: Option<string>, directionSlot: Option<string>)
    requires Given(gradeSlot)
    requires ParseInt(gradeSlot.value).None? || !(1 <= ParseInt(gradeSlot.value).value <= 4)
    ensures NewGrade(current, gradeSlot, directionSlot) == current
  {
  }

  /** A given grade slot takes precedence: the direction slot is then ignored. */
  lemma GradeSlotTakesPrecedence(current: int, gradeSlot: Option<string>, d1: Option<string>, d2: Option<string>)
    requires Given(gradeSlot)
    ensures NewGrade(current, gradeSlot, d1) == NewGrade(current, gradeSlot, d2)
  {
  }

  /**
   * Without a grade slot, "easier" lowers the grade by one and "harder"
   * raises it by one, stopping at 1 and 4; any other direction keeps it.
   */
  lemma DirectionSteps(current: int, direction: string)
    requires 1 <= current <= 4
    ensures Lower(direction) in EasierWords ==>
      NewGrade(current, None, Some(direction)) == if current == 1 then 1 else current - 1
    ensures Lower(direction) in HarderWords ==>
      NewGrade(current, None, Some(direction)) == if current == 4 then 4 else current + 1
    ensures Lower(direction) !in EasierWords && Lower(direction) !in HarderWords ==>
      NewGrade(current, None, Some(direction)) == current
  {
    if direction == "" {
      assert Lower(direction) == "";
    }
  }

  /** An easier request never raises the grade and a harder one never lowers it. */
  lemma DirectionMonotone(current: int, direction: string)
    requires 1 <= current <= 4
    ensures Lower(direction) in EasierWords ==> NewGrade(current, None, Some(direction)) <= current
    ensures Lower(direction) in HarderWords ==> NewGrade(current, None, Some(direction)) >= current
  {
    DirectionSteps(current, direction);
  }

  /** The direction is matched without regard to letter case. */
  lemma DirectionIgnoresCase(current: int, direction: string)
    ensures NewGrade(current, None, Some(direction)) == NewGrade(current, None, Some(Lower(direction)))
  {
    LowerIsLowerCase(direction);
    LowerOfLower(Lower(direction));
  }

  /** Why the handler raised instead of answering. */
  datatype SettingsError = ProfileError(cause: DecodeError) | QuestionError(error: GenerationError)

  /**
   * `SetDifficultyHandler.handle`: reads the profile, stores the new grade
   * when it differs (saving and committing), and during a quiz draws the next
   * question at the new grade into the session. `srs` is the object
   * `get_srs_from_session` builds; it is used only during a quiz.
   */
  method SetDifficulty(
    session: QuizSession, pm: PersistenceManager, srs: SpacedRepetition,
    gradeSlot: Option<string>, directionSlot: Option<string>, d: NextDraws, now: Instant)
    returns (r: Result<int, SettingsError>)
    requires pm.Valid() && srs.Valid()
    requires var p := ProfileIn(pm.CurrentData(), pm.userId, pm.playerName, now);
      session.state == StateQuiz && p.Success? ==> NextDrawsFor(NewGrade(p.value.grade, gradeSlot, directionSlot), d)
    modifies session, pm, srs
    ensures pm.Valid() && srs.Valid()
    ensures pm.playerName == old(pm.playerName) && pm.session == old(pm.session)
    ensures var p := ProfileIn(old(pm.CurrentData()), pm.userId, pm.playerName, now);
      p.Failure? ==>
        && r == Failure(ProfileError(p.error))
        && pm.saved == old(pm.saved) && pm.Loaded() == old(pm.Loaded())
        && unchanged(session) && unchanged(srs)
    ensures var p := ProfileIn(old(pm.CurrentData()), pm.userId, pm.playerName, now);
      p.Success? ==>
        var g := NewGrade(p.value.grade, gradeSlot, directionSlot);
        && (g == p.value.grade ==> pm.saved == old(pm.saved) && pm.Loaded() == old(pm.Loaded()))
        && (g != p.value.grade && pm.HasPlayer() ==>
              pm.saved == old(pm.Stored(pm.CurrentData()[UserProfileKey := VDict(ProfileToDict(p.value.(grade := g)))]))
              && !pm.dirty)
        && (old(session.state) != StateQuiz ==> r == Success(g) && unchanged(session) && unchanged(srs))
        && (old(session.state) == StateQuiz ==>
              && srs.grade == g
              && srs.stats == old(srs.stats) && srs.recent == old(srs.recent) && srs.sessionAsked == old(srs.sessionAsked)
              && session.state == old(session.state) && session.questionsAsked == old(session.questionsAsked)
              && session.correctCount == old(session.correctCount) && session.sessionQuestions == old(session.sessionQuestions)
              && var next := srs.NextQuestion(d, now);
                 && (next.Success? ==> r == Success(g) && session.currentQuestion == Some(Serialize(next.value)))
                 && (next.Failure? ==> r == Failure(QuestionError(next.error)) && session.currentQuestion == old(session.currentQuestion)))
    ensures old(session.Valid()) ==> session.Valid()
  {
    var profile := pm.GetUserProfile(now);
    if profile.Failure? {
      return Failure(ProfileError(profile.error));
    }
    var current := profile.value.grade;
    var newGrade := NewGrade(current, gradeSlot, directionSlot);
    if newGrade != current {
      StoreGrade(pm, profile.value, newGrade);
    }
    if session.state == StateQuiz {
      r := ContinueQuiz(session, srs, newGrade, d, now);
    } else {
      r := Success(newGrade);
    }
  }

  /** `settings.py` lines 65-68: the profile with its new grade is saved and committed. */
  method StoreGrade(pm: PersistenceManager, profile: UserProfile, newGrade: int)
    requires pm.Valid()
    modifies pm
    ensures pm.Valid()
    ensures pm.playerName == old(pm.playerName) && pm.session == old(pm.session)
    ensures pm.HasPlayer() ==>
      pm.saved == old(pm.Stored(pm.CurrentData()[UserProfileKey := VDict(ProfileToDict(profile.(grade := newGrade)))]))
      && !pm.dirty
  {
    pm.SaveUserProfile(profile.(grade := newGrade));
    pm.Commit();
  }

  /** `settings.py` lines 86-91: during a quiz the SRS moves to the new grade and the next question replaces the current one. */
  method ContinueQuiz(session: QuizSession, srs: SpacedRepetition, newGrade: int, d: NextDraws, now: Instant)
    returns (r: Result<int, SettingsError>)
    requires srs.Valid() && NextDrawsFor(newGrade, d)
    modifies session, srs
    ensures srs.Valid() && srs.grade == newGrade
    ensures srs.stats == old(srs.stats) && srs.recent == old(srs.recent) && srs.sessionAsked == old(srs.sessionAsked)
    ensures session.state == old(session.state) && session.questionsAsked == old(session.questionsAsked)
    ensures session.correctCount == old(session.correctCount) && session.sessionQuestions == old(session.sessionQuestions)
    ensures var next := srs.NextQuestion(d, now);
      && (next.Success? ==> r == Success(newGrade) && session.currentQuestion == Some(Serialize(next.value)))
      && (next.Failure? ==> r == Failure(QuestionError(next.error)) && session.currentQuestion == old(session.currentQuestion))
    ensures old(session.Valid()) ==> session.Valid()
  {
    srs.grade := newGrade;
    var next := srs.GetNextQuestion(d, now);
    r := ShowNext(session, next, newGrade);
  }

  /** `settings.py` line 91: a drawn question becomes the current one; a failed draw raises. */
  method ShowNext(session: QuizSession, next: Result<MathQuestion, GenerationError>, newGrade: int)
    returns (r: Result<int, SettingsError>)
    modifies session
    ensures session.state == old(session.state) && session.questionsAsked == old(session.questionsAsked)
    ensures session.correctCount == old(session.correctCount) && session.sessionQuestions == old(session.sessionQuestions)
    ensures next.Success? ==> r == Success(newGrade) && session.currentQuestion == Some(Serialize(next.value))
    ensures next.Failure? ==> r == Failure(QuestionError(next.error)) && session.currentQuestion == old(session.currentQuestion)
    ensures old(session.Valid()) ==> session.Valid()
  {
    if next.Failure? {
      return Failure(QuestionError(next.error));
    }
    session.currentQuestion := Some(Serialize(next.value));
    r := Success(newGrade);
  }
}
