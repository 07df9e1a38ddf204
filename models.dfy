/**
 * The persisted records: per-question Leitner statistics and the learner
 * profile, with their dictionary forms. A dictionary is a map from key to
 * `Value`; an ISO-8601 timestamp string is kept abstract as `VTime`, so
 * `isoformat` and `fromisoformat` are exact inverses here.
 */
module Models {
  import opened Wrappers

  /** A point in time, in microseconds (the resolution of Python's datetime). */
  datatype Instant = Instant(micros: int)

  /** A JSON-like value as stored in the attribute maps. */
  datatype Value =
    | VNull
    | VBool(b: bool)
    | VInt(i: int)
    | VStr(s: string)
    | VTime(t: Instant)
    | VDict(d: map<string, Value>)

  type Dict = map<string, Value>

  /** Python truthiness of a stored value. */
  predicate Truthy(v: Value) {
    match v
    case VNull => false
    case VBool(b) => b
    case VInt(i) => i != 0
    case VStr(s) => s != ""
    case VTime(_) => true
    case VDict(d) => d != map[]
  }

  datatype DecodeError =
    | MissingKey(key: string)
    | WrongType(key: string)

  const MinBox := 1
  const MaxBox := 5

  datatype QuestionStats = QuestionStats(
    questionId: string,
    correctCount: int,
    incorrectCount: int,
    lastAsked: Option<Instant>,
    box: int)

  /** `QuestionStats(question_id=id)`: the dataclass defaults. */
  function NewQuestionStats(id: string): (s: QuestionStats)
    ensures s.questionId == id && s.lastAsked == None && s.box == MinBox
    ensures s.correctCount == 0 && s.incorrectCount == 0
    ensures TotalAttempts(s) == 0 && Accuracy(s) == 0.5
  {
    QuestionStats(id, 0, 0, None, MinBox)
  }

  /** The `total_attempts` property. */
  function TotalAttempts(s: QuestionStats): int {
    s.correctCount + s.incorrectCount
  }

  /** The `accuracy` property: 0.5 before any attempt, else the share of correct answers. */
  function Accuracy(s: QuestionStats): (r: real)
    ensures TotalAttempts(s) == 0 ==> r == 0.5
    ensures s.correctCount >= 0 && s.incorrectCount >= 0 ==> 0.0 <= r <= 1.0
    ensures s.correctCount >= 0 && s.incorrectCount >= 0 && TotalAttempts(s) > 0 ==>
      r * (TotalAttempts(s) as real) == s.correctCount as real
  {
    if TotalAttempts(s) == 0 then 0.5
    else s.correctCount as real / TotalAttempts(s) as real
  }

  /** A timestamp or None as a stored value (`isoformat()` or null). */
  function OptionalTime(t: Option<Instant>): Value {
    if t.Some? then VTime(t.value) else VNull
  }

  /** `QuestionStats.to_dict`. */
  function StatsToDict(s: QuestionStats): (d: Dict)
    ensures d.Keys == {"question_id", "correct_count", "incorrect_count", "last_asked", "box"}
  {
    map[
      "question_id" := VStr(s.questionId),
      "correct_count" := VInt(s.correctCount),
      "incorrect_count" := VInt(s.incorrectCount),
      "last_asked" := OptionalTime(s.lastAsked),
      "box" := VInt(s.box)
    ]
  }

  /** `data.get(key, default)` for an integer field. */
  function IntField(d: Dict, key: string, default: int): (r: Result<int, DecodeError>)
    ensures key !in d ==> r == Success(default)
    ensures key in d ==> (r.Success? <==> d[key].VInt?)
    ensures key in d && d[key].VInt? ==> r == Success(d[key].i)
  {
    if key !in d then Success(default)
    else if d[key].VInt? then Success(d[key].i)
    else Failure(WrongType(key))
  }

  /** A timestamp field: absent or falsy reads as None, otherwise it must be a timestamp. */
  function TimeField(d: Dict, key: string): (r: Result<Option<Instant>, DecodeError>)
    ensures key !in d || !Truthy(d[key]) ==> r == Success(None)
    ensures key in d && d[key].VTime? ==> r == Success(Some(d[key].t))
  {
    if key !in d || !Truthy(d[key]) then Success(None)
    else if d[key].VTime? then Success(Some(d[key].t))
    else Failure(WrongType(key))
  }

  /** A string field that may be absent or null. */
  function OptionalStringField(d: Dict, key: string): (r: Result<Option<string>, DecodeError>)
    ensures key !in d || d[key] == VNull ==> r == Success(None)
    ensures key in d && d[key].VStr? ==> r == Success(Some(d[key].s))
  {
    if key !in d || d[key] == VNull then Success(None)
    else if d[key].VStr? then Success(Some(d[key].s))
    else Failure(WrongType(key))
  }

  /** A string field that must be present (`data[key]`). */
  function RequiredStringField(d: Dict, key: string): (r: Result<string, DecodeError>)
    ensures key !in d ==> r == Failure(MissingKey(key))
    ensures key in d && d[key].VStr? ==> r == Success(d[key].s)
  {
    if key !in d then Failure(MissingKey(key))
    else if d[key].VStr? then Success(d[key].s)
    else Failure(WrongType(key))
  }

  /** `QuestionStats.from_dict`: the id is required, every other field has a default. */
  function StatsFromDict(d: Dict): (r: Result<QuestionStats, DecodeError>)
    ensures "question_id" !in d ==> r.Failure?
    ensures r.Success? ==> d["question_id"] == VStr(r.value.questionId)
    ensures r.Success? && "correct_count" !in d ==> r.value.correctCount == 0
    ensures r.Success? && "incorrect_count" !in d ==> r.value.incorrectCount == 0
    ensures r.Success? && "box" !in d ==> r.value.box == MinBox
    ensures r.Success? && ("last_asked" !in d || d["last_asked"] == VNull) ==> r.value.lastAsked == None
  {
    var lastAsked :- TimeField(d, "last_asked");
    var id :- RequiredStringField(d, "question_id");
    var correct :- IntField(d, "correct_count", 0);
    var incorrect :- IntField(d, "incorrect_count", 0);
    var box :- IntField(d, "box", MinBox);
    Success(QuestionStats(id, correct, incorrect, lastAsked, box))
  }

  /** Reading back a record's dictionary form gives the record. */
  lemma {:induction false} StatsRoundTrip(s: QuestionStats)
    ensures StatsFromDict(StatsToDict(s)) == Success(s)
  {
    var d := StatsToDict(s);
    assert d["last_asked"] == OptionalTime(s.lastAsked);
    assert TimeField(d, "last_asked") == Success(s.lastAsked);
  }

  /** A dictionary holding only the id decodes to a fresh record. */
  lemma StatsFromIdOnly(id: string)
    ensures StatsFromDict(map["question_id" := VStr(id)]) == Success(NewQuestionStats(id))
  {
  }

  datatype UserProfile = UserProfile(
    userId: string,
    name: Option<string>,
    grade: int,
    totalQuestionsAnswered: int,
    totalCorrect: int,
    currentStreak: int,
    bestStreak: int,
    lastSession: Option<Instant>,
    createdAt: Instant)

  /** `UserProfile(user_id, name, created_at=now)` with every other field at its default. */
  function NewUserProfile(userId: string, name: Option<string>, now: Instant): (p: UserProfile)
    ensures p.userId == userId && p.name == name && p.grade == 1 && p.createdAt == now
    ensures p.totalQuestionsAnswered == 0 && p.totalCorrect == 0
    ensures p.currentStreak == 0 && p.bestStreak == 0 && p.lastSession == None
    ensures OverallAccuracy(p) == 0.0
  {
    UserProfile(userId, name, 1, 0, 0, 0, 0, None, now)
  }

  /** The `overall_accuracy` property: 0.0 with no answers, else correct / answered. */
  function OverallAccuracy(p: UserProfile): (r: real)
    ensures p.totalQuestionsAnswered == 0 ==> r == 0.0
    ensures p.totalQuestionsAnswered != 0 ==>
      r * (p.totalQuestionsAnswered as real) == p.totalCorrect as real
  {
    if p.totalQuestionsAnswered == 0 then 0.0
    else p.totalCorrect as real / p.totalQuestionsAnswered as real
  }

  /** A string or None as a stored value. */
  function OptionalString(s: Option<string>): Value {
    if s.Some? then VStr(s.value) else VNull
  }

  /** `UserProfile.to_dict`. */
  function ProfileToDict(p: UserProfile): (d: Dict)
    ensures d.Keys == {"user_id", "name", "grade", "total_questions_answered", "total_correct",
                       "current_streak", "best_streak", "last_session", "created_at"}
  {
    map[
      "user_id" := VStr(p.userId),
      "name" := OptionalString(p.name),
      "grade" := VInt(p.grade),
      "total_questions_answered" := VInt(p.totalQuestionsAnswered),
      "total_correct" := VInt(p.totalCorrect),
      "current_streak" := VInt(p.currentStreak),
      "best_streak" := VInt(p.bestStreak),
      "last_session" := OptionalTime(p.lastSession),
      "created_at" := VTime(p.createdAt)
    ]
  }

  /** `UserProfile.from_dict`; `now` stands for the `datetime.now()` default of created_at. */
  function ProfileFromDict(d: Dict, now: Instant): (r: Result<UserProfile, DecodeError>)
    ensures "user_id" !in d ==> r.Failure?
    ensures r.Success? && "name" !in d ==> r.value.name == None
    ensures r.Success? && "grade" !in d ==> r.value.grade == 1
    ensures r.Success? && "total_questions_answered" !in d ==> r.value.totalQuestionsAnswered == 0
    ensures r.Success? && "total_correct" !in d ==> r.value.totalCorrect == 0
    ensures r.Success? && "current_streak" !in d ==> r.value.currentStreak == 0
    ensures r.Success? && "best_streak" !in d ==> r.value.bestStreak == 0
    ensures r.Success? && "created_at" !in d ==> r.value.createdAt == now
  {
    var lastSession :- TimeField(d, "last_session");
    var created :- TimeField(d, "created_at");
    var userId :- RequiredStringField(d, "user_id");
    var name :- OptionalStringField(d, "name");
    var grade :- IntField(d, "grade", 1);
    var total :- IntField(d, "total_questions_answered", 0);
    var correct :- IntField(d, "total_correct", 0);
    var streak :- IntField(d, "current_streak", 0);
    var best :- IntField(d, "best_streak", 0);
    Success(UserProfile(userId, name, grade, total, correct, streak, best, lastSession,
                        if created.Some? then created.value else now))
  }

  /**
   * The two fields of `from_dict` that are read from the dictionary itself:
   * the user id is the stored one, and an absent or null last session is None.
   */
  lemma ProfileFromDictReads(d: Dict, now: Instant)
    ensures var r := ProfileFromDict(d, now);
      && (r.Success? ==> "user_id" in d && d["user_id"] == VStr(r.value.userId))
      && (r.Success? && ("last_session" !in d || d["last_session"] == VNull) ==> r.value.lastSession == None)
  {
  }

  /** Reading back a profile's dictionary form gives the profile, whatever the current time. */
  lemma {:induction false} ProfileRoundTrip(p: UserProfile, now: Instant)
    ensures ProfileFromDict(ProfileToDict(p), now) == Success(p)
  {
    var d := ProfileToDict(p);
    assert TimeField(d, "last_session") == Success(p.lastSession);
    assert TimeField(d, "created_at") == Success(Some(p.createdAt));
    assert OptionalStringField(d, "name") == Success(p.name);
  }

  /** A profile stored with only its user id gets every default. */
  lemma ProfileFromUserIdOnly(userId: string, now: Instant)
    ensures ProfileFromDict(map["user_id" := VStr(userId)], now) == Success(NewUserProfile(userId, None, now))
  {
  }
}
