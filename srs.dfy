/**
 * The Leitner-box scheduler of srs.py, class `SpacedRepetition`: answering
 * moves a fact up one box (at most 5) or back to box 1, recently asked facts
 * are not offered again, review facts are drawn by weight, and new facts come
 * from the question generator. Random values and the clock are parameters.
 */
module Srs {
  import opened Wrappers
  import opened Text
  import opened MathQuestions
  import opened Models
  import opened LeitnerSelection
  import opened MasteryAreas

  /** `_max_recent`: the recent-list keeps the last five ids. */
  const MaxRecent: nat := 5
  /** `NEW_QUESTION_RATIO`. */
  const NewQuestionRatio: real := 0.3
  /** `max_attempts` of `_generate_new_question`. */
  const MaxGenerateAttempts: nat := 20
  /** A known fact from this box up is accepted again as a "new" question. */
  const ReviewBox: int := 3

  // ---------------------------------------------------------------------------
  // Rebuilding a fact from its id (`_reconstruct_question`)

  /** Python's `//`: the quotient rounded toward negative infinity. */
  function FloorDiv(a: int, b: int): int
    requires b != 0
  {
    if b > 0 then a / b else (-a) / (-b)
  }

  /** The quotient of `//` is the largest q with q * b <= a (for b > 0), mirrored for b < 0. */
  lemma FloorDivIsFloor(a: int, b: int)
    requires b != 0
    ensures b > 0 ==> FloorDiv(a, b) * b <= a < FloorDiv(a, b) * b + b
    ensures b < 0 ==> FloorDiv(a, b) * b + b < a <= FloorDiv(a, b) * b
  {
    if b < 0 {
      var d, q := -b, (-a) / (-b);
      assert d * q <= -a < d * q + d;
      assert q * b == -(d * q);
    }
  }

  /** The answer `_reconstruct_question` computes; a division by 0 answers 0. */
  function Evaluate(op: Operation, a: int, b: int): int {
    match op
    case Addition => a + b
    case Subtraction => a - b
    case Multiplication => a * b
    case Division => if b != 0 then FloorDiv(a, b) else 0
  }

  /** `_reconstruct_question`: None unless the id is `code_int_int` with a known code. */
  function ReconstructQuestion(id: string): (r: Option<MathQuestion>)
    ensures r.Some? <==>
      var parts := Split(id, '_');
      |parts| == 3 && OperationFromCode(parts[0]).Some? && ParseInt(parts[1]).Some? && ParseInt(parts[2]).Some?
    ensures r.Some? ==>
      var parts := Split(id, '_');
      && r.value.questionId == id
      && OperationFromCode(parts[0]) == Some(r.value.operation)
      && ParseInt(parts[1]) == Some(r.value.operand1)
      && ParseInt(parts[2]) == Some(r.value.operand2)
      && r.value.questionText == QuestionText(r.value.operation, r.value.operand1, r.value.operand2)
  {
    var parts := Split(id, '_');
    if |parts| != 3 then None
    else
      match (ParseInt(parts[1]), ParseInt(parts[2]), OperationFromCode(parts[0]))
      case (Some(a), Some(b), Some(op)) => Some(MathQuestion(id, a, b, op, Evaluate(op, a, b), QuestionText(op, a, b)))
      case _ => None
  }

  /**
   * The rebuilt answer solves the rebuilt fact, except for a division, whose
   * answer is the floor quotient, and 0 for a division by 0.
   */
  lemma ReconstructedAnswer(id: string)
    requires ReconstructQuestion(id).Some?
    ensures var q := ReconstructQuestion(id).value;
      q.operation != Division ==> Solves(q.operation, q.operand1, q.operand2, q.correctAnswer)
    ensures var q := ReconstructQuestion(id).value;
      q.operation == Division ==>
        if q.operand2 == 0 then q.correctAnswer == 0
        else q.correctAnswer == FloorDiv(q.operand1, q.operand2)
  {
    var q := ReconstructQuestion(id).value;
    assert q.correctAnswer == Evaluate(q.operation, q.operand1, q.operand2);
  }

  /** Rebuilding `generate_question_id(op, a, b)` recovers op, a and b. */
  lemma ReconstructFromId(op: Operation, a: int, b: int)
    ensures ReconstructQuestion(QuestionId(op, a, b)) == Some(Build(op, a, b, Evaluate(op, a, b)))
  {
    ParseIntToString(a);
    ParseIntToString(b);
    CodeRoundTrip(op, Code(op));
  }

  /** Floor division undoes multiplication by a non-zero divisor, of either sign. */
  lemma FloorDivExact(x: int, b: int)
    requires b != 0
    ensures FloorDiv(x * b, b) == x
  {
    if b > 0 {
      ExactDivision(b, x);
    } else {
      NegatedProduct(x, b);
      ExactDivision(-b, x);
    }
  }

  /** Moves the sign onto the divisor, so the negative-divisor case reduces to a positive one. */
  lemma NegatedProduct(x: int, b: int)
    ensures -(x * b) == (-b) * x
  {
  }

  /** A well-formed fact, in particular every generated one, is rebuilt exactly from its id. */
  lemma ReconstructWellFormed(q: MathQuestion)
    requires WellFormedQuestion(q)
    ensures ReconstructQuestion(q.questionId) == Some(q)
  {
    ReconstructFromId(q.operation, q.operand1, q.operand2);
    EvaluateSolves(q.operation, q.operand1, q.operand2, q.correctAnswer);
    assert q == Build(q.operation, q.operand1, q.operand2, q.correctAnswer);
  }

  /** The rebuilt answer is the right one whenever a right one exists. */
  lemma EvaluateSolves(op: Operation, a: int, b: int, x: int)
    requires Solves(op, a, b, x)
    ensures Evaluate(op, a, b) == x
  {
    if op == Division {
      FloorDivExact(x, b);
    }
  }

  /** Every generated question is rebuilt exactly from its id. */
  lemma GeneratedQuestionReconstructs(grade: int, op: Option<Operation>, d: Draws)
    requires DrawsFor(grade, op, d)
    requires GenerateQuestion(grade, op, d).Success?
    ensures ReconstructQuestion(GenerateQuestion(grade, op, d).value.questionId) == Some(GenerateQuestion(grade, op, d).value)
  {
    GenerateQuestionSpec(grade, op, d);
    ReconstructWellFormed(GenerateQuestion(grade, op, d).value);
  }

  // ---------------------------------------------------------------------------
  // Answering (`record_answer`)

  /** `stats` keys listed once each, in insertion order. */
  ghost predicate OrderedKeys(order: seq<string>, stats: map<string, QuestionStats>) {
    && (forall i, j :: 0 <= i < j < |order| ==> order[i] != order[j])
    && (forall k :: k in stats <==> k in order)
  }

  /** Each record is stored under its own id. */
  ghost predicate KeysMatch(stats: map<string, QuestionStats>) {
    forall k :: k in stats ==> stats[k].questionId == k
  }

  /** Every record is in one of the boxes 1..5. */
  ghost predicate BoxesInRange(stats: map<string, QuestionStats>) {
    forall k :: k in stats ==> MinBox <= stats[k].box <= MaxBox
  }

  /** Storing a record keeps the key order; a new id goes last, as in a Python dict. */
  lemma OrderedKeysInsert(order: seq<string>, stats: map<string, QuestionStats>, id: string, s: QuestionStats)
    requires OrderedKeys(order, stats)
    ensures OrderedKeys(if id in stats then order else order + [id], stats[id := s])
  {
  }

  /** The stats of `id`, or a fresh record when it was never answered. */
  function Lookup(stats: map<string, QuestionStats>, id: string): (s: QuestionStats)
    ensures id in stats ==> s == stats[id]
    ensures id !in stats ==> s == NewQuestionStats(id)
  {
    if id in stats then stats[id] else NewQuestionStats(id)
  }

  /** A record after one more answer at time `now`. */
  function Answered(s: QuestionStats, correct: bool, now: Instant): (r: QuestionStats)
    ensures r.questionId == s.questionId && r.lastAsked == Some(now)
    ensures TotalAttempts(r) == TotalAttempts(s) + 1
    ensures correct ==> r.correctCount == s.correctCount + 1 && r.incorrectCount == s.incorrectCount
    ensures !correct ==> r.incorrectCount == s.incorrectCount + 1 && r.correctCount == s.correctCount
    ensures correct ==> r.box == if s.box + 1 < MaxBox then s.box + 1 else MaxBox
    ensures !correct ==> r.box == MinBox
    ensures MinBox <= s.box <= MaxBox ==> MinBox <= r.box <= MaxBox
  {
    if correct then
      s.(correctCount := s.correctCount + 1, box := if MaxBox < s.box + 1 then MaxBox else s.box + 1, lastAsked := Some(now))
    else
      s.(incorrectCount := s.incorrectCount + 1, box := MinBox, lastAsked := Some(now))
  }

  /** Recording an answer keeps every box within 1..5. */
  lemma AnswerKeepsBoxesInRange(stats: map<string, QuestionStats>, id: string, correct: bool, now: Instant)
    requires BoxesInRange(stats)
    ensures BoxesInRange(stats[id := Answered(Lookup(stats, id), correct, now)])
  {
  }

  /** Recording an answer keeps every record filed under its own id. */
  lemma AnswerKeepsKeysMatch(stats: map<string, QuestionStats>, id: string, correct: bool, now: Instant)
    requires KeysMatch(stats)
    ensures KeysMatch(stats[id := Answered(Lookup(stats, id), correct, now)])
  {
  }

  /** The recent-list after asking `id`: appended, the oldest dropped beyond five. */
  function PushRecent<T>(recent: seq<T>, id: T): (r: seq<T>)
    ensures |recent| <= MaxRecent ==> |r| <= MaxRecent
    ensures |r| > 0 && r[|r| - 1] == id
    ensures |recent| < MaxRecent ==> r == recent + [id]
    ensures |recent| == MaxRecent ==> r == recent[1..] + [id]
  {
    var appended := recent + [id];
    if |appended| > MaxRecent then appended[1..] else appended
  }

  /** The last (at most five) elements of `s`. */
  function LastFive<T>(s: seq<T>): seq<T> {
    if |s| <= MaxRecent then s else s[|s| - MaxRecent..]
  }

  /** The recent-list after asking each of `ids` in turn. */
  function PushAll<T>(recent: seq<T>, ids: seq<T>): seq<T> {
    if |ids| == 0 then recent else PushRecent(PushAll(recent, ids[..|ids| - 1]), ids[|ids| - 1])
  }

  /** Pushing onto the last five of `s` gives the last five of `s` extended. */
  lemma PushLastFive<T>(s: seq<T>, id: T)
    ensures PushRecent(LastFive(s), id) == LastFive(s + [id])
  {
    if |s| > MaxRecent {
      var left, right := PushRecent(LastFive(s), id), LastFive(s + [id]);
      assert |left| == MaxRecent == |right|;
      forall i | 0 <= i < MaxRecent
        ensures left[i] == right[i]
      {
        if i < MaxRecent - 1 {
          assert left[i] == s[|s| - MaxRecent + 1 + i];
          assert right[i] == (s + [id])[|s| - MaxRecent + 1 + i];
        }
      }
    }
  }

  /** However many answers are recorded, the recent-list is the last five ids asked. */
  lemma {:induction false} RecentIsLastFive<T>(recent: seq<T>, ids: seq<T>)
    requires |recent| <= MaxRecent
    ensures PushAll(recent, ids) == LastFive(recent + ids)
  {
    if |ids| > 0 {
      var front, last := ids[..|ids| - 1], ids[|ids| - 1];
      assert ids == front + [last];
      RecentIsLastFive(recent, front);
      PushLastFive(recent + front, last);
      AppendAssoc(recent, front, [last]);
    }
  }

  /** One recorded answer. */
  datatype AnswerEvent = AnswerEvent(id: string, correct: bool, at: Instant)

  /** The stats map after a sequence of `record_answer` calls. */
  function Replay(stats: map<string, QuestionStats>, events: seq<AnswerEvent>): map<string, QuestionStats>
    decreases |events|
  {
    if |events| == 0 then stats
    else
      var e := events[0];
      Replay(stats[e.id := Answered(Lookup(stats, e.id), e.correct, e.at)], events[1..])
  }

  /** Boxes that start within 1..5 stay there whatever is answered. */
  lemma {:induction false} ReplayKeepsBoxesInRange(stats: map<string, QuestionStats>, events: seq<AnswerEvent>)
    requires BoxesInRange(stats)
    ensures BoxesInRange(Replay(stats, events))
    decreases |events|
  {
    if |events| > 0 {
      var e := events[0];
      var next := stats[e.id := Answered(Lookup(stats, e.id), e.correct, e.at)];
      AnswerKeepsBoxesInRange(stats, e.id, e.correct, e.at);
      ReplayKeepsBoxesInRange(next, events[1..]);
    }
  }

  // ---------------------------------------------------------------------------
  // Choosing between review and new facts

  /** Ids not in the recent-list, in dictionary order. */
  function AvailableIds(order: seq<string>, recent: seq<string>): (ids: seq<string>)
    ensures forall k :: k in ids <==> k in order && k !in recent
  {
    if |order| == 0 then []
    else (if order[0] in recent then [] else [order[0]]) + AvailableIds(order[1..], recent)
  }

  /** `available_stats` of `_select_from_srs`. */
  function AvailableStats(order: seq<string>, stats: map<string, QuestionStats>, recent: seq<string>): (r: seq<QuestionStats>)
    requires forall k :: k in order ==> k in stats
    ensures |r| == |AvailableIds(order, recent)|
    ensures forall i :: 0 <= i < |r| ==> r[i] == stats[AvailableIds(order, recent)[i]]
  {
    var ids := AvailableIds(order, recent);
    seq(|ids|, i requires 0 <= i < |ids| => stats[ids[i]])
  }

  /** The stats `_weighted_box_selection` returns for the draw `u`. */
  function ChosenReview(available: seq<QuestionStats>, u: real, now: Instant): Option<QuestionStats> {
    Choose(GroupByBox(available), u, now)
  }

  /** The loop of `_select_from_srs` that files the available stats by box. */
  method GroupAvailable(available: seq<QuestionStats>) returns (groups: seq<BoxGroup>)
    ensures groups == GroupByBox(available)
  {
    groups := [];
    for i := 0 to |available|
      invariant groups == GroupByBox(available[..i])
    {
      assert available[..i + 1][..i] == available[..i];
      groups := AddToGroup(groups, available[i]);
    }
    assert available[..|available|] == available;
  }

  /** The question `_select_from_srs` returns for the draw `u`. */
  function ReviewQuestion(available: seq<QuestionStats>, u: real, now: Instant): Option<MathQuestion> {
    match ChosenReview(available, u, now)
    case None => None
    case Some(s) => ReconstructQuestion(s.questionId)
  }

  /** A review is drawn exactly when some fact is available. */
  lemma ChosenReviewExists(available: seq<QuestionStats>, u: real, now: Instant)
    ensures ChosenReview(available, u, now).Some? <==> |available| > 0
  {
    CandidatesArePermutation(available);
    var candidates := Flatten(GroupByBox(available));
    assert |multiset(candidates)| == |candidates|;
    assert |multiset(available)| == |available|;
  }

  /** The drawn review is one of the available facts. */
  lemma ChosenReviewIsAvailable(available: seq<QuestionStats>, u: real, now: Instant)
    requires ChosenReview(available, u, now).Some?
    ensures ChosenReview(available, u, now).value in available
  {
    var s := ChosenReview(available, u, now).value;
    ChooseIsCandidate(GroupByBox(available), u, now);
    CandidatesArePermutation(available);
    assert s in multiset(Flatten(GroupByBox(available)));
    assert s in multiset(available);
  }

  /**
   * A review question comes from a fact that is stored and not in the
   * recent-list; when ids are stored under their own key, its id is such a key.
   */
  lemma ReviewIsNotRecent(order: seq<string>, stats: map<string, QuestionStats>, recent: seq<string>, u: real, now: Instant)
    requires OrderedKeys(order, stats) && KeysMatch(stats)
    requires ReviewQuestion(AvailableStats(order, stats, recent), u, now).Some?
    ensures var q := ReviewQuestion(AvailableStats(order, stats, recent), u, now).value;
      q.questionId in stats && q.questionId !in recent
  {
    var available := AvailableStats(order, stats, recent);
    assert ChosenReview(available, u, now).Some?;
    ChosenReviewIsAvailable(available, u, now);
    var s := ChosenReview(available, u, now).value;
    var i :| 0 <= i < |available| && available[i] == s;
    var ids := AvailableIds(order, recent);
    assert ids[i] in ids;
  }

  /** A generated id is taken when it is not recent and either unknown or in box 3 or higher. */
  function Acceptable(id: string, stats: map<string, QuestionStats>, recent: seq<string>): bool {
    id !in recent && (id !in stats || stats[id].box >= ReviewBox)
  }

  /**
   * `_generate_new_question` from attempt `i` on: the first acceptable
   * generated fact of the 20 attempts, else one more generated fact.
   */
  function PickNew(grade: int, stats: map<string, QuestionStats>, recent: seq<string>, draws: seq<Draws>, i: nat): (r: Result<MathQuestion, GenerationError>)
    requires |draws| == MaxGenerateAttempts + 1 && i <= MaxGenerateAttempts
    requires forall j :: 0 <= j < |draws| ==> DrawsFor(grade, None, draws[j])
    decreases MaxGenerateAttempts - i
  {
    if i == MaxGenerateAttempts then GenerateQuestion(grade, None, draws[i])
    else
      match GenerateQuestion(grade, None, draws[i])
      case Failure(e) => Failure(e)
      case Success(q) => if Acceptable(q.questionId, stats, recent) then Success(q) else PickNew(grade, stats, recent, draws, i + 1)
  }

  /** One attempt of `PickNew`: an error or an acceptable fact ends the search, anything else moves on. */
  lemma PickNewUnfold(grade: int, stats: map<string, QuestionStats>, recent: seq<string>, draws: seq<Draws>, i: nat)
    requires |draws| == MaxGenerateAttempts + 1 && i < MaxGenerateAttempts
    requires forall j :: 0 <= j < |draws| ==> DrawsFor(grade, None, draws[j])
    ensures var g := GenerateQuestion(grade, None, draws[i]);
      && (g.Failure? ==> PickNew(grade, stats, recent, draws, i) == g)
      && (g.Success? && Acceptable(g.value.questionId, stats, recent) ==> PickNew(grade, stats, recent, draws, i) == g)
      && (g.Success? && !Acceptable(g.value.questionId, stats, recent) ==>
            PickNew(grade, stats, recent, draws, i) == PickNew(grade, stats, recent, draws, i + 1))
  {
  }

  /** A new fact is found exactly when the grade is supported. */
  lemma {:induction false} PickNewOutcome(grade: int, stats: map<string, QuestionStats>, recent: seq<string>, draws: seq<Draws>, i: nat)
    requires |draws| == MaxGenerateAttempts + 1 && i <= MaxGenerateAttempts
    requires forall j :: 0 <= j < |draws| ==> DrawsFor(grade, None, draws[j])
    ensures !(1 <= grade <= 4) ==> PickNew(grade, stats, recent, draws, i) == Failure(UnsupportedGrade(grade))
    ensures 1 <= grade <= 4 ==> PickNew(grade, stats, recent, draws, i).Success?
    decreases MaxGenerateAttempts - i
  {
    var g := GenerateQuestion(grade, None, draws[i]);
    GenerateAnyOutcome(grade, draws[i]);
    if i < MaxGenerateAttempts && g.Success? && !Acceptable(g.value.questionId, stats, recent) {
      PickNewOutcome(grade, stats, recent, draws, i + 1);
    }
  }

  /**
   * The new fact is one of the facts generated from attempt `i` on, and
   * either acceptable or the result of the final, unchecked draw.
   */
  lemma {:induction false} PickNewChoice(grade: int, stats: map<string, QuestionStats>, recent: seq<string>, draws: seq<Draws>, i: nat)
    requires |draws| == MaxGenerateAttempts + 1 && i <= MaxGenerateAttempts
    requires forall j :: 0 <= j < |draws| ==> DrawsFor(grade, None, draws[j])
    ensures var r := PickNew(grade, stats, recent, draws, i);
      r.Success? ==>
        && (exists j :: i <= j <= MaxGenerateAttempts && r == GenerateQuestion(grade, None, draws[j]))
        && (Acceptable(r.value.questionId, stats, recent) || r == GenerateQuestion(grade, None, draws[MaxGenerateAttempts]))
    decreases MaxGenerateAttempts - i
  {
    var g := GenerateQuestion(grade, None, draws[i]);
    if i < MaxGenerateAttempts && g.Success? && !Acceptable(g.value.questionId, stats, recent) {
      PickNewChoice(grade, stats, recent, draws, i + 1);
    } else {
      assert PickNew(grade, stats, recent, draws, i) == g;
    }
  }

  /** The random values one `get_next_question` call may consume. */
  datatype NextDraws = NextDraws(newRoll: real, selectRoll: real, newDraws: seq<Draws>)

  /** The draws of one `get_next_question` call at `grade` lie where the Python calls would put them. */
  ghost predicate NextDrawsFor(grade: int, d: NextDraws) {
    && 0.0 <= d.newRoll < 1.0 && 0.0 <= d.selectRoll < 1.0
    && |d.newDraws| == MaxGenerateAttempts + 1
    && forall j :: 0 <= j < |d.newDraws| ==> DrawsFor(grade, None, d.newDraws[j])
  }

  // ---------------------------------------------------------------------------
  // Loading and exporting

  /** The records decoded before the first failing `from_dict`, and that failure. */
  datatype Decoded = Decoded(records: seq<QuestionStats>, error: Option<DecodeError>)

  /** Decodes the exported dictionaries in order, stopping at the first that raises. */
  function DecodeUntilFailure(data: seq<Dict>): Decoded {
    if |data| == 0 then Decoded([], None)
    else
      var prior := DecodeUntilFailure(data[..|data| - 1]);
      if prior.error.Some? then prior
      else
        match StatsFromDict(data[|data| - 1])
        case Failure(e) => Decoded(prior.records, Some(e))
        case Success(s) => Decoded(prior.records + [s], None)
  }

  /** `self._stats[stats.question_id] = stats` for each record in turn. */
  function IndexStats(records: seq<QuestionStats>): (map<string, QuestionStats>, seq<string>) {
    if |records| == 0 then (map[], [])
    else
      var (m, o) := IndexStats(records[..|records| - 1]);
      var s := records[|records| - 1];
      (m[s.questionId := s], if s.questionId in m then o else o + [s.questionId])
  }

  /** Loading keeps one order entry per stored id, and stores each record under its own id. */
  lemma {:induction false} IndexStatsKeyed(records: seq<QuestionStats>)
    ensures OrderedKeys(IndexStats(records).1, IndexStats(records).0) && KeysMatch(IndexStats(records).0)
  {
    if |records| > 0 {
      var front := records[..|records| - 1];
      var s := records[|records| - 1];
      IndexStatsKeyed(front);
      var m, o := IndexStats(front).0, IndexStats(front).1;
      var r := IndexStats(records);
      assert r.0 == m[s.questionId := s];
      if s.questionId in m {
        assert r.1 == o;
      } else {
        assert r.1 == o + [s.questionId];
        assert s.questionId !in o;
      }
    }
  }

  /** The records in key order. */
  function ExportRecords(stats: map<string, QuestionStats>, order: seq<string>): (r: seq<QuestionStats>)
    requires forall k :: k in order ==> k in stats
    ensures |r| == |order| && forall i :: 0 <= i < |r| ==> r[i] == stats[order[i]]
  {
    seq(|order|, i requires 0 <= i < |order| => stats[order[i]])
  }

  /** The dictionary form of each record, in order. */
  function ToDicts(records: seq<QuestionStats>): (data: seq<Dict>)
    ensures |data| == |records| && forall i :: 0 <= i < |data| ==> data[i] == StatsToDict(records[i])
  {
    seq(|records|, i requires 0 <= i < |records| => StatsToDict(records[i]))
  }

  /** Exported records decode back without error. */
  lemma {:induction false} DecodeToDicts(records: seq<QuestionStats>)
    ensures DecodeUntilFailure(ToDicts(records)) == Decoded(records, None)
  {
    if |records| > 0 {
      var front := records[..|records| - 1];
      assert ToDicts(records)[..|records| - 1] == ToDicts(front);
      DecodeToDicts(front);
      StatsRoundTrip(records[|records| - 1]);
      assert front + [records[|records| - 1]] == records;
    }
  }

  /** Loading records with distinct ids keeps their ids in record order. */
  lemma {:induction false} IndexOrder(records: seq<QuestionStats>)
    requires forall i, j :: 0 <= i < j < |records| ==> records[i].questionId != records[j].questionId
    ensures |IndexStats(records).1| == |records|
    ensures forall i :: 0 <= i < |records| ==> IndexStats(records).1[i] == records[i].questionId
  {
    if |records| > 0 {
      var n := |records| - 1;
      var front := records[..n];
      var s := records[n];
      IndexOrder(front);
      IndexStatsKeyed(front);
      var m, o := IndexStats(front).0, IndexStats(front).1;
      forall i | 0 <= i < n
        ensures o[i] != s.questionId
      {
        assert o[i] == records[i].questionId;
      }
      assert s.questionId !in m;
      assert IndexStats(records).1 == o + [s.questionId];
    }
  }

  /** Loading records with distinct ids stores each one under its id. */
  lemma {:induction false} IndexMap(records: seq<QuestionStats>)
    requires forall i, j :: 0 <= i < j < |records| ==> records[i].questionId != records[j].questionId
    ensures forall i :: 0 <= i < |records| ==>
      records[i].questionId in IndexStats(records).0 && IndexStats(records).0[records[i].questionId] == records[i]
  {
    if |records| > 0 {
      var n := |records| - 1;
      var front := records[..n];
      var s := records[n];
      IndexMap(front);
      var m := IndexStats(front).0;
      assert IndexStats(records).0 == m[s.questionId := s];
      forall i | 0 <= i < n
        ensures records[i].questionId in m && m[records[i].questionId] == records[i]
      {
        assert front[i] == records[i];
      }
    }
  }

  /** Indexing records that are keyed by their ids restores the map and the key order. */
  lemma IndexKeyed(records: seq<QuestionStats>, stats: map<string, QuestionStats>, order: seq<string>)
    requires OrderedKeys(order, stats)
    requires |records| == |order|
    requires forall i :: 0 <= i < |records| ==> records[i] == stats[order[i]] && records[i].questionId == order[i]
    ensures IndexStats(records) == (stats, order)
  {
    IndexOrder(records);
    IndexMap(records);
    IndexStatsKeyed(records);
    var m := IndexStats(records).0;
    assert IndexStats(records).1 == order;
    assert m.Keys == stats.Keys;
    SameRecords(records, order, m, stats);
  }

  /** Two maps over the same keys that both file `records[i]` under `order[i]`, which lists every key, are equal. */
  lemma SameRecords(records: seq<QuestionStats>, order: seq<string>, m: map<string, QuestionStats>, stats: map<string, QuestionStats>)
    requires |records| == |order| && m.Keys == stats.Keys
    requires forall k :: k in stats <==> k in order
    requires forall i :: 0 <= i < |records| ==> records[i] == stats[order[i]] && records[i].questionId == order[i]
    requires forall i :: 0 <= i < |records| ==> records[i].questionId in m && m[records[i].questionId] == records[i]
    ensures m == stats
  {
    forall k | k in stats
      ensures m[k] == stats[k]
    {
      var i :| 0 <= i < |order| && order[i] == k;
      assert records[i].questionId == k;
    }
  }

  /** `load_stats(export_stats())` restores the stats and their order when ids are their keys. */
  lemma ExportLoadRoundTrip(stats: map<string, QuestionStats>, order: seq<string>)
    requires OrderedKeys(order, stats) && KeysMatch(stats)
    ensures DecodeUntilFailure(ToDicts(ExportRecords(stats, order))) == Decoded(ExportRecords(stats, order), None)
    ensures IndexStats(ExportRecords(stats, order)) == (stats, order)
  {
    var records := ExportRecords(stats, order);
    DecodeToDicts(records);
    IndexKeyed(records, stats, order);
  }

  // ---------------------------------------------------------------------------
  // The scheduler

  class SpacedRepetition {
    var stats: map<string, QuestionStats>
    /** The keys of `stats` in insertion order (Python dictionaries keep it). */
    var order: seq<string>
    var grade: int
    var sessionAsked: set<string>
    var recent: seq<string>

    /** The key order lists exactly the stored ids, and the recent list holds at most five. */
    ghost predicate Valid()
      reads this
    {
      OrderedKeys(order, stats) && |recent| <= MaxRecent
    }

    /** `SpacedRepetition(question_stats, grade)`: no session history yet. */
    constructor (questionStats: map<string, QuestionStats>, keyOrder: seq<string>, grade: int)
      requires OrderedKeys(keyOrder, questionStats)
      ensures Valid()
      ensures stats == questionStats && order == keyOrder && this.grade == grade
      ensures sessionAsked == {} && recent == []
    {
      stats := questionStats;
      order := keyOrder;
      this.grade := grade;
      sessionAsked := {};
      recent := [];
    }

    /** `available_stats` of `_select_from_srs`. */
    function Available(): seq<QuestionStats>
      reads this
      requires Valid()
    {
      AvailableStats(order, stats, recent)
    }

    /** `record_answer(question_id, correct)` at time `now`. */
    method RecordAnswer(id: string, correct: bool, now: Instant)
      requires Valid()
      modifies this
      ensures Valid()
      ensures stats == old(stats)[id := Answered(Lookup(old(stats), id), correct, now)]
      ensures order == if id in old(stats) then old(order) else old(order) + [id]
      ensures id !in old(stats) && correct ==> stats[id].box == MinBox + 1
      ensures sessionAsked == old(sessionAsked) + {id}
      ensures recent == PushRecent(old(recent), id)
      ensures grade == old(grade)
    {
      ghost var oldStats, oldOrder := stats, order;
      if id !in stats {
        stats := stats[id := NewQuestionStats(id)];
        order := order + [id];
      }
      var s := stats[id];
      assert s == Lookup(oldStats, id);
      if correct {
        s := s.(correctCount := s.correctCount + 1);
        s := s.(box := if MaxBox < s.box + 1 then MaxBox else s.box + 1);
      } else {
        s := s.(incorrectCount := s.incorrectCount + 1);
        s := s.(box := MinBox);
      }
      s := s.(lastAsked := Some(now));
      assert s == Answered(Lookup(oldStats, id), correct, now);
      stats := stats[id := s];
      assert stats == oldStats[id := s];
      OrderedKeysInsert(oldOrder, oldStats, id, s);
      TrackAsked(id);
    }

    /** The session bookkeeping of `record_answer`: `id` joins the asked set and the recent-list. */
    method TrackAsked(id: string)
      requires |recent| <= MaxRecent
      modifies this
      ensures sessionAsked == old(sessionAsked) + {id}
      ensures recent == PushRecent(old(recent), id)
      ensures stats == old(stats) && order == old(order) && grade == old(grade)
    {
      sessionAsked := sessionAsked + {id};
      recent := recent + [id];
      if |recent| > MaxRecent {
        recent := recent[1..];
      }
    }

    /** `reset_session`: forgets the session, keeps the learning history. */
    method ResetSession()
      modifies this
      ensures sessionAsked == {} && recent == []
      ensures stats == old(stats) && order == old(order) && grade == old(grade)
    {
      sessionAsked := {};
      recent := [];
    }

    /** `_should_generate_new`, with `u` the value `random.random()` would return. */
    function ShouldGenerateNew(u: real): (r: bool)
      reads this
      requires Valid()
      ensures (forall k :: k in stats ==> k in recent) ==> r
      ensures r <==> (forall k :: k in stats ==> k in recent) || u < NewQuestionRatio
    {
      if |stats| == 0 then true
      else if |AvailableIds(order, recent)| == 0 then true
      else
        assert order[0] in AvailableIds(order, recent) || order[0] in recent;
        if u < NewQuestionRatio then true
        else
          assert !(forall k :: k in stats ==> k in recent) by {
            var k := AvailableIds(order, recent)[0];
            assert k in AvailableIds(order, recent);
          }
          false
    }

    /** `_select_from_srs`, with `u` the value of `random.random()` in the weighted draw. */
    method SelectFromSrs(u: real, now: Instant) returns (q: Option<MathQuestion>)
      requires Valid()
      requires 0.0 <= u < 1.0
      ensures q == ReviewQuestion(Available(), u, now)
    {
      var available := Available();
      if |available| == 0 {
        assert ChosenReview(available, u, now).None?;
        return None;
      }
      var groups := GroupAvailable(available);
      var selected := WeightedBoxSelection(groups, u, now);
      if selected.None? {
        return None;
      }
      q := ReconstructQuestion(selected.value.questionId);
    }

    /** `_generate_new_question`, one element of `draws` per `generate_question` call. */
    method GenerateNewQuestion(draws: seq<Draws>) returns (r: Result<MathQuestion, GenerationError>)
      requires |draws| == MaxGenerateAttempts + 1
      requires forall j :: 0 <= j < |draws| ==> DrawsFor(grade, None, draws[j])
      ensures r == PickNew(grade, stats, recent, draws, 0)
    {
      var attempt := 0;
      while attempt < MaxGenerateAttempts
        invariant 0 <= attempt <= MaxGenerateAttempts
        invariant PickNew(grade, stats, recent, draws, 0) == PickNew(grade, stats, recent, draws, attempt)
      {
        var generated := GenerateQuestion(grade, None, draws[attempt]);
        PickNewUnfold(grade, stats, recent, draws, attempt);
        if generated.Failure? {
          return generated;
        }
        var question := generated.value;
        if question.questionId !in recent {
          if question.questionId !in stats {
            return generated;
          }
          if stats[question.questionId].box >= ReviewBox {
            return generated;
          }
        }
        attempt := attempt + 1;
      }
      r := GenerateQuestion(grade, None, draws[MaxGenerateAttempts]);
    }

    /** The question `get_next_question` returns for the draws `d` at time `now`. */
    function NextQuestion(d: NextDraws, now: Instant): Result<MathQuestion, GenerationError>
      reads this
      requires Valid() && NextDrawsFor(grade, d)
    {
      if ShouldGenerateNew(d.newRoll) then PickNew(grade, stats, recent, d.newDraws, 0)
      else
        match ReviewQuestion(Available(), d.selectRoll, now)
        case Some(q) => Success(q)
        case None => PickNew(grade, stats, recent, d.newDraws, 0)
    }

    /** The next question fails only for an unsupported grade. */
    lemma NextQuestionSucceeds(d: NextDraws, now: Instant)
      requires Valid() && NextDrawsFor(grade, d)
      ensures 1 <= grade <= 4 ==> NextQuestion(d, now).Success?
      ensures NextQuestion(d, now).Failure? ==> NextQuestion(d, now) == Failure(UnsupportedGrade(grade))
    {
      PickNewOutcome(grade, stats, recent, d.newDraws, 0);
    }

    /** `get_next_question`: a new fact, else a weighted review, else a new fact after all. */
    method GetNextQuestion(d: NextDraws, now: Instant) returns (r: Result<MathQuestion, GenerationError>)
      requires Valid()
      requires NextDrawsFor(grade, d)
      ensures r == NextQuestion(d, now)
    {
      if ShouldGenerateNew(d.newRoll) {
        r := GenerateNewQuestion(d.newDraws);
        return;
      }
      var selected := SelectFromSrs(d.selectRoll, now);
      if selected.Some? {
        return Success(selected.value);
      }
      r := GenerateNewQuestion(d.newDraws);
    }

    /** `load_stats`: replaces the stats by the decoded records; a failing record stops the load. */
    method LoadStats(data: seq<Dict>) returns (error: Option<DecodeError>)
      requires Valid()
      modifies this
      ensures Valid() && KeysMatch(stats)
      ensures (stats, order) == IndexStats(DecodeUntilFailure(data).records)
      ensures error == DecodeUntilFailure(data).error
      ensures recent == old(recent) && sessionAsked == old(sessionAsked) && grade == old(grade)
    {
      stats := map[];
      order := [];
      for i := 0 to |data|
        invariant recent == old(recent) && sessionAsked == old(sessionAsked) && grade == old(grade)
        invariant DecodeUntilFailure(data[..i]).error.None?
        invariant (stats, order) == IndexStats(DecodeUntilFailure(data[..i]).records)
      {
        ghost var prior := DecodeUntilFailure(data[..i]);
        assert data[..i + 1][..i] == data[..i];
        var decoded := StatsFromDict(data[i]);
        if decoded.Failure? {
          assert DecodeUntilFailure(data[..i + 1]) == Decoded(prior.records, Some(decoded.error));
          DecodeStopsAtFailure(data, i + 1);
          IndexStatsKeyed(prior.records);
          return Some(decoded.error);
        }
        var s := decoded.value;
        assert DecodeUntilFailure(data[..i + 1]) == Decoded(prior.records + [s], None);
        assert (prior.records + [s])[..|prior.records|] == prior.records;
        if s.questionId !in stats {
          order := order + [s.questionId];
        }
        stats := stats[s.questionId := s];
      }
      assert data[..|data|] == data;
      IndexStatsKeyed(DecodeUntilFailure(data).records);
      return None;
    }

    /** `export_stats`: each record's dictionary, which `from_dict` reads back unchanged. */
    function ExportStats(): (data: seq<Dict>)
      reads this
      requires Valid()
      ensures |data| == |order|
      ensures forall i :: 0 <= i < |data| ==> StatsFromDict(data[i]) == Success(stats[order[i]])
    {
      var data := ToDicts(ExportRecords(stats, order));
      assert forall i :: 0 <= i < |data| ==> StatsFromDict(data[i]) == Success(stats[order[i]]) by {
        forall i | 0 <= i < |data| ensures StatsFromDict(data[i]) == Success(stats[order[i]]) {
          StatsRoundTrip(stats[order[i]]);
        }
      }
      data
    }

    /** `get_weak_areas`, `get_strong_areas`: names of the codes passing the threshold, ranked. */
    method Areas(strong: bool) returns (areas: seq<string>)
      requires Valid()
      ensures areas == Names(Selected(Ranked(order, stats, strong), strong), strong)
    {
      var tallies: seq<OpTally> := [];
      for i := 0 to |order|
        invariant tallies == Tally(order[..i], stats, strong)
      {
        assert order[..i + 1][..i] == order[..i];
        var id := order[i];
        var s := stats[id];
        if Counted(s, strong) {
          tallies := AddToTally(tallies, OpCode(id), s);
        }
      }
      assert order[..|order|] == order;
      var accuracies: Ranking := [];
      for j := 0 to |tallies|
        invariant accuracies == Accuracies(tallies[..j])
      {
        assert tallies[..j + 1][..j] == tallies[..j];
        var t := tallies[j];
        if t.attempts > 0 {
          accuracies := accuracies + [(t.op, t.correct as real / t.attempts as real)];
        }
      }
      assert tallies[..|tallies|] == tallies;
      var ranked := SortByKey(accuracies, strong);
      areas := Names(Selected(ranked, strong), strong);
    }

    /** `get_weak_areas`: the operations below 70% accuracy, weakest first. */
    method GetWeakAreas() returns (areas: seq<string>)
      requires Valid()
      ensures areas == Names(Selected(Ranked(order, stats, false), false), false)
    {
      areas := Areas(false);
    }

    /** `get_strong_areas`: the operations at 80% or more with enough attempts, strongest first. */
    method GetStrongAreas() returns (areas: seq<string>)
      requires Valid()
      ensures areas == Names(Selected(Ranked(order, stats, true), true), true)
    {
      areas := Areas(true);
    }
  }

  /** Once a record fails to decode, later records are not read. */
  lemma {:induction false} DecodeStopsAtFailure(data: seq<Dict>, i: nat)
    requires i <= |data|
    requires DecodeUntilFailure(data[..i]).error.Some?
    ensures DecodeUntilFailure(data) == DecodeUntilFailure(data[..i])
    decreases |data| - i
  {
    if i < |data| {
      assert data[..i + 1][..i] == data[..i];
      DecodeStopsAtFailure(data, i + 1);
    } else {
      assert data[..i] == data;
    }
  }
}
