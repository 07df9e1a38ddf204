# Mathe-Quiz: a verified model of the quiz engine

This project models the core of a German primary-school arithmetic quiz, an
Alexa skill. The model covers:

- **The question generator.** A fixed table of four grades, four operations
  with their operand constraints, and the question identifier
  `"<code>_<operand1>_<operand2>"`.
- **The Leitner-box scheduler.** Five boxes; a right answer moves a fact up
  one box and a wrong one sends it back to box 1. A recent-list of the last
  five ids keeps facts from repeating. A review fact is drawn by box weight
  and time since it was last asked. New facts come from the generator, with
  up to 20 retries, and a fact is rebuilt from its id. Summaries report weak
  and strong operations.
- **The persisted records.** Per-question statistics and the learner
  profile, each with its dictionary form.
- **The persistence manager.** One stored item per account holds a
  dictionary per player. The manager covers session counters and streaks,
  backfilling a missing `question_id` from its key, player-name
  normalisation, and the dirty-flag and commit discipline.
- **The rules in the voice handlers.** The end-of-quiz verdict, the session
  form of a question, the grade-change rule, and the quiz session counters,
  which end the quiz after ten questions.

## How the model is built

- **Modules.** There is one module per source file: `MathQuestions`, `Srs`
  (with `LeitnerSelection` and `MasteryAreas` for its selection and
  summaries), `Models`, `PlayerNames` and `Persistence`, `Helpers`,
  `Settings` and `Quiz`. `Text` holds the decimal, split, strip and lower
  routines of Python that these rely on, and `Wrappers` holds
  `Option`/`Result`.
- **Classes.** The objects whose fields the source updates in place are
  classes:
  - `Srs.SpacedRepetition`;
  - `Persistence.PersistenceManager`;
  - `Quiz.QuizSession`, which holds the session attributes.

  Their methods are proved against specification functions. For example,
  `GetNextQuestion` returns `NextQuestion(d, now)`, and the properties are
  proved about those functions.
- **Randomness** is explicit:
  - every `random.randint`, `random.choice` and `random.random` value is a
    parameter (`Draws`, `NextDraws`, `u`);
  - a `requires` states the range the Python call draws from.
- **The clock** is a parameter `now: Instant`, in microseconds.
- **Timestamps.** An ISO timestamp in storage is the abstract value `VTime`.
  `isoformat` and `fromisoformat` are therefore exact inverses.
- **Floats** are exact `real`s:
  - box weights and the time factor;
  - accuracies.

  The accuracy thresholds are also proved equal to integer cross-multiplied
  tests (`ThresholdsAsCounts`, `QuizEndCategorySpec`).
- **Python dictionary insertion order** is kept where it matters: the
  scheduler's statistics carry an `order` sequence of keys beside the map.
  That order decides the candidate order of the weighted draw, the order of
  the summaries and the export order.
- **Raised exceptions** become `Failure` values:
  - `GenerationError` (unsupported grade, operation not available);
  - `DecodeError` (a required key missing, a stored value of the wrong kind).
    The model also rejects some wrongly typed values that Python keeps, and
    reads some leniently where Python raises. "## Left out" lists each case.

**Where the code and its own description differ, the model follows the
code:**

- Grade 1 offers addition only, over 1..10. The repository's tests expect
  subtraction and 0..20.
- `_generate_addition` says the sum does not exceed the grade's maximum, but
  it can. Grade 1 can draw 10 + 1 = 11.
  - `MathQuestions.AdditionSumBound` states exactly when the sum stays in
    range.
  - `MathQuestions.GradeOneAdditionCanExceedRange` shows the draw that
    leaves it.

## Model

| member | source | states |
|---|---|---|
| Text.IntToString | lambda/alexa/math_questions.py:103 | `str(n)` is non-empty, all decimal digits except a leading minus sign |
| Text.ParseIntToString | lambda/alexa/srs.py:242-243 | `int(str(n)) == n` for every integer, so the operands written into an id read back exactly |
| Text.Split | lambda/alexa/srs.py:237 | `split("_")` yields at least one part and no part contains the separator |
| Text.JoinSplit | lambda/alexa/srs.py:237 | joining the parts of `split` with the separator gives back the original string: splitting loses nothing |
| Text.Lower | lambda/alexa/persistence.py:57 | `lower()` keeps the length and lowers each character |
| Text.LowerIdempotent | lambda/alexa/handlers/settings.py:59 | lowering twice is lowering once |
| Text.Strip | lambda/alexa/persistence.py:57 | `strip()` leaves no white space at either end and never lengthens the string |
| Text.StripTrims | lambda/alexa/persistence.py:57 | `strip()` returns one contiguous slice of the input; everything before it and after it is white space |
| Models.NewQuestionStats | lambda/alexa/models.py:21-25 | a new record has the given id, 0 correct and 0 incorrect answers, no last-asked time, box 1 and the neutral accuracy 0.5 |
| Models.Accuracy | lambda/alexa/models.py:33-37 | 0.5 with no attempts; otherwise the share of correct answers, which lies in [0, 1] for non-negative counts |
| Models.StatsToDict | lambda/alexa/models.py:39-47 | the dictionary form has exactly the five record keys |
| Models.IntField | lambda/alexa/models.py:58-61 | an absent key reads as its default, a stored integer reads as itself, any other stored kind is an error |
| Models.TimeField | lambda/alexa/models.py:52-54 | an absent or falsy timestamp reads as None; a stored timestamp reads as itself |
| Models.OptionalStringField | lambda/alexa/models.py:114 | an absent or null name reads as None; a stored string reads as itself |
| Models.RequiredStringField | lambda/alexa/models.py:57 | a missing required key is a MissingKey error; a stored string reads as itself |
| Models.StatsFromDict | lambda/alexa/models.py:50-62 | `from_dict` fails without `question_id`; a missing count is 0, a missing box is 1, an absent or null last-asked is None, and the id is the stored one |
| Models.StatsRoundTrip | lambda/alexa/models.py:39-62 | `from_dict(to_dict(s))` gives back every field of `s` |
| Models.StatsFromIdOnly | lambda/alexa/models.py:50-62 | a dictionary holding only the id decodes to the same record the constructor defaults give |
| Models.NewUserProfile | lambda/alexa/models.py:70-78 | a new profile has the given id, name and creation time, grade 1, 0 answered, 0 correct, both streaks 0, no last session and overall accuracy 0 |
| Models.OverallAccuracy | lambda/alexa/models.py:81-85 | 0.0 with no answers, otherwise total correct over total answered |
| Models.ProfileToDict | lambda/alexa/models.py:87-99 | the dictionary form has exactly the nine profile keys |
| Models.ProfileFromDict | lambda/alexa/models.py:101-122 | `from_dict` fails without `user_id`; a missing name is None, grade 1, counters 0, and creation time the current time |
| Models.ProfileFromDictReads | lambda/alexa/models.py:101-122 | a decoded profile's user id is the stored `user_id`, and an absent or null `last_session` reads as None |
| Models.ProfileRoundTrip | lambda/alexa/models.py:87-122 | `from_dict(to_dict(p))` gives back every field of `p`, timestamps included |
| Models.ProfileFromUserIdOnly | lambda/alexa/models.py:101-122 | a stored profile holding only the user id reads as a new profile without a name |
| MathQuestions.Code | lambda/alexa/math_questions.py:14-20 | each operation code is three characters with no underscore, so it survives splitting an id |
| MathQuestions.CodeRoundTrip | lambda/alexa/srs.py:246-252 | the code table read backwards gives the operation back, and a recognised code is exactly that operation's code |
| MathQuestions.Range | lambda/alexa/math_questions.py:55 | `list(range(lo, hi))` holds lo, lo+1, ..., hi-1 and is empty when hi <= lo |
| MathQuestions.GetGradeConfig | lambda/alexa/math_questions.py:299-303 | succeeds exactly for grades 1..4, else an unsupported-grade error; every grade offers addition, division exactly from grade 3, and the configuration is well formed |
| MathQuestions.GetAvailableOperations | lambda/alexa/math_questions.py:292-296 | succeeds exactly for grades 1..4; the list starts with addition and is addition alone exactly for grade 1 |
| MathQuestions.GradeOneIsAdditionOnly | lambda/alexa/math_questions.py:35-39 | grade 1 is addition only over 1..10 with the default tables |
| MathQuestions.QuestionId | lambda/alexa/math_questions.py:106-108 | splitting the id at `_` gives exactly the code, the first operand's text and the second operand's text |
| MathQuestions.GenerateAddition | lambda/alexa/math_questions.py:111-138 | for draws operand1 in [min, max] and operand2 in [min, max(min, max - operand1)], the question is those operands with their sum as answer, its id and prompt, within the grade's constraints |
| MathQuestions.GenerateSubtraction | lambda/alexa/math_questions.py:141-166 | for min <= operand2 <= operand1 <= max, the answer is their difference, never negative |
| MathQuestions.GenerateMultiplication | lambda/alexa/math_questions.py:169-197 | one operand is the chosen table, the other the 1..10 factor, swapped exactly when the coin says so; the answer is their product |
| MathQuestions.GenerateDivision | lambda/alexa/math_questions.py:200-224 | the divisor is the chosen table and the dividend divisor × quotient, dividend first; the answer is the quotient, the divisor at least 1 and the division exact |
| MathQuestions.DivisionTablesPositive | lambda/alexa/math_questions.py:202 | in every grade configuration each divisor is at least 1, so a division question never divides by 0 |
| MathQuestions.MultiplicationTablesPositive | lambda/alexa/math_questions.py:171 | in every grade configuration each multiplication table is at least 1 |
| MathQuestions.ExactDivision | lambda/alexa/math_questions.py:207 | a dividend built as divisor × quotient leaves remainder 0 and divides back to the quotient |
| MathQuestions.GenerateWithSpec | lambda/alexa/math_questions.py:228-233 | each operation's generator yields a well-formed question of that operation within the grade's constraints |
| MathQuestions.GenerateQuestionOutcome | lambda/alexa/math_questions.py:254-267 | generation fails with an unsupported-grade error outside 1..4; for grades 1..4 it fails exactly when a requested operation is not in the grade's list, with the operation-not-available error |
| MathQuestions.GenerateAnyOutcome | lambda/alexa/math_questions.py:254-262 | with no operation requested, generation succeeds exactly for grades 1..4 |
| MathQuestions.GenerateQuestionSpec | lambda/alexa/math_questions.py:236-270 | a generated question is well formed (id, prompt and answer agree with the operands), within its grade's constraints, of an operation the grade offers, and of the requested operation if any |
| MathQuestions.CollectSpec | lambda/alexa/math_questions.py:289 | a comprehension over calls that may raise succeeds exactly when every call does, and then holds each call's value in order |
| MathQuestions.GenerateQuestionSetElements | lambda/alexa/math_questions.py:289 | a generated set holds exactly `count` questions, the i-th being what `generate_question` gives for the i-th draws |
| MathQuestions.GenerateQuestionSetFails | lambda/alexa/math_questions.py:289 | a non-positive count gives the empty list; for a positive count the set fails exactly when its first question fails, every question sharing grade and operation |
| MathQuestions.CheckAnswerMeansSolves | lambda/alexa/math_questions.py:82-84 | for a well-formed question, `check_answer(x)` holds exactly when x is the mathematically right answer |
| MathQuestions.GeneratedFactsAreNonNegative | lambda/alexa/math_questions.py:236-270 | every generated question has non-negative operands and a non-negative answer |
| MathQuestions.WithinGradeNonNegative | lambda/alexa/math_questions.py:34-68 | any correctly answered fact within a grade's constraints has non-negative operands and answer |
| MathQuestions.AdditionSumBound | lambda/alexa/math_questions.py:116-122 | the generated sum stays within the grade's maximum exactly when operand1 <= max - min |
| MathQuestions.GradeOneAdditionCanExceedRange | lambda/alexa/math_questions.py:117-122 | in grade 1, drawing operand1 = 10 forces operand2 = 1 and the answer 11, above the range 1..10 |
| LeitnerSelection.BoxWeight | lambda/alexa/srs.py:32-38 | every weight is positive, box 1 weighs 1.0 and a box outside 1..5 weighs 0.1 |
| LeitnerSelection.BoxWeightsHalve | lambda/alexa/srs.py:32-38 | each box is half as likely as the one below it |
| LeitnerSelection.HourFactor | lambda/alexa/srs.py:196-204 | 0.5 under one hour, 1.0 under a day, 1 + h/168 from a day to a week, and 2.0 from a week on; always within [0.5, 2] |
| LeitnerSelection.HourFactorMonotone | lambda/alexa/srs.py:199-204 | the longer a fact has not been asked, the larger its factor |
| LeitnerSelection.TimeFactor | lambda/alexa/srs.py:187-204 | 1.5 for a fact never asked, otherwise the hour factor of the hours since it was last asked; always within [0.5, 2] |
| LeitnerSelection.Weight | lambda/alexa/srs.py:167 | every candidate's final weight is positive |
| LeitnerSelection.Weights | lambda/alexa/srs.py:161-168 | one final weight per candidate, in candidate order |
| LeitnerSelection.PickIndex | lambda/alexa/srs.py:178-185 | the draw always selects an index of the candidate list |
| LeitnerSelection.WeightedPick | lambda/alexa/srs.py:178-185 | the cumulative-sum loop stops at exactly the index `PickIndex` specifies |
| LeitnerSelection.WeightedBoxSelection | lambda/alexa/srs.py:153-185 | the method returns exactly the candidate `Choose` specifies, or nothing when there are no candidates |
| LeitnerSelection.TotalWeightPositive | lambda/alexa/srs.py:174-176 | a non-empty candidate list has a positive total weight, so the zero-total fallback never runs |
| LeitnerSelection.ChooseIsCandidate | lambda/alexa/srs.py:178-185 | the selected stats are one of the candidates |
| LeitnerSelection.PrefixSumMonotone | lambda/alexa/srs.py:179-183 | running sums of non-negative weights never decrease |
| LeitnerSelection.SelectFromReaches | lambda/alexa/srs.py:180-185 | for r within the total, the loop stops at an index whose running sum reaches r while the running sum before it is still below r |
| LeitnerSelection.SelectionSlices | lambda/alexa/srs.py:178-185 | for a draw r in [0, total], candidate k is chosen exactly when r lies in its slice of the running sums, a slice as wide as its weight |
| LeitnerSelection.GroupByBoxSpec | lambda/alexa/srs.py:140-142 | grouping by box gives one group per box that occurs, no box twice, each holding exactly that box's stats in their order |
| LeitnerSelection.CandidatesArePermutation | lambda/alexa/srs.py:161-168 | the candidate list is a rearrangement of the available stats, none lost or added |
| MasteryAreas.SortByKeySpec | lambda/alexa/srs.py:360 | Python's `sorted` by key is ordered, a permutation of its input, and stable: entries sharing a key keep their order |
| MasteryAreas.AreaName | lambda/alexa/srs.py:351-359 | a code outside add/sub/mul/div is named by itself |
| MasteryAreas.Selected | lambda/alexa/srs.py:358-362 | the kept entries are exactly the ranked entries passing the threshold |
| MasteryAreas.SelectedSorted | lambda/alexa/srs.py:358-362 | filtering keeps the ranking's order |
| MasteryAreas.Names | lambda/alexa/srs.py:358-359 | one name per kept entry, in order, each its code's area name |
| MasteryAreas.TallySpec | lambda/alexa/srs.py:330-340 | the tally has one entry per operation code, each holding the summed correct answers and attempts of that code's counted facts; a code without an entry has none |
| MasteryAreas.AccuraciesSpec | lambda/alexa/srs.py:343-348 | each accuracy comes from a tally with positive attempts, and every such tally has its correct/attempts accuracy |
| MasteryAreas.RankedMembers | lambda/alexa/srs.py:358-360 | ranking neither drops nor adds accuracies |
| MasteryAreas.RankedSorted | lambda/alexa/srs.py:360 | the ranking is ascending for the weak areas and descending for the strong ones |
| MasteryAreas.RankedEntries | lambda/alexa/srs.py:344-348 | each ranked accuracy is its code's summed correct answers over its summed attempts |
| MasteryAreas.RankedCoversOps | lambda/alexa/srs.py:343-348 | every code with positive summed attempts is ranked |
| MasteryAreas.ThresholdsAsCounts | lambda/alexa/srs.py:361 | weak means 10·correct < 7·attempts (strict) and strong means 5·correct >= 4·attempts (inclusive) |
| Srs.FloorDivIsFloor | lambda/alexa/srs.py:264 | `//` gives the largest quotient q with q·b <= a for a positive divisor, mirrored for a negative one |
| Srs.ReconstructQuestion | lambda/alexa/srs.py:236-287 | a question comes back exactly when the id splits into three parts with a known code and two integers; it then echoes the id and carries those operands and operation |
| Srs.ReconstructedAnswer | lambda/alexa/srs.py:256-266 | the rebuilt answer is right for addition, subtraction and multiplication; for division it is the floor quotient, and 0 for a zero divisor |
| Srs.ReconstructFromId | lambda/alexa/srs.py:236-285 | rebuilding the id `generate_question_id(op, a, b)` recovers op, a and b |
| Srs.ReconstructWellFormed | lambda/alexa/srs.py:236-285 | a well-formed question is rebuilt from its id exactly, answer and prompt included |
| Srs.EvaluateSolves | lambda/alexa/srs.py:256-264 | whenever a right answer exists, the rebuilt answer is it |
| Srs.GeneratedQuestionReconstructs | lambda/alexa/srs.py:229-287 | every generated question is rebuilt exactly from its id |
| Srs.OrderedKeysInsert | lambda/alexa/srs.py:298-299 | inserting a key keeps the key order listing every key once, a new key going last |
| Srs.Lookup | lambda/alexa/srs.py:298-299 | a known id gets its stored record, and an id never answered gets a fresh record |
| Srs.Answered | lambda/alexa/srs.py:303-313 | one more attempt: a right answer adds a correct answer and moves up one box, at most 5; a wrong one adds an incorrect answer and resets to box 1; last asked becomes now; boxes in 1..5 stay in 1..5 |
| Srs.AnswerKeepsBoxesInRange | lambda/alexa/srs.py:304-311 | recording an answer keeps every box within 1..5 |
| Srs.AnswerKeepsKeysMatch | lambda/alexa/srs.py:298-299 | recording an answer keeps every record filed under its own id |
| Srs.PushRecent | lambda/alexa/srs.py:316-319 | the recent-list ends with the id, keeps at most five entries, and drops only its oldest entry when full |
| Srs.RecentIsLastFive | lambda/alexa/srs.py:316-319 | after any sequence of answers the recent-list is the last five ids asked |
| Srs.ReplayKeepsBoxesInRange | lambda/alexa/srs.py:304-311 | boxes that start within 1..5 stay there across any sequence of answers |
| Srs.AvailableIds | lambda/alexa/srs.py:116 | the available ids are exactly the stored ids not in the recent-list |
| Srs.AvailableStats | lambda/alexa/srs.py:132-134 | the available stats are the records of the available ids, in dictionary order |
| Srs.GroupAvailable | lambda/alexa/srs.py:140-142 | the grouping loop builds exactly the box groups `GroupByBox` specifies, whose properties `LeitnerSelection.GroupByBoxSpec` proves |
| Srs.ChosenReviewExists | lambda/alexa/srs.py:136-148 | a review is drawn exactly when some fact is available |
| Srs.ChosenReviewIsAvailable | lambda/alexa/srs.py:145-151 | the drawn review is one of the available facts |
| Srs.ReviewIsNotRecent | lambda/alexa/srs.py:131-151 | a review question is a stored fact not in the recent-list |
| Srs.PickNewUnfold | lambda/alexa/srs.py:210-224 | each attempt stops on an error or an acceptable fact and otherwise moves on to the next draw |
| Srs.PickNewOutcome | lambda/alexa/srs.py:206-227 | a new question is found exactly when the grade is supported, else the unsupported-grade error |
| Srs.PickNewChoice | lambda/alexa/srs.py:206-227 | the new question is one of the generated ones and is acceptable (not recent, and unknown or in box 3 or higher) unless it is the final fallback draw |
| Srs.IndexStatsKeyed | lambda/alexa/srs.py:430-433 | loading stores each record under its own id and lists each id once |
| Srs.DecodeToDicts | lambda/alexa/srs.py:431-433 | decoding the exported dictionaries gives back every record without error |
| Srs.ExportLoadRoundTrip | lambda/alexa/srs.py:423-442 | `load_stats(export_stats())` restores the statistics and their order |
| Srs.DecodeStopsAtFailure | lambda/alexa/srs.py:431-433 | once a record fails to decode, later records are not read |
| Srs.SpacedRepetition.constructor | lambda/alexa/srs.py:52-69 | the given statistics and grade, with no session history and an empty recent-list |
| Srs.SpacedRepetition.RecordAnswer | lambda/alexa/srs.py:289-319 | only the answered id's record changes, as `Answered` specifies, with a fresh right answer landing in box 2; a new id is appended to the key order; the id joins the session set and the recent-list |
| Srs.SpacedRepetition.TrackAsked | lambda/alexa/srs.py:315-319 | the id joins the session set and the recent-list; the statistics are untouched |
| Srs.SpacedRepetition.ResetSession | lambda/alexa/srs.py:418-421 | the session set and recent-list become empty and the statistics, their order and the grade are untouched |
| Srs.SpacedRepetition.ShouldGenerateNew | lambda/alexa/srs.py:110-122 | a new fact is chosen exactly when every stored id is recent (in particular when none is stored) or the roll is below 0.3 |
| Srs.SpacedRepetition.SelectFromSrs | lambda/alexa/srs.py:124-151 | the method returns the review question `ReviewQuestion` specifies for the available facts and the draw |
| Srs.SpacedRepetition.GenerateNewQuestion | lambda/alexa/srs.py:206-227 | the retry loop returns exactly what `PickNew` specifies |
| Srs.SpacedRepetition.NextQuestionSucceeds | lambda/alexa/srs.py:86-108 | the next question fails only with an unsupported-grade error, and never for grades 1..4 |
| Srs.SpacedRepetition.GetNextQuestion | lambda/alexa/srs.py:86-108 | the method returns exactly what `NextQuestion` specifies: new, else a weighted review, else new after all |
| Srs.SpacedRepetition.LoadStats | lambda/alexa/srs.py:423-433 | the statistics become the records decoded before the first failure, each under its id, in record order; the session is untouched |
| Srs.SpacedRepetition.ExportStats | lambda/alexa/srs.py:435-442 | one dictionary per record in dictionary order, each of which `from_dict` reads back as that record |
| Srs.SpacedRepetition.Areas | lambda/alexa/srs.py:321-404 | the tally-and-rank loops give exactly the names of the ranked codes passing the threshold |
| Srs.SpacedRepetition.GetWeakAreas | lambda/alexa/srs.py:321-364 | the names of the codes under 70% accuracy, weakest first, facts without attempts skipped |
| Srs.SpacedRepetition.GetStrongAreas | lambda/alexa/srs.py:366-404 | the names of the codes with at least 80% accuracy, strongest first, facts with fewer than three attempts skipped |
| PlayerNames.NormalizedIsLower | lambda/alexa/persistence.py:57 | a normalised name has no upper-case letter left |
| PlayerNames.NormalizeFixed | lambda/alexa/persistence.py:102 | a lower-case name without surrounding white space is already normalised |
| PlayerNames.NormalizeIdempotent | lambda/alexa/persistence.py:102-105 | normalising a stored name again changes nothing, so storing and comparing agree |
| Persistence.InitialPlayer | lambda/alexa/persistence.py:55-61 | a non-empty argument name is used normalised; otherwise a non-empty `current_player` string of the session is used normalised; with neither there is none; a chosen player is always normalised |
| Persistence.WithPlayerData | lambda/alexa/persistence.py:89-92 | the player's dictionary is replaced, the players dictionary is created if absent, and every other player and attribute is untouched |
| Persistence.Backfill | lambda/alexa/persistence.py:190-192 | a record lacking `question_id` gets its key as id; one that has it is unchanged; no other field changes |
| Persistence.DecodeEntry | lambda/alexa/persistence.py:189-193 | a stored entry that is not a dictionary fails; a decoded record lacking an id takes its key |
| Persistence.DecodedAll | lambda/alexa/persistence.py:188-195 | the loaded statistics have exactly the stored keys |
| Persistence.DecodedIds | lambda/alexa/persistence.py:190-193 | a loaded record's id is its key when the stored record lacked an id or agreed |
| Persistence.BackfillAll | lambda/alexa/persistence.py:189-192 | backfilling keeps the stored keys |
| Persistence.StatsDataIn | lambda/alexa/persistence.py:186 | a player without statistics has the empty statistics map |
| Persistence.EncodeStats | lambda/alexa/persistence.py:206-209 | the stored statistics have exactly the keys of the saved map |
| Persistence.EncodeStatsLoop | lambda/alexa/persistence.py:207-209 | the loop builds exactly `EncodeStats` |
| Persistence.StatsMapRoundTrip | lambda/alexa/persistence.py:178-212 | statistics saved by `save_question_stats` load back unchanged through `get_question_stats` |
| Persistence.EntryRoundTrip | lambda/alexa/persistence.py:189-193 | one stored record decodes to itself whatever key it is filed under |
| Persistence.SavedStatsLoad | lambda/alexa/persistence.py:197-212 | a player's data after saving statistics holds them in a form that loads back as those statistics |
| Persistence.ProfileIn | lambda/alexa/persistence.py:147-165 | without a stored profile, a new profile for the user id and player name; a stored profile that is not a dictionary fails |
| Persistence.SavedProfileLoads | lambda/alexa/persistence.py:147-176 | a saved profile is the one loaded back |
| Persistence.DefaultSessionStats | lambda/alexa/persistence.py:222-232 | missing session statistics read as all five counters at 0 and no last session |
| Persistence.SessionStatsIn | lambda/alexa/persistence.py:214-232 | the stored session statistics, or the all-zero default when absent; a stored value that is not a dictionary is a `WrongType` error |
| Persistence.ApplyAnswers | lambda/alexa/persistence.py:262-276 | fails exactly when a counter it reads is stored as a non-integer; otherwise totals grow by the answered and correct counts, the streak resets to 0 or grows by the correct answers, the best streak becomes the larger of old best and new streak, the last session is now, every other stored key is kept, and no key other than these counters and `last_session` is added |
| Persistence.BestStreakMonotone | lambda/alexa/persistence.py:272-274 | the best streak never decreases and is at least the current streak afterwards |
| Persistence.StartSession | lambda/alexa/persistence.py:281-285 | the session count grows by exactly 1, the last session is now, and nothing else changes |
| Persistence.FirstUpdate | lambda/alexa/persistence.py:222-270 | a player without session statistics starts every counter from zero |
| Persistence.BackfillAndDecode | lambda/alexa/persistence.py:188-195 | the loop succeeds exactly when every stored entry decodes, then yields `DecodedAll` with every entry backfilled; on failure the entries are partly backfilled |
| Persistence.PersistenceManager.constructor | lambda/alexa/persistence.py:40-61 | nothing loaded, not dirty, and the player from `InitialPlayer` |
| Persistence.PersistenceManager.LoadAttributes | lambda/alexa/persistence.py:136-145 | the stored item is loaded on first use and the working copy is returned afterwards |
| Persistence.PersistenceManager.PlayerData | lambda/alexa/persistence.py:67-78 | the current player's dictionary, empty without a player, and then nothing is loaded |
| Persistence.PersistenceManager.SavePlayerData | lambda/alexa/persistence.py:80-93 | without a player, a no-op that leaves the dirty flag alone; otherwise the working copy holds the data and is dirty |
| Persistence.PersistenceManager.SetCurrentPlayer | lambda/alexa/persistence.py:95-105 | the player becomes the normalised name, also remembered in the session |
| Persistence.PersistenceManager.IsKnownPlayer | lambda/alexa/persistence.py:122-134 | true exactly when the normalised name has an entry under `players` |
| Persistence.PersistenceManager.IsNewPlayer | lambda/alexa/persistence.py:300-310 | true exactly when there is no player or no stored profile |
| Persistence.PersistenceManager.GetUserProfile | lambda/alexa/persistence.py:147-165 | the result is `ProfileIn` of the player's data: a new profile when none is stored; nothing is marked dirty |
| Persistence.PersistenceManager.SaveUserProfile | lambda/alexa/persistence.py:167-176 | the profile's dictionary replaces the stored one and the copy is dirty; a no-op without a player |
| Persistence.PersistenceManager.GetQuestionStats | lambda/alexa/persistence.py:178-195 | succeeds exactly when the stored statistics are a dictionary whose every record decodes, giving `DecodedAll`; the backfilled records are written into the working copy without marking it dirty |
| Persistence.PersistenceManager.SaveQuestionStats | lambda/alexa/persistence.py:197-212 | the statistics replace the stored ones in dictionary form and the copy is dirty; a no-op without a player |
| Persistence.PersistenceManager.GetSessionStats | lambda/alexa/persistence.py:214-232 | the result is `SessionStatsIn` of the player's data |
| Persistence.PersistenceManager.SaveSessionStats | lambda/alexa/persistence.py:234-243 | the dictionary replaces the stored session statistics and the copy is dirty; a no-op without a player |
| Persistence.PersistenceManager.UpdateSessionStats | lambda/alexa/persistence.py:245-279 | returns `UpdatedSessionStats` and stores it (dirty); a failure saves nothing |
| Persistence.PersistenceManager.IncrementSessionCount | lambda/alexa/persistence.py:281-286 | stores `StartSessionIn` (dirty) when it succeeds; a failure saves nothing |
| Persistence.PersistenceManager.Commit | lambda/alexa/persistence.py:288-298 | writes the working copy and clears the flag only when dirty and loaded; otherwise nothing changes |
| Persistence.OverwritePlayerData | lambda/alexa/persistence.py:92 | a second write of a player's dictionary replaces the first |
| Persistence.SrsSaved | lambda/alexa/persistence.py:345-372 | the committed item holds the statistics, and the updated session counters when something was answered; other players are untouched; it fails exactly when that update does |
| Persistence.SrsSavedStatsLoad | lambda/alexa/persistence.py:345-372 | what `save_srs_data` commits loads back as the statistics it was given |
| Persistence.SaveSrsData | lambda/alexa/persistence.py:345-372 | without a session player nothing is written; otherwise the stored item becomes `SrsSaved`, and on failure nothing is written |
| Helpers.QuizEndCategorySpec | lambda/alexa/handlers/helpers.py:67-76 | perfect exactly when all are right (checked first); otherwise great at 5·correct >= 4·total, else good at 2·correct >= total, else keep practicing; exactly one category applies |
| Helpers.QuizEndCategoryMonotone | lambda/alexa/handlers/helpers.py:69-76 | for a fixed total, more right answers never give a lower category |
| Helpers.Serialize | lambda/alexa/handlers/helpers.py:79-88 | the operation is stored as its code |
| Helpers.SerializeRoundTrip | lambda/alexa/handlers/helpers.py:79-88 | serialising loses nothing: id, operands, answer and text are copied unchanged, and every readable stored question is a serialised one |
| Helpers.OperationWordSpec | lambda/alexa/handlers/helpers.py:58 | each operation code is spoken as its word, and an unknown code as itself |
| Quiz.ParseAnswerSpec | lambda/alexa/handlers/quiz.py:96-99 | every integer said as its decimal text is understood; a missing or empty slot is not |
| Quiz.Drawn | lambda/alexa/handlers/quiz.py:159-166 | one outcome per `get_next_question` call |
| Quiz.DrawnAt | lambda/alexa/handlers/quiz.py:159-166 | the j-th outcome is what the j-th call returns |
| Quiz.RedrawnIsDrawn | lambda/alexa/handlers/quiz.py:159-167 | the question settled on is one of the draws |
| Quiz.RedrawnRepeats | lambda/alexa/handlers/quiz.py:165-167 | the settled question repeats one of the quiz only when every draw did |
| Quiz.Redraw | lambda/alexa/handlers/quiz.py:159-167 | the loop draws at most ten more times while the question was already asked, returning `Redrawn` |
| Quiz.StoreAnswer | lambda/alexa/handlers/quiz.py:112-125 | the answer is recorded in the SRS exactly once, as `RecordAnswer` specifies |
| Quiz.QuizSession.constructor | lambda/alexa/handlers/quiz.py:81-82 | a new conversation: state NONE and every counter at its default 0 |
| Quiz.QuizSession.Start | lambda/alexa/handlers/quiz.py:34-61 | the SRS session is reset, keeping the statistics; then state QUIZ, the first question current, one question asked, none right, and the session questions its id |
| Quiz.QuizSession.Begin | lambda/alexa/handlers/quiz.py:50-55 | the session attributes of a new quiz asking the given question |
| Quiz.QuizSession.Answer | lambda/alexa/handlers/quiz.py:79-183 | an answer that is not an integer changes nothing; otherwise the SRS record is updated once, the right-answer count grows by 1 exactly when the answer is right, and after ten questions the quiz ends (state NONE, no new question); otherwise the count asked grows by one and the next question's id is appended |
| Quiz.QuizSession.Advance | lambda/alexa/handlers/quiz.py:127-172 | counts the answer, then ends the quiz at ten questions or asks the redrawn question |
| Settings.NewGradeInRange | lambda/alexa/handlers/settings.py:49-63 | from a grade in 1..4 every request ends in 1..4 |
| Settings.ExplicitGrade | lambda/alexa/handlers/settings.py:51-55 | saying a grade from 1 to 4 selects it |
| Settings.InvalidGradeKeepsCurrent | lambda/alexa/handlers/settings.py:51-57 | a grade that is not an integer or is outside 1..4 keeps the current grade |
| Settings.GradeSlotTakesPrecedence | lambda/alexa/handlers/settings.py:51-58 | with a grade slot given, the direction slot is ignored |
| Settings.DirectionSteps | lambda/alexa/handlers/settings.py:58-63 | easier lowers the grade by one (not below 1), harder raises it by one (not above 4), and anything else keeps it |
| Settings.DirectionMonotone | lambda/alexa/handlers/settings.py:58-63 | easier never raises the grade and harder never lowers it |
| Settings.DirectionIgnoresCase | lambda/alexa/handlers/settings.py:59 | the direction is matched regardless of letter case |
| Settings.SetDifficulty | lambda/alexa/handlers/settings.py:30-93 | the profile is saved and committed only when the grade changes; outside a quiz nothing else changes; in a quiz the SRS grade is set to the new grade before the next question is drawn and becomes current |
| Settings.StoreGrade | lambda/alexa/handlers/settings.py:65-68 | the profile with the new grade is stored and committed |
| Settings.ContinueQuiz | lambda/alexa/handlers/settings.py:86-91 | the SRS moves to the new grade, keeping its statistics, and the question drawn at that grade replaces the current one |
| Settings.ShowNext | lambda/alexa/handlers/settings.py:89-91 | a drawn question becomes the current one; a failed draw leaves the session as it was |

## Left out

- Randomness is not modelled as a distribution. Every draw is a parameter
  constrained to the range the Python call draws from. So the statistical
  behaviour is not captured, for example how often box 1 is picked. The
  deterministic selection contract is proved instead.
- The clock (`datetime.now()`) is a parameter `now`. Within one request
  every call sees the same instant.
- ISO timestamp strings are the abstract `VTime`, so formatting and parsing
  them are not modelled.
- Floating-point rounding is not modelled. Weights, factors and accuracies
  are exact reals.
- Two constructs are not modelled at all: `progress.py` with its `round(...)`
  percentages, and `get_session_stats` of the scheduler (`srs.py:406-416`).
- Storage I/O is not modelled. This covers DynamoDB and the ASK attributes
  manager (`persistence.py:136-145`, `persistence.py:296-297`). The stored
  item is the `saved` field; commit assigns it.
- Python aliasing is not modelled. Player dictionaries handed out by
  `_get_player_data` are mutated in place before being saved, but the model
  passes values. The stored results are the same.
- Each handler creates its own scheduler and managers (`get_srs_from_session`,
  `get_persistence_manager`, `save_srs_state`). The model takes the
  scheduler and one manager as parameters:
  - nothing constrains that a handler's scheduler starts with an empty
    recent-list;
  - the answer handler's second manager is the same object as the first
    (equivalent, since the first commits before the second loads).
- Speech, prompts and response building are not modelled:
  - the templates in `data.py`;
  - `get_correct_feedback`;
  - `settings.py:70-83` and `92-98`;
  - the speech in `quiz.py`;
  - the launch, help, setup and progress handlers;
  - the interceptors.
- `load_srs_data`, `get_known_players` and `get_current_player` are not
  modelled. No core rule depends on them.
- Models.IntField: Python's `data.get(key, default)` keeps a stored value
  of any kind; a bool or a float counter even works in later arithmetic.
  The model rejects every non-integer counter with a `WrongType` error. So
  it fails on some items that Python would load.
- Models.RequiredStringField: Python stores `data["question_id"]` and
  `data["user_id"]` whatever their kind. The model rejects a non-string id
  with `WrongType`.
- Models.OptionalStringField: Python stores `data.get("name")` whatever its
  kind. The model rejects a stored name that is neither a string nor null.
- Persistence.PersistenceManager.PlayerData: a `players` value that is not a
  dictionary reads as empty, where `players.get` raises. A player entry that
  is not a dictionary also reads as empty, where Python returns it and the
  next `.get` on it raises. The model covers only well-typed items on these
  paths.
- Persistence.PlayersIn, Persistence.PlayerDataIn and
  Persistence.WithPlayerData: they read the same wrongly typed values as
  empty. The save path then overwrites them, where Python would raise.
- Persistence.InitialPlayer: a `current_player` in the session that is not
  a string reads as no player, where `name.lower()` raises.
- Persistence.SessionStatsIn and Persistence.PersistenceManager.GetSessionStats:
  a stored `session_stats` that is not a dictionary is a `WrongType` error
  at once. Python's `get_session_stats` returns it unchanged and raises only
  at the next `.get`, in `update_session_stats` or `increment_session_count`.
  A caller that reads such a value and never updates it is not modelled.
- Text.Strip and PlayerNames.Normalize: only ASCII white space is removed.
  Python's `strip()` also removes Unicode white space such as U+00A0. So a
  player name surrounded by such characters normalises differently.
- `Text.ParseInt` follows Python's `int()` only partly:
  - it accepts ASCII digits with an optional sign, and strips ASCII white
    space only;
  - Unicode digits, Unicode white space and `_` separators are not
    accepted.
- `Text.Lower` lowers ASCII letters only. Python's `lower()` also maps
  non-ASCII letters.
- The spoken prompt's numbers are their decimal text, as
  `_number_to_german_speech` returns them.
- Quiz.QuizSession.Answer:
  - it requires a current question. The handler reads a missing one as an
    empty dictionary, but every path into state QUIZ sets one.
  - A failed draw of the next question (`Failed`, the source raising) leaves
    the right-answer count already increased. The session is then not
    claimed valid.
- Quiz.StoreAnswer: does not state the stored item afterwards. The
  statistics write is `SaveQuestionStats` plus `Commit`, and the counter
  update is `UpdateSessionStats` plus `Commit`. Those methods state their
  effects.
- Persistence.PersistenceManager.GetQuestionStats: when a record fails part
  way, the contract states only that the working copy is partly backfilled.
  It does not say which entries, because the iteration order of a Python
  dictionary is not modelled there.
- Settings.SetDifficulty: requires the draws to suit the new grade. It is
  stated for one manager, with the scheduler passed in.
- Quiz.Drawn and Helpers.Serialize: their own contracts give only the length
  or the operation code. `Quiz.DrawnAt` and `Helpers.SerializeRoundTrip`
  carry the full statement.
