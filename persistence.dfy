/** Player names as persistence.py stores and compares them. */
module PlayerNames {
  import opened Text

  /** `name.lower().strip()`: how a player name is stored and compared. */
  function Normalize(name: string): string {
    Strip(Lower(name))
  }

  /** Lowering a character twice is lowering it once. */
  lemma LowerCharIdempotent(c: char)
    ensures LowerChar(LowerChar(c)) == LowerChar(c)
  {
  }

  /** Every letter of `s` is already lower case. */
  ghost predicate IsLowerCase(s: string) {
    forall i :: 0 <= i < |s| ==> LowerChar(s[i]) == s[i]
  }

  /** A lowered string has no upper-case letter. */
  lemma LowerIsLowerCase(s: string)
    ensures IsLowerCase(Lower(s))
  {
    forall i | 0 <= i < |s|
      ensures LowerChar(Lower(s)[i]) == Lower(s)[i]
    {
      LowerCharIdempotent(s[i]);
    }
  }

  /** A slice of a string without upper-case letters has none either. */
  lemma SliceIsLowerCase(s: string, lo: int, hi: int)
    requires 0 <= lo <= hi <= |s| && IsLowerCase(s)
    ensures IsLowerCase(s[lo..hi])
  {
    forall i | 0 <= i < hi - lo
      ensures LowerChar(s[lo..hi][i]) == s[lo..hi][i]
    {
      assert s[lo..hi][i] == s[lo + i];
    }
  }

  /** Every letter of a normalised name is already lower case. */
  lemma {:induction false} NormalizedIsLower(name: string)
    ensures IsLowerCase(Normalize(name))
  {
    var lowered := Lower(name);
    LowerIsLowerCase(name);
    var left := TrimLeft(lowered);
    SliceIsLowerCase(lowered, |lowered| - |left|, |lowered|);
    assert IsLowerCase(left);
    var t := TrimRight(left);
    SliceIsLowerCase(left, 0, |t|);
    assert t == Normalize(name);
  }

  /** A string without upper-case letters is its own lowering. */
  lemma LowerOfLower(t: string)
    requires IsLowerCase(t)
    ensures Lower(t) == t
  {
  }

  /** A string with no white space at either end is its own strip. */
  lemma {:induction false} StripOfStripped(t: string)
    requires |t| == 0 || (!IsSpace(t[0]) && !IsSpace(t[|t| - 1]))
    ensures Strip(t) == t
  {
    assert TrimLeft(t) == t;
  }

  /** A lower-case name without surrounding white space is already normalised. */
  lemma NormalizeFixed(t: string)
    requires IsLowerCase(t)
    requires |t| == 0 || (!IsSpace(t[0]) && !IsSpace(t[|t| - 1]))
    ensures Normalize(t) == t
  {
    LowerOfLower(t);
    StripOfStripped(t);
  }

  /** A normalised name normalises to itself, so storing and comparing agree. */
  lemma {:induction false} NormalizeIdempotent(name: string)
    ensures Normalize(Normalize(name)) == Normalize(name)
  {
    NormalizedIsLower(name);
    NormalizeFixed(Normalize(name));
  }
}

/**
 * The persistence manager of persistence.py over an in-memory attribute map.
 * One stored item holds every player of an account under
 * `players.<normalised name>`; each player's dictionary holds the profile,
 * the per-question statistics and the session statistics. Changes go to a
 * working copy that is loaded lazily and written back only by `Commit`,
 * and only when something was saved since.
 */
module Persistence {
  import opened Wrappers
  import opened Text
  import opened Models
  import opened PlayerNames

  const PlayersKey := "players"
  const UserProfileKey := "user_profile"
  const QuestionStatsKey := "question_stats"
  const SessionStatsKey := "session_stats"
  const CurrentPlayerKey := "current_player"

  /** The player a new manager starts with: the argument if non-empty, else `current_player` of the session. */
  function InitialPlayer(playerName: Option<string>, session: Dict): (r: Option<string>)
    ensures playerName.Some? && playerName.value != "" ==> r == Some(Normalize(playerName.value))
    ensures (playerName.None? || playerName.value == "") && CurrentPlayerKey !in session ==> r.None?
    ensures ((playerName.None? || playerName.value == "") && CurrentPlayerKey in session &&
             session[CurrentPlayerKey].VStr? && session[CurrentPlayerKey].s != "") ==>
      r == Some(Normalize(session[CurrentPlayerKey].s))
    ensures r.Some? ==> Normalize(r.value) == r.value
  {
    if playerName.Some? && playerName.value != "" then
      NormalizeIdempotent(playerName.value);
      Some(Normalize(playerName.value))
    else if CurrentPlayerKey in session && session[CurrentPlayerKey].VStr? && session[CurrentPlayerKey].s != "" then
      NormalizeIdempotent(session[CurrentPlayerKey].s);
      Some(Normalize(session[CurrentPlayerKey].s))
    else None
  }

  // The nested attribute map

  /** `attrs.get("players", {})`. */
  function PlayersIn(attrs: Dict): map<string, Value> {
    if PlayersKey in attrs && attrs[PlayersKey].VDict? then attrs[PlayersKey].d else map[]
  }

  /** `players.get(name, {})`: a player's dictionary, empty when unknown. */
  function PlayerDataIn(attrs: Dict, name: string): Dict {
    var players := PlayersIn(attrs);
    if name in players && players[name].VDict? then players[name].d else map[]
  }

  /** `attrs["players"][name] = data`, creating the players dictionary when absent. */
  function WithPlayerData(attrs: Dict, name: string, data: Dict): (r: Dict)
    ensures PlayerDataIn(r, name) == data
    ensures PlayersIn(r).Keys == PlayersIn(attrs).Keys + {name}
    ensures forall other :: other != name ==> PlayerDataIn(r, other) == PlayerDataIn(attrs, other)
    ensures forall k :: k in attrs && k != PlayersKey ==> k in r && r[k] == attrs[k]
    ensures r.Keys == attrs.Keys + {PlayersKey}
  {
    attrs[PlayersKey := VDict(PlayersIn(attrs)[name := VDict(data)])]
  }

  // Question statistics as stored

  /** Older items lack `question_id` inside each record; the key supplies it. */
  function Backfill(id: string, data: Dict): (r: Dict)
    ensures "question_id" in r
    ensures "question_id" in data ==> r == data
    ensures "question_id" !in data ==> r["question_id"] == VStr(id)
    ensures forall k :: k in data ==> k in r && r[k] == data[k]
  {
    if "question_id" in data then data else data["question_id" := VStr(id)]
  }

  /** A stored entry after the backfill; entries that are not dictionaries stay as they are. */
  function BackfilledEntry(id: string, v: Value): Value {
    if v.VDict? then VDict(Backfill(id, v.d)) else v
  }

  /** One step of `get_question_stats`: a stored entry, backfilled and decoded. */
  function DecodeEntry(id: string, v: Value): (r: Result<QuestionStats, DecodeError>)
    ensures !v.VDict? ==> r.Failure?
    ensures r.Success? && "question_id" !in v.d ==> r.value.questionId == id
  {
    if v.VDict? then StatsFromDict(Backfill(id, v.d)) else Failure(WrongType(id))
  }

  /** A stored entry is a dictionary that decodes once backfilled. */
  predicate EntryDecodes(id: string, v: Value) {
    DecodeEntry(id, v).Success?
  }

  /** Every stored entry decodes once its id is backfilled. */
  predicate AllDecode(statsData: map<string, Value>) {
    forall k :: k in statsData ==> EntryDecodes(k, statsData[k])
  }

  /** The result of `get_question_stats` when every entry decodes. */
  function DecodedAll(statsData: map<string, Value>): (r: map<string, QuestionStats>)
    requires AllDecode(statsData)
    ensures r.Keys == statsData.Keys
  {
    map k | k in statsData :: DecodeEntry(k, statsData[k]).value
  }

  /** A decoded record carries its key as id when the stored entry lacks one or agrees with it. */
  lemma DecodedIds(statsData: map<string, Value>, k: string)
    requires AllDecode(statsData) && k in statsData
    ensures "question_id" !in statsData[k].d ==> DecodedAll(statsData)[k].questionId == k
    ensures "question_id" in statsData[k].d && statsData[k].d["question_id"] == VStr(k) ==>
      DecodedAll(statsData)[k].questionId == k
  {
    assert EntryDecodes(k, statsData[k]);
  }

  /** Every stored entry, backfilled: what the working copy holds after a successful load. */
  function BackfillAll(statsData: map<string, Value>): (r: map<string, Value>)
    ensures r.Keys == statsData.Keys
  {
    map k | k in statsData :: BackfilledEntry(k, statsData[k])
  }

  /** Some entries backfilled, the rest untouched: the working copy after a load that failed part-way. */
  ghost predicate PartlyBackfilled(before: map<string, Value>, after: map<string, Value>) {
    after.Keys == before.Keys &&
    forall k :: k in after ==> after[k] == before[k] || after[k] == BackfilledEntry(k, before[k])
  }

  /** `player_data.get("question_stats", {})`, which must be a dictionary. */
  function StatsDataIn(playerData: Dict): (r: Result<map<string, Value>, DecodeError>)
    ensures QuestionStatsKey !in playerData ==> r == Success(map[])
  {
    if QuestionStatsKey !in playerData then Success(map[])
    else if playerData[QuestionStatsKey].VDict? then Success(playerData[QuestionStatsKey].d)
    else Failure(WrongType(QuestionStatsKey))
  }

  /** What `save_question_stats` stores: every record by its id, as `to_dict` gives it. */
  function EncodeStats(stats: map<string, QuestionStats>): (r: map<string, Value>)
    ensures r.Keys == stats.Keys
  {
    map k | k in stats :: VDict(StatsToDict(stats[k]))
  }

  /** The loop of `save_question_stats` building the stored dictionary record by record. */
  method EncodeStatsLoop(stats: map<string, QuestionStats>) returns (statsData: map<string, Value>)
    ensures statsData == EncodeStats(stats)
  {
    statsData := map[];
    var todo := stats.Keys;
    while todo != {}
      invariant todo <= stats.Keys
      invariant statsData.Keys == stats.Keys - todo
      invariant forall k :: k in statsData ==> statsData[k] == VDict(StatsToDict(stats[k]))
      decreases todo
    {
      var id :| id in todo;
      statsData := statsData[id := VDict(StatsToDict(stats[id]))];
      todo := todo - {id};
    }
  }

  /** Statistics saved and loaded again come back unchanged. */
  lemma {:induction false} StatsMapRoundTrip(stats: map<string, QuestionStats>)
    ensures AllDecode(EncodeStats(stats))
    ensures DecodedAll(EncodeStats(stats)) == stats
  {
    var encoded := EncodeStats(stats);
    forall k | k in encoded
      ensures EntryDecodes(k, encoded[k]) && DecodeEntry(k, encoded[k]).value == stats[k]
    {
      EntryRoundTrip(k, stats[k]);
    }
  }

  /** One stored record decodes to itself, whatever key it is filed under. */
  lemma EntryRoundTrip(k: string, s: QuestionStats)
    ensures EntryDecodes(k, VDict(StatsToDict(s)))
    ensures DecodeEntry(k, VDict(StatsToDict(s))).value == s
  {
    StatsRoundTrip(s);
    assert Backfill(k, StatsToDict(s)) == StatsToDict(s);
  }

  /** A player's data after `save_question_stats(stats)` loads back `stats`. */
  lemma SavedStatsLoad(playerData: Dict, stats: map<string, QuestionStats>)
    ensures StatsDataIn(playerData[QuestionStatsKey := VDict(EncodeStats(stats))]) == Success(EncodeStats(stats))
    ensures AllDecode(EncodeStats(stats)) && DecodedAll(EncodeStats(stats)) == stats
  {
    StatsMapRoundTrip(stats);
  }

  // The user profile as stored

  /** `get_user_profile` on a player's data: the stored profile, or a new one. */
  function ProfileIn(playerData: Dict, userId: string, name: Option<string>, now: Instant): (r: Result<UserProfile, DecodeError>)
    ensures UserProfileKey !in playerData ==> r == Success(NewUserProfile(userId, name, now))
    ensures UserProfileKey in playerData && !playerData[UserProfileKey].VDict? ==> r.Failure?
  {
    if UserProfileKey !in playerData then Success(NewUserProfile(userId, name, now))
    else if playerData[UserProfileKey].VDict? then ProfileFromDict(playerData[UserProfileKey].d, now)
    else Failure(WrongType(UserProfileKey))
  }

  /** A profile saved by `save_user_profile` is the one `get_user_profile` returns. */
  lemma {:induction false} SavedProfileLoads(playerData: Dict, p: UserProfile, userId: string, name: Option<string>, now: Instant)
    ensures ProfileIn(playerData[UserProfileKey := VDict(ProfileToDict(p))], userId, name, now) == Success(p)
  {
    ProfileRoundTrip(p, now);
  }

  // Session statistics

  const SessionCounters := {"total_questions", "total_correct", "streak_current", "streak_best", "sessions_count"}

  /** The session statistics of a player who has none yet. */
  function DefaultSessionStats(): (d: Dict)
    ensures d.Keys == SessionCounters + {"last_session"}
    ensures forall k :: k in SessionCounters ==> IntField(d, k, 0) == Success(0)
    ensures d["last_session"] == VNull
  {
    map[
      "total_questions" := VInt(0),
      "total_correct" := VInt(0),
      "streak_current" := VInt(0),
      "streak_best" := VInt(0),
      "sessions_count" := VInt(0),
      "last_session" := VNull
    ]
  }

  /** `get_session_stats` on a player's data. */
  function SessionStatsIn(playerData: Dict): (r: Result<Dict, DecodeError>)
    ensures SessionStatsKey !in playerData ==> r == Success(DefaultSessionStats())
    ensures SessionStatsKey in playerData && playerData[SessionStatsKey].VDict? ==>
      r == Success(playerData[SessionStatsKey].d)
  {
    if SessionStatsKey !in playerData then Success(DefaultSessionStats())
    else if playerData[SessionStatsKey].VDict? then Success(playerData[SessionStatsKey].d)
    else Failure(WrongType(SessionStatsKey))
  }

  /** `stats.get(key, 0) + amount`. */
  function Increased(stats: Dict, key: string, amount: int): Result<int, DecodeError> {
    var n :- IntField(stats, key, 0);
    Success(n + amount)
  }

  /** The body of `update_session_stats` on the statistics dictionary; `now` is the time of the update. */
  function ApplyAnswers(stats: Dict, answered: int, correct: int, resetStreak: bool, now: Instant): (r: Result<Dict, DecodeError>)
    ensures r.Success? <==>
      IntField(stats, "total_questions", 0).Success? && IntField(stats, "total_correct", 0).Success? &&
      (resetStreak || IntField(stats, "streak_current", 0).Success?) && IntField(stats, "streak_best", 0).Success?
    ensures r.Success? ==>
      IntField(r.value, "total_questions", 0) == Success(IntField(stats, "total_questions", 0).value + answered) &&
      IntField(r.value, "total_correct", 0) == Success(IntField(stats, "total_correct", 0).value + correct)
    ensures r.Success? && resetStreak ==> IntField(r.value, "streak_current", 0) == Success(0)
    ensures r.Success? && !resetStreak ==>
      IntField(r.value, "streak_current", 0) == Success(IntField(stats, "streak_current", 0).value + correct)
    ensures r.Success? ==>
      var best := IntField(stats, "streak_best", 0).value;
      var streak := IntField(r.value, "streak_current", 0).value;
      IntField(r.value, "streak_best", 0) == Success(if streak > best then streak else best)
    ensures r.Success? ==> "last_session" in r.value && r.value["last_session"] == VTime(now)
    ensures r.Success? ==> r.value.Keys >= stats.Keys
    ensures r.Success? ==> r.value.Keys <= stats.Keys + (SessionCounters - {"sessions_count"}) + {"last_session"}
    ensures r.Success? ==> forall k :: k in stats && k !in SessionCounters - {"sessions_count"} && k != "last_session" ==> r.value[k] == stats[k]
  {
    var total :- Increased(stats, "total_questions", answered);
    var totalCorrect :- Increased(stats, "total_correct", correct);
    var streak :- if resetStreak then Success(0) else Increased(stats, "streak_current", correct);
    var best :- IntField(stats, "streak_best", 0);
    var updated := stats["total_questions" := VInt(total)]["total_correct" := VInt(totalCorrect)]["streak_current" := VInt(streak)];
    var updated := if streak > best then updated["streak_best" := VInt(streak)] else updated;
    Success(updated["last_session" := VTime(now)])
  }

  /** The best streak never goes down, and is at least the current streak afterwards. */
  lemma BestStreakMonotone(stats: Dict, answered: int, correct: int, resetStreak: bool, now: Instant)
    requires ApplyAnswers(stats, answered, correct, resetStreak, now).Success?
    ensures var after := ApplyAnswers(stats, answered, correct, resetStreak, now).value;
      IntField(after, "streak_best", 0).value >= IntField(stats, "streak_best", 0).value &&
      IntField(after, "streak_best", 0).value >= IntField(after, "streak_current", 0).value
  {
  }

  /** The counter part of `increment_session_count`. */
  function StartSession(stats: Dict, now: Instant): (r: Result<Dict, DecodeError>)
    ensures r.Success? <==> IntField(stats, "sessions_count", 0).Success?
    ensures r.Success? ==> IntField(r.value, "sessions_count", 0) == Success(IntField(stats, "sessions_count", 0).value + 1)
    ensures r.Success? ==> "last_session" in r.value && r.value["last_session"] == VTime(now)
    ensures r.Success? ==> r.value.Keys == stats.Keys + {"sessions_count", "last_session"}
    ensures r.Success? ==> forall k :: k in stats && k != "sessions_count" && k != "last_session" ==> r.value[k] == stats[k]
  {
    var count :- Increased(stats, "sessions_count", 1);
    Success(stats["sessions_count" := VInt(count)]["last_session" := VTime(now)])
  }

  /** `update_session_stats` on a player's data, from reading the statistics to the updated dictionary. */
  function UpdatedSessionStats(playerData: Dict, answered: int, correct: int, resetStreak: bool, now: Instant): Result<Dict, DecodeError> {
    var stats :- SessionStatsIn(playerData);
    ApplyAnswers(stats, answered, correct, resetStreak, now)
  }

  /** A new player's first update starts every counter from zero. */
  lemma FirstUpdate(playerData: Dict, answered: int, correct: int, resetStreak: bool, now: Instant)
    requires SessionStatsKey !in playerData
    ensures var r := UpdatedSessionStats(playerData, answered, correct, resetStreak, now);
      r.Success? &&
      IntField(r.value, "total_questions", 0) == Success(answered) &&
      IntField(r.value, "total_correct", 0) == Success(correct) &&
      IntField(r.value, "streak_current", 0) == Success(if resetStreak then 0 else correct) &&
      IntField(r.value, "sessions_count", 0) == Success(0)
  {
  }

  /**
   * The loop of `get_question_stats`: each stored record is backfilled with
   * its key as `question_id` and decoded, until one fails. `backfilled` is
   * the stored map as the loop leaves it.
   */
  method BackfillAndDecode(statsData: map<string, Value>)
    returns (backfilled: map<string, Value>, r: Result<map<string, QuestionStats>, DecodeError>)
    ensures PartlyBackfilled(statsData, backfilled)
    ensures r.Success? <==> AllDecode(statsData)
    ensures r.Success? ==> r.value == DecodedAll(statsData) && backfilled == BackfillAll(statsData)
  {
    backfilled := statsData;
    var result: map<string, QuestionStats> := map[];
    var todo := statsData.Keys;
    while todo != {}
      invariant todo <= statsData.Keys
      invariant result.Keys == statsData.Keys - todo
      invariant PartlyBackfilled(statsData, backfilled)
      invariant forall k :: k in result ==> backfilled[k] == BackfilledEntry(k, statsData[k])
      invariant forall k :: k in result ==> EntryDecodes(k, statsData[k]) && result[k] == DecodeEntry(k, statsData[k]).value
      decreases todo
    {
      var id :| id in todo;
      backfilled := backfilled[id := BackfilledEntry(id, statsData[id])];
      var decoded := DecodeEntry(id, statsData[id]);
      if decoded.Failure? {
        return backfilled, Failure(decoded.error);
      }
      result := result[id := decoded.value];
      todo := todo - {id};
    }
    AllEntriesDone(statsData, backfilled, result);
    r := Success(result);
  }

  /** When the loop of `BackfillAndDecode` has visited every entry, it has backfilled and decoded them all. */
  lemma AllEntriesDone(statsData: map<string, Value>, backfilled: map<string, Value>, result: map<string, QuestionStats>)
    requires result.Keys == statsData.Keys && backfilled.Keys == statsData.Keys
    requires forall k :: k in result ==> backfilled[k] == BackfilledEntry(k, statsData[k])
    requires forall k :: k in result ==> EntryDecodes(k, statsData[k]) && result[k] == DecodeEntry(k, statsData[k]).value
    ensures AllDecode(statsData)
    ensures backfilled == BackfillAll(statsData)
    ensures result == DecodedAll(statsData)
  {
    EveryEntryBackfilled(statsData, backfilled);
    EveryEntryDecoded(statsData, result);
  }

  /** A map holding every stored entry backfilled is `BackfillAll`. */
  lemma EveryEntryBackfilled(statsData: map<string, Value>, backfilled: map<string, Value>)
    requires backfilled.Keys == statsData.Keys
    requires forall k :: k in statsData ==> backfilled[k] == BackfilledEntry(k, statsData[k])
    ensures backfilled == BackfillAll(statsData)
  {
  }

  /** A map holding every stored entry decoded is `DecodedAll`. */
  lemma EveryEntryDecoded(statsData: map<string, Value>, result: map<string, QuestionStats>)
    requires result.Keys == statsData.Keys
    requires forall k :: k in statsData ==> EntryDecodes(k, statsData[k]) && result[k] == DecodeEntry(k, statsData[k]).value
    ensures AllDecode(statsData)
    ensures result == DecodedAll(statsData)
  {
  }

  class PersistenceManager {
    /** The item as last written to the table (what a new request would load). */
    var saved: Dict
    /** `_persistent_attrs`: None until first used, then the working copy. */
    var attrs: Option<Dict>
    /** `_dirty`: something was saved to the working copy since the last commit. */
    var dirty: bool
    /** `_player_name`, always normalised. */
    var playerName: Option<string>
    /** The session attributes of the request. */
    var session: Dict
    /** The user id of the request envelope. */
    const userId: string

    /** The dirty flag implies loaded attributes, and the current player name is normalised. */
    ghost predicate Valid()
      reads this
    {
      (dirty ==> attrs.Some?) &&
      (playerName.Some? ==> Normalize(playerName.value) == playerName.value)
    }

    /** `if not self._player_name`: no player, or the empty name. */
    predicate HasPlayer()
      reads this
    {
      playerName.Some? && playerName.value != ""
    }

    /** The attributes as the next load would see them. */
    function Loaded(): Dict
      reads this
    {
      if attrs.Some? then attrs.value else saved
    }

    /** `_get_player_data()` as a value. */
    function CurrentData(): Dict
      reads this
    {
      if HasPlayer() then PlayerDataIn(Loaded(), playerName.value) else map[]
    }

    /** The working copy after the current player's data is replaced by `data`. */
    function Stored(data: Dict): Dict
      reads this
      requires HasPlayer()
    {
      WithPlayerData(Loaded(), playerName.value, data)
    }

    /** `PersistenceManager(handler_input, player_name)`. */
    constructor (saved: Dict, session: Dict, userId: string, playerName: Option<string>)
      ensures Valid()
      ensures this.saved == saved && attrs == None && !dirty
      ensures this.session == session && this.userId == userId
      ensures this.playerName == InitialPlayer(playerName, session)
    {
      this.saved := saved;
      attrs := None;
      dirty := false;
      this.session := session;
      this.userId := userId;
      this.playerName := InitialPlayer(playerName, session);
    }

    /** `_load_persistent_attributes`: the stored item on first use, then the working copy. */
    method LoadAttributes() returns (a: Dict)
      requires Valid()
      modifies this
      ensures saved == old(saved) && dirty == old(dirty) && playerName == old(playerName) && session == old(session)
      ensures Valid()
      ensures a == old(Loaded()) && attrs == Some(a)
    {
      if attrs.None? {
        attrs := Some(saved);
      }
      a := attrs.value;
    }

    /** `_get_player_data`: empty without a player, and then nothing is loaded. */
    method PlayerData() returns (data: Dict)
      requires Valid()
      modifies this
      ensures saved == old(saved) && dirty == old(dirty) && playerName == old(playerName) && session == old(session)
      ensures Valid()
      ensures data == old(CurrentData())
      ensures Loaded() == old(Loaded())
      ensures HasPlayer() ==> attrs.Some?
      ensures !HasPlayer() ==> attrs == old(attrs)
    {
      if !HasPlayer() {
        return map[];
      }
      var a := LoadAttributes();
      data := PlayerDataIn(a, playerName.value);
    }

    /** `_save_player_data(data)`: a no-op without a player, otherwise stores and marks dirty. */
    method SavePlayerData(data: Dict)
      requires Valid()
      modifies this
      ensures saved == old(saved) && playerName == old(playerName) && session == old(session)
      ensures Valid()
      ensures HasPlayer() ==> attrs == Some(old(Stored(data))) && dirty
      ensures HasPlayer() ==> CurrentData() == data
      ensures !HasPlayer() ==> attrs == old(attrs) && dirty == old(dirty)
    {
      if !HasPlayer() {
        return;
      }
      var a := LoadAttributes();
      attrs := Some(WithPlayerData(a, playerName.value, data));
      dirty := true;
    }

    /** `set_current_player(name)`: normalised, and remembered in the session. */
    method SetCurrentPlayer(name: string)
      requires Valid()
      modifies this
      ensures saved == old(saved) && attrs == old(attrs) && dirty == old(dirty)
      ensures Valid()
      ensures playerName == Some(Normalize(name))
      ensures session == old(session)[CurrentPlayerKey := VStr(Normalize(name))]
    {
      NormalizeIdempotent(name);
      playerName := Some(Normalize(name));
      session := session[CurrentPlayerKey := VStr(playerName.value)];
    }

    /** `is_known_player(name)`: the normalised name has an entry under `players`. */
    method IsKnownPlayer(name: string) returns (known: bool)
      requires Valid()
      modifies this
      ensures saved == old(saved) && dirty == old(dirty) && playerName == old(playerName) && session == old(session)
      ensures Valid()
      ensures known <==> Normalize(name) in PlayersIn(old(Loaded()))
      ensures attrs == Some(old(Loaded()))
    {
      var a := LoadAttributes();
      known := Normalize(name) in PlayersIn(a);
    }

    /** `is_new_player`: no player, or no stored profile. */
    method IsNewPlayer() returns (isNew: bool)
      requires Valid()
      modifies this
      ensures saved == old(saved) && dirty == old(dirty) && playerName == old(playerName) && session == old(session)
      ensures Valid()
      ensures isNew <==> !HasPlayer() || UserProfileKey !in old(CurrentData())
      ensures Loaded() == old(Loaded())
    {
      if !HasPlayer() {
        return true;
      }
      var data := PlayerData();
      isNew := UserProfileKey !in data;
    }

    /** `get_user_profile`; `now` stands for the creation time of a new profile. */
    method GetUserProfile(now: Instant) returns (r: Result<UserProfile, DecodeError>)
      requires Valid()
      modifies this
      ensures saved == old(saved) && dirty == old(dirty) && playerName == old(playerName) && session == old(session)
      ensures Valid()
      ensures r == ProfileIn(old(CurrentData()), userId, playerName, now)
      ensures Loaded() == old(Loaded())
    {
      var data := PlayerData();
      if UserProfileKey in data {
        if data[UserProfileKey].VDict? {
          return ProfileFromDict(data[UserProfileKey].d, now);
        }
        return Failure(WrongType(UserProfileKey));
      }
      return Success(NewUserProfile(userId, playerName, now));
    }

    /** `save_user_profile(profile)`. */
    method SaveUserProfile(profile: UserProfile)
      requires Valid()
      modifies this
      ensures saved == old(saved) && playerName == old(playerName) && session == old(session)
      ensures Valid()
      ensures HasPlayer() ==>
        attrs == Some(old(Stored(CurrentData()[UserProfileKey := VDict(ProfileToDict(profile))]))) && dirty
      ensures !HasPlayer() ==> attrs == old(attrs) && dirty == old(dirty)
    {
      var data := PlayerData();
      data := data[UserProfileKey := VDict(ProfileToDict(profile))];
      SavePlayerData(data);
    }

    /**
     * `get_question_stats`: every stored record, keyed as stored, with a missing
     * `question_id` taken from its key. The backfill is written into the
     * working copy record by record, as the source does in place, without
     * marking it dirty.
     */
    method GetQuestionStats() returns (r: Result<map<string, QuestionStats>, DecodeError>)
      requires Valid()
      modifies this
      ensures saved == old(saved) && dirty == old(dirty) && playerName == old(playerName) && session == old(session)
      ensures Valid()
      ensures var stored := StatsDataIn(old(CurrentData()));
        r.Success? <==> stored.Success? && AllDecode(stored.value)
      ensures r.Success? ==> r.value == DecodedAll(StatsDataIn(old(CurrentData())).value)
      ensures r.Success? && QuestionStatsKey in old(CurrentData()) ==>
        attrs == Some(old(Stored(CurrentData()[QuestionStatsKey := VDict(BackfillAll(CurrentData()[QuestionStatsKey].d))])))
      ensures Loaded() == old(Loaded()) ||
        (HasPlayer() && QuestionStatsKey in old(CurrentData()) && old(CurrentData())[QuestionStatsKey].VDict? &&
         exists after :: PartlyBackfilled(old(CurrentData())[QuestionStatsKey].d, after) &&
           attrs == Some(old(Stored(CurrentData()[QuestionStatsKey := VDict(after)]))))
    {
      var data := PlayerData();
      if QuestionStatsKey !in data {
        return Success(map[]);
      }
      if !data[QuestionStatsKey].VDict? {
        return Failure(WrongType(QuestionStatsKey));
      }
      var backfilled;
      backfilled, r := BackfillAndDecode(data[QuestionStatsKey].d);
      attrs := Some(WithPlayerData(attrs.value, playerName.value, data[QuestionStatsKey := VDict(backfilled)]));
    }

    /** `save_question_stats(stats)`: every record stored by its id as its dictionary form. */
    method SaveQuestionStats(stats: map<string, QuestionStats>)
      requires Valid()
      modifies this
      ensures saved == old(saved) && playerName == old(playerName) && session == old(session)
      ensures Valid()
      ensures HasPlayer() ==>
        attrs == Some(old(Stored(CurrentData()[QuestionStatsKey := VDict(EncodeStats(stats))]))) && dirty
      ensures !HasPlayer() ==> attrs == old(attrs) && dirty == old(dirty)
    {
      var data := PlayerData();
      var statsData := EncodeStatsLoop(stats);
      data := data[QuestionStatsKey := VDict(statsData)];
      SavePlayerData(data);
    }

    /** `get_session_stats`: the stored dictionary, or all counters at zero. */
    method GetSessionStats() returns (r: Result<Dict, DecodeError>)
      requires Valid()
      modifies this
      ensures saved == old(saved) && dirty == old(dirty) && playerName == old(playerName) && session == old(session)
      ensures Valid()
      ensures r == SessionStatsIn(old(CurrentData()))
      ensures Loaded() == old(Loaded())
    {
      var data := PlayerData();
      r := SessionStatsIn(data);
    }

    /** `save_session_stats(stats)`. */
    method SaveSessionStats(stats: Dict)
      requires Valid()
      modifies this
      ensures saved == old(saved) && playerName == old(playerName) && session == old(session)
      ensures Valid()
      ensures HasPlayer() ==>
        attrs == Some(old(Stored(CurrentData()[SessionStatsKey := VDict(stats)]))) && dirty
      ensures !HasPlayer() ==> attrs == old(attrs) && dirty == old(dirty)
    {
      var data := PlayerData();
      data := data[SessionStatsKey := VDict(stats)];
      SavePlayerData(data);
    }

    /**
     * `update_session_stats(questions_answered, correct_answers, reset_streak)`
     * at time `now`. A counter that is not an integer stops the update before
     * anything is saved.
     */
    method UpdateSessionStats(answered: int, correct: int, resetStreak: bool, now: Instant) returns (r: Result<Dict, DecodeError>)
      requires Valid()
      modifies this
      ensures saved == old(saved) && playerName == old(playerName) && session == old(session)
      ensures Valid()
      ensures r == UpdatedSessionStats(old(CurrentData()), answered, correct, resetStreak, now)
      ensures r.Success? && HasPlayer() ==>
        attrs == Some(old(Stored(CurrentData()[SessionStatsKey := VDict(r.value)]))) && dirty
      ensures r.Failure? || !HasPlayer() ==> Loaded() == old(Loaded()) && dirty == old(dirty)
    {
      ghost var loaded, data := Loaded(), CurrentData();
      var stats := GetSessionStats();
      if stats.Failure? {
        return Failure(stats.error);
      }
      assert Loaded() == loaded && CurrentData() == data;
      r := ApplyAnswers(stats.value, answered, correct, resetStreak, now);
      if r.Failure? {
        return;
      }
      SaveSessionStats(r.value);
      assert HasPlayer() ==> attrs == Some(WithPlayerData(loaded, playerName.value, data[SessionStatsKey := VDict(r.value)]));
    }

    /** `increment_session_count` at time `now`. */
    method IncrementSessionCount(now: Instant) returns (error: Option<DecodeError>)
      requires Valid()
      modifies this
      ensures saved == old(saved) && playerName == old(playerName) && session == old(session)
      ensures Valid()
      ensures error.None? <==> StartSessionIn(old(CurrentData()), now).Success?
      ensures error.None? && HasPlayer() ==>
        attrs == Some(old(Stored(CurrentData()[SessionStatsKey := VDict(StartSessionIn(CurrentData(), now).value)]))) && dirty
      ensures error.Some? || !HasPlayer() ==> Loaded() == old(Loaded()) && dirty == old(dirty)
    {
      ghost var loaded, data := Loaded(), CurrentData();
      var stats := GetSessionStats();
      if stats.Failure? {
        return Some(stats.error);
      }
      assert Loaded() == loaded && CurrentData() == data;
      var updated := StartSession(stats.value, now);
      if updated.Failure? {
        return Some(updated.error);
      }
      SaveSessionStats(updated.value);
      assert HasPlayer() ==> attrs == Some(WithPlayerData(loaded, playerName.value, data[SessionStatsKey := VDict(updated.value)]));
      error := None;
    }

    /** `commit`: writes the working copy back, only when it is loaded and dirty. */
    method Commit()
      requires Valid()
      modifies this
      ensures attrs == old(attrs) && playerName == old(playerName) && session == old(session)
      ensures Valid()
      ensures old(dirty) && old(attrs).Some? ==> saved == old(attrs).value && !dirty
      ensures !(old(dirty) && old(attrs).Some?) ==> saved == old(saved) && dirty == old(dirty)
    {
      if dirty && attrs.Some? {
        saved := attrs.value;
        dirty := false;
      }
    }
  }

  /** A second write of the same player's dictionary replaces the first. */
  lemma OverwritePlayerData(attrs: Dict, name: string, first: Dict, second: Dict)
    ensures WithPlayerData(WithPlayerData(attrs, name, first), name, second) == WithPlayerData(attrs, name, second)
  {
    var players := PlayersIn(attrs);
    assert PlayersIn(WithPlayerData(attrs, name, first)) == players[name := VDict(first)];
    assert players[name := VDict(first)][name := VDict(second)] == players[name := VDict(second)];
  }

  /** `increment_session_count` on a player's data. */
  function StartSessionIn(playerData: Dict, now: Instant): Result<Dict, DecodeError> {
    var stats :- SessionStatsIn(playerData);
    StartSession(stats, now)
  }

  /**
   * The item `save_srs_data` commits for player `name`: the statistics stored,
   * then, when something was answered, the session counters updated.
   */
  function SrsSaved(
    saved: Dict, name: string, stats: map<string, QuestionStats>,
    answered: int, correct: int, hadWrongAnswer: bool, now: Instant): (r: Result<Dict, DecodeError>)
    ensures r.Failure? <==>
      answered > 0 && UpdatedSessionStats(PlayerDataIn(saved, name), answered, correct, hadWrongAnswer, now).Failure?
    ensures r.Success? ==>
      QuestionStatsKey in PlayerDataIn(r.value, name) &&
      PlayerDataIn(r.value, name)[QuestionStatsKey] == VDict(EncodeStats(stats))
    ensures r.Success? && answered > 0 ==>
      SessionStatsKey in PlayerDataIn(r.value, name) &&
      PlayerDataIn(r.value, name)[SessionStatsKey] ==
        VDict(UpdatedSessionStats(PlayerDataIn(saved, name), answered, correct, hadWrongAnswer, now).value)
    ensures r.Success? && answered <= 0 ==>
      PlayerDataIn(r.value, name) == PlayerDataIn(saved, name)[QuestionStatsKey := VDict(EncodeStats(stats))]
    ensures r.Success? ==> forall other :: other != name ==> PlayerDataIn(r.value, other) == PlayerDataIn(saved, other)
  {
    var withStats := PlayerDataIn(saved, name)[QuestionStatsKey := VDict(EncodeStats(stats))];
    assert SessionStatsIn(withStats) == SessionStatsIn(PlayerDataIn(saved, name));
    if answered > 0 then
      var session :- UpdatedSessionStats(withStats, answered, correct, hadWrongAnswer, now);
      Success(WithPlayerData(saved, name, withStats[SessionStatsKey := VDict(session)]))
    else
      Success(WithPlayerData(saved, name, withStats))
  }

  /** What `save_srs_data` commits loads back as the statistics it was given. */
  lemma SrsSavedStatsLoad(
    saved: Dict, name: string, stats: map<string, QuestionStats>,
    answered: int, correct: int, hadWrongAnswer: bool, now: Instant)
    requires SrsSaved(saved, name, stats, answered, correct, hadWrongAnswer, now).Success?
    ensures var stored := PlayerDataIn(SrsSaved(saved, name, stats, answered, correct, hadWrongAnswer, now).value, name);
      StatsDataIn(stored) == Success(EncodeStats(stats)) &&
      AllDecode(EncodeStats(stats)) && DecodedAll(EncodeStats(stats)) == stats
  {
    StatsMapRoundTrip(stats);
  }

  /**
   * `save_srs_data`: a manager for the session's player saves the statistics,
   * updates the session counters when something was answered, and commits.
   * Returns the stored item afterwards; a failed update raises before the
   * commit, so nothing is written.
   */
  method SaveSrsData(
    saved: Dict, session: Dict, userId: string, stats: map<string, QuestionStats>,
    answered: int, correct: int, hadWrongAnswer: bool, now: Instant)
    returns (stored: Dict, error: Option<DecodeError>)
    ensures var player := InitialPlayer(None, session);
      player.None? || player.value == "" ==> stored == saved && error.None?
    ensures var player := InitialPlayer(None, session);
      player.Some? && player.value != "" ==>
        var r := SrsSaved(saved, player.value, stats, answered, correct, hadWrongAnswer, now);
        (error.None? <==> r.Success?) &&
        (r.Success? ==> stored == r.value) &&
        (r.Failure? ==> stored == saved)
  {
    var pm := new PersistenceManager(saved, session, userId, None);
    ghost var player := InitialPlayer(None, session);
    ghost var name := if pm.HasPlayer() then pm.playerName.value else "";
    ghost var withStats := PlayerDataIn(saved, name)[QuestionStatsKey := VDict(EncodeStats(stats))];
    pm.SaveQuestionStats(stats);
    assert pm.HasPlayer() ==> pm.attrs == Some(WithPlayerData(saved, name, withStats)) && pm.CurrentData() == withStats;
    assert !pm.HasPlayer() ==> pm.attrs == None && !pm.dirty && pm.CurrentData() == map[];
    if answered > 0 {
      var r := pm.UpdateSessionStats(answered, correct, hadWrongAnswer, now);
      if !pm.HasPlayer() {
        FirstUpdate(map[], answered, correct, hadWrongAnswer, now);
        assert r.Success?;
      }
      if r.Failure? {
        assert SrsSaved(saved, name, stats, answered, correct, hadWrongAnswer, now).Failure?;
        return saved, Some(r.error);
      }
      if pm.HasPlayer() {
        OverwritePlayerData(saved, name, withStats, withStats[SessionStatsKey := VDict(r.value)]);
        assert pm.attrs == Some(WithPlayerData(saved, name, withStats[SessionStatsKey := VDict(r.value)]));
        assert SrsSaved(saved, name, stats, answered, correct, hadWrongAnswer, now) == Success(pm.attrs.value);
      }
    } else if pm.HasPlayer() {
      assert SrsSaved(saved, name, stats, answered, correct, hadWrongAnswer, now) == Success(pm.attrs.value);
    }
    pm.Commit();
    return pm.saved, None;
  }
}
