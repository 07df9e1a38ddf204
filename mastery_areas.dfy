/**
 * The per-operation summaries of srs.py (`get_weak_areas`,
 * `get_strong_areas`): facts are tallied by the operation code at the head of
 * their id, each code's accuracy is ranked with Python's stable `sorted`, and
 * the weak areas keep accuracies below 0.7 while the strong areas keep those
 * of at least 0.8. Float division is modelled with exact reals.
 */
module MasteryAreas {
  import opened Text
  import opened Models

  /** The operation code of an id: `question_id.split("_")[0]`. */
  function OpCode(id: string): string {
    Split(id, '_')[0]
  }

  /**
   * Whether a fact enters a summary: the weak areas skip facts with no
   * attempts, the strong areas facts with fewer than three.
   */
  function Counted(s: QuestionStats, strong: bool): bool {
    if strong then TotalAttempts(s) >= 3 else TotalAttempts(s) != 0
  }

  /** The summed counts of one operation code. */
  datatype OpTally = OpTally(op: string, correct: int, attempts: int)

  /** The operation codes that have a tally. */
  function Ops(tallies: seq<OpTally>): set<string> {
    set i | 0 <= i < |tallies| :: tallies[i].op
  }

  /** No operation code has two tallies. */
  ghost predicate DistinctOps(tallies: seq<OpTally>) {
    forall i, j :: 0 <= i < j < |tallies| ==> tallies[i].op != tallies[j].op
  }

  /** Position of the tally of `op`, or -1 when there is none yet. */
  function FindOp(tallies: seq<OpTally>, op: string): (i: int)
    ensures -1 <= i < |tallies|
    ensures i >= 0 ==> tallies[i].op == op
    ensures i == -1 ==> op !in Ops(tallies)
  {
    if |tallies| == 0 then -1
    else if tallies[0].op == op then 0
    else
      var k := FindOp(tallies[1..], op);
      assert Ops(tallies) == {tallies[0].op} + Ops(tallies[1..]) by {
        forall o | o in Ops(tallies) ensures o in {tallies[0].op} + Ops(tallies[1..]) {
          var i :| 0 <= i < |tallies| && tallies[i].op == o;
          if i > 0 { assert tallies[1..][i - 1].op == o; }
        }
      }
      if k < 0 then -1 else k + 1
  }

  /** `op_stats[op_type].append(stats)`, keeping running sums instead of the list. */
  function AddToTally(tallies: seq<OpTally>, op: string, s: QuestionStats): seq<OpTally> {
    var i := FindOp(tallies, op);
    if i >= 0 then tallies[i := OpTally(op, tallies[i].correct + s.correctCount, tallies[i].attempts + TotalAttempts(s))]
    else tallies + [OpTally(op, s.correctCount, TotalAttempts(s))]
  }

  /** The first loop of both summaries over the ids in dictionary order. */
  function Tally(ids: seq<string>, stats: map<string, QuestionStats>, strong: bool): seq<OpTally>
    requires forall k :: k in ids ==> k in stats
  {
    if |ids| == 0 then []
    else
      var front := ids[..|ids| - 1];
      var k := ids[|ids| - 1];
      assert forall j :: j in front ==> j in ids;
      var t := Tally(front, stats, strong);
      if Counted(stats[k], strong) then AddToTally(t, OpCode(k), stats[k]) else t
  }

  /** Reference definition: correct answers summed over the counted facts of `op`. */
  function SumCorrect(ids: seq<string>, stats: map<string, QuestionStats>, strong: bool, op: string): int
    requires forall k :: k in ids ==> k in stats
  {
    if |ids| == 0 then 0
    else
      var front := ids[..|ids| - 1];
      var k := ids[|ids| - 1];
      assert forall j :: j in front ==> j in ids;
      SumCorrect(front, stats, strong, op)
      + (if Counted(stats[k], strong) && OpCode(k) == op then stats[k].correctCount else 0)
  }

  /** Reference definition: attempts summed over the counted facts of `op`. */
  function SumAttempts(ids: seq<string>, stats: map<string, QuestionStats>, strong: bool, op: string): int
    requires forall k :: k in ids ==> k in stats
  {
    if |ids| == 0 then 0
    else
      var front := ids[..|ids| - 1];
      var k := ids[|ids| - 1];
      assert forall j :: j in front ==> j in ids;
      SumAttempts(front, stats, strong, op)
      + (if Counted(stats[k], strong) && OpCode(k) == op then TotalAttempts(stats[k]) else 0)
  }

  /** An accuracy per operation code: `op_accuracy`, a code's entry present only when its attempts are positive. */
  type Ranking = seq<(string, real)>

  /** The second loop of both summaries. */
  function Accuracies(tallies: seq<OpTally>): (r: Ranking)
    ensures |r| <= |tallies|
  {
    if |tallies| == 0 then []
    else
      var t := tallies[|tallies| - 1];
      Accuracies(tallies[..|tallies| - 1])
      + (if t.attempts > 0 then [(t.op, t.correct as real / t.attempts as real)] else [])
  }

  // ---------------------------------------------------------------------------
  // Python's stable `sorted` by a real key

  /** `key=lambda x: x[1]` for the weak areas, `key=lambda x: -x[1]` for the strong ones. */
  function Key<T>(e: (T, real), descending: bool): real {
    if descending then -e.1 else e.1
  }

  /** Inserts `x` after every element whose key is not larger. */
  function Insert<T>(x: (T, real), s: seq<(T, real)>, descending: bool): seq<(T, real)> {
    if |s| == 0 then [x]
    else if Key(x, descending) < Key(s[0], descending) then [x] + s
    else [s[0]] + Insert(x, s[1..], descending)
  }

  /** Inserting adds exactly one element. */
  lemma {:induction false} InsertPermutes<T>(x: (T, real), s: seq<(T, real)>, descending: bool)
    ensures multiset(Insert(x, s, descending)) == multiset(s) + multiset{x}
  {
    if |s| > 0 && Key(x, descending) >= Key(s[0], descending) {
      InsertPermutes(x, s[1..], descending);
      assert s == [s[0]] + s[1..];
    }
  }

  /** Insertion sort by key; equal keys keep their original order, as Python's stable `sorted` does. */
  function SortByKey<T>(s: seq<(T, real)>, descending: bool): seq<(T, real)> {
    if |s| == 0 then []
    else Insert(s[|s| - 1], SortByKey(s[..|s| - 1], descending), descending)
  }

  /** Keys are non-decreasing (accuracies ascending, or descending when negated). */
  ghost predicate SortedBy<T>(s: seq<(T, real)>, descending: bool) {
    forall i, j :: 0 <= i < j < |s| ==> Key(s[i], descending) <= Key(s[j], descending)
  }

  /** The elements of `s` whose key is `v`, in their order in `s`. */
  function WithKey<T>(s: seq<(T, real)>, v: real, descending: bool): seq<(T, real)> {
    if |s| == 0 then []
    else (if Key(s[0], descending) == v then [s[0]] else []) + WithKey(s[1..], v, descending)
  }

  /** Inserting into a sorted list keeps it sorted. */
  lemma {:induction false} InsertSorted<T>(x: (T, real), s: seq<(T, real)>, descending: bool)
    requires SortedBy(s, descending)
    ensures SortedBy(Insert(x, s, descending), descending)
  {
    if |s| > 0 && Key(s[0], descending) <= Key(x, descending) {
      var r := Insert(x, s, descending);
      var t := Insert(x, s[1..], descending);
      InsertSorted(x, s[1..], descending);
      InsertPermutes(x, s[1..], descending);
      assert r == [s[0]] + t;
      forall j | 0 < j < |r| ensures Key(s[0], descending) <= Key(r[j], descending) {
        assert r[j] == t[j - 1];
        assert r[j] in multiset(s[1..]) + multiset{x};
        if r[j] != x {
          var m :| 0 <= m < |s[1..]| && s[1..][m] == r[j];
          assert s[m + 1] == r[j];
        }
      }
    }
  }

  /** Inserting places the new element after the elements with the same key. */
  lemma {:induction false} InsertWithKey<T>(x: (T, real), s: seq<(T, real)>, v: real, descending: bool)
    requires SortedBy(s, descending)
    ensures WithKey(Insert(x, s, descending), v, descending)
         == WithKey(s, v, descending) + (if Key(x, descending) == v then [x] else [])
  {
    var b := if Key(x, descending) == v then [x] else [];
    if |s| == 0 {
      WithKeyCons(x, [], v, descending);
    } else if Key(x, descending) < Key(s[0], descending) {
      WithKeyCons(x, s, v, descending);
      if Key(x, descending) == v {
        AboveKeyHasNone(s, v, descending);
      }
    } else {
      var t := Insert(x, s[1..], descending);
      var a := if Key(s[0], descending) == v then [s[0]] else [];
      InsertWithKey(x, s[1..], v, descending);
      WithKeyCons(s[0], t, v, descending);
      WithKeyCons(s[0], s[1..], v, descending);
      assert [s[0]] + s[1..] == s;
      AppendAssoc(a, WithKey(s[1..], v, descending), b);
    }
  }

  /** The elements with key `v` of a list with a new head. */
  lemma WithKeyCons<T>(e: (T, real), t: seq<(T, real)>, v: real, descending: bool)
    ensures WithKey([e] + t, v, descending) == (if Key(e, descending) == v then [e] else []) + WithKey(t, v, descending)
  {
    assert ([e] + t)[1..] == t;
  }

  /** A sorted list whose first key exceeds `v` has no element with key `v`. */
  lemma {:induction false} AboveKeyHasNone<T>(s: seq<(T, real)>, v: real, descending: bool)
    requires SortedBy(s, descending)
    requires |s| > 0 && v < Key(s[0], descending)
    ensures WithKey(s, v, descending) == []
  {
    if |s| > 1 {
      assert Key(s[0], descending) <= Key(s[1], descending);
      AboveKeyHasNone(s[1..], v, descending);
    }
  }

  /** The elements with key `v` of a list with a new last element. */
  lemma {:induction false} WithKeyAppend<T>(s: seq<(T, real)>, x: (T, real), v: real, descending: bool)
    ensures WithKey(s + [x], v, descending) == WithKey(s, v, descending) + (if Key(x, descending) == v then [x] else [])
  {
    if |s| > 0 {
      assert (s + [x])[1..] == s[1..] + [x];
      WithKeyAppend(s[1..], x, v, descending);
    }
  }

  /**
   * `sorted(..., key=...)` is ordered by the key, a permutation of its input,
   * and stable: the entries sharing a key keep their relative order.
   */
  lemma {:induction false} SortByKeySpec<T>(s: seq<(T, real)>, descending: bool)
    ensures SortedBy(SortByKey(s, descending), descending)
    ensures multiset(SortByKey(s, descending)) == multiset(s)
    ensures forall v :: WithKey(SortByKey(s, descending), v, descending) == WithKey(s, v, descending)
  {
    if |s| > 0 {
      var front := s[..|s| - 1];
      var x := s[|s| - 1];
      SortByKeySpec(front, descending);
      InsertSorted(x, SortByKey(front, descending), descending);
      InsertPermutes(x, SortByKey(front, descending), descending);
      assert s == front + [x];
      forall v ensures WithKey(SortByKey(s, descending), v, descending) == WithKey(s, v, descending) {
        InsertWithKey(x, SortByKey(front, descending), v, descending);
        WithKeyAppend(front, x, v, descending);
      }
    }
  }

  // ---------------------------------------------------------------------------
  // Thresholds and names

  /** Weak: accuracy strictly below 0.7; strong: accuracy of at least 0.8. */
  function Passes(accuracy: real, strong: bool): bool {
    if strong then accuracy >= 0.8 else accuracy < 0.7
  }

  /** `op_names.get(op, op)` of the two summaries. */
  function AreaName(op: string, strong: bool): (name: string)
    ensures op !in {"add", "sub", "mul", "div"} ==> name == op
  {
    if strong then
      if op == "add" then "Plus-Aufgaben"
      else if op == "sub" then "Minus-Aufgaben"
      else if op == "mul" then "Mal-Aufgaben"
      else if op == "div" then "Geteilt-Aufgaben"
      else op
    else
      if op == "add" then "Addition"
      else if op == "sub" then "Subtraktion"
      else if op == "mul" then "Multiplikation"
      else if op == "div" then "Division"
      else op
  }

  /** The ranked entries that pass the threshold, in ranked order. */
  function Selected(r: Ranking, strong: bool): (sel: Ranking)
    ensures forall e :: e in sel <==> e in r && Passes(e.1, strong)
  {
    if |r| == 0 then []
    else (if Passes(r[0].1, strong) then [r[0]] else []) + Selected(r[1..], strong)
  }

  /** Keeping the passing entries keeps the ranking's order. */
  lemma {:induction false} SelectedSorted(r: Ranking, strong: bool)
    requires SortedBy(r, strong)
    ensures SortedBy(Selected(r, strong), strong)
  {
    if |r| > 0 {
      SelectedSorted(r[1..], strong);
      var rest := Selected(r[1..], strong);
      forall e | e in rest ensures Key(r[0], strong) <= Key(e, strong) {
        var j :| 0 <= j < |r[1..]| && r[1..][j] == e;
        assert r[j + 1] == e;
      }
    }
  }

  /** The names of the selected areas, in ranking order. */
  function Names(sel: Ranking, strong: bool): (names: seq<string>)
    ensures |names| == |sel|
    ensures forall i :: 0 <= i < |sel| ==> names[i] == AreaName(sel[i].0, strong)
  {
    seq(|sel|, i requires 0 <= i < |sel| => AreaName(sel[i].0, strong))
  }

  /** The accuracies of the counted facts' codes, sorted ascending (weak) or descending (strong). */
  function Ranked(ids: seq<string>, stats: map<string, QuestionStats>, strong: bool): Ranking
    requires forall k :: k in ids ==> k in stats
  {
    SortByKey(Accuracies(Tally(ids, stats, strong)), strong)
  }

  /** The operation codes in a ranking. */
  function RankedOps(r: Ranking): set<string> {
    set e | e in r :: e.0
  }

  // ---------------------------------------------------------------------------
  // Lemmas about the tally

  /** Adding a fact keeps one entry per code and adds its code. */
  lemma AddToTallyOps(tallies: seq<OpTally>, op: string, s: QuestionStats)
    requires DistinctOps(tallies)
    ensures var r := AddToTally(tallies, op, s);
      && DistinctOps(r)
      && Ops(r) == Ops(tallies) + {op}
  {
    var r := AddToTally(tallies, op, s);
    assert Ops(r) == Ops(tallies) + {op} by {
      if FindOp(tallies, op) < 0 {
        assert r[|tallies|].op == op;
      }
      forall o | o in Ops(tallies) ensures o in Ops(r) {
        var i :| 0 <= i < |tallies| && tallies[i].op == o;
        assert r[i].op == o;
      }
    }
  }

  /** Adding a fact adds its counts to the entry of its code, created at the end when missing. */
  lemma AddToTallyEntries(tallies: seq<OpTally>, op: string, s: QuestionStats)
    requires DistinctOps(tallies)
    ensures var r := AddToTally(tallies, op, s);
      && |r| >= |tallies|
      && (forall i :: 0 <= i < |tallies| ==> r[i].op == tallies[i].op)
      && (forall i :: |tallies| <= i < |r| ==> r[i].op == op && op !in Ops(tallies))
      && (forall i :: 0 <= i < |r| ==>
            && r[i].correct == (if i < |tallies| then tallies[i].correct else 0) + (if r[i].op == op then s.correctCount else 0)
            && r[i].attempts == (if i < |tallies| then tallies[i].attempts else 0) + (if r[i].op == op then TotalAttempts(s) else 0))
  {
  }

  /** The tally holds one entry per operation code. */
  lemma {:induction false} TallyOps(ids: seq<string>, stats: map<string, QuestionStats>, strong: bool)
    requires forall k :: k in ids ==> k in stats
    ensures DistinctOps(Tally(ids, stats, strong))
  {
    if |ids| > 0 {
      var front := ids[..|ids| - 1];
      var k := ids[|ids| - 1];
      assert forall j :: j in front ==> j in ids;
      TallyOps(front, stats, strong);
      if Counted(stats[k], strong) {
        AddToTallyOps(Tally(front, stats, strong), OpCode(k), stats[k]);
      }
    }
  }

  /** A code without an entry in the tally has no counted facts to sum. */
  lemma {:induction false} TallyMissing(ids: seq<string>, stats: map<string, QuestionStats>, strong: bool, op: string)
    requires forall k :: k in ids ==> k in stats
    requires op !in Ops(Tally(ids, stats, strong))
    ensures SumCorrect(ids, stats, strong, op) == 0 && SumAttempts(ids, stats, strong, op) == 0
  {
    if |ids| > 0 {
      var front, k := ids[..|ids| - 1], ids[|ids| - 1];
      SumStep(ids, stats, strong, op);
      TallyOps(front, stats, strong);
      if Counted(stats[k], strong) {
        AddToTallyOps(Tally(front, stats, strong), OpCode(k), stats[k]);
      }
      TallyMissing(front, stats, strong, op);
    }
  }

  /** Each entry of the tally holds the sums of the counted facts of its code. */
  lemma {:induction false} TallyEntry(ids: seq<string>, stats: map<string, QuestionStats>, strong: bool, i: nat)
    requires forall k :: k in ids ==> k in stats
    requires i < |Tally(ids, stats, strong)|
    ensures var e := Tally(ids, stats, strong)[i];
      && e.correct == SumCorrect(ids, stats, strong, e.op)
      && e.attempts == SumAttempts(ids, stats, strong, e.op)
  {
    var front, k := ids[..|ids| - 1], ids[|ids| - 1];
    var t, r := Tally(front, stats, strong), Tally(ids, stats, strong);
    SumStep(ids, stats, strong, r[i].op);
    TallyOps(front, stats, strong);
    if Counted(stats[k], strong) {
      AddToTallyEntries(t, OpCode(k), stats[k]);
      if i < |t| {
        TallyEntry(front, stats, strong, i);
      } else {
        TallyMissing(front, stats, strong, OpCode(k));
      }
    } else {
      TallyEntry(front, stats, strong, i);
    }
  }

  /**
   * The tally holds one entry per operation code, each with the sums of its
   * counted facts; a code without an entry has no counted facts to sum.
   */
  lemma TallySpec(ids: seq<string>, stats: map<string, QuestionStats>, strong: bool)
    requires forall k :: k in ids ==> k in stats
    ensures var t := Tally(ids, stats, strong);
      && DistinctOps(t)
      && (forall i :: 0 <= i < |t| ==>
            t[i].correct == SumCorrect(ids, stats, strong, t[i].op)
            && t[i].attempts == SumAttempts(ids, stats, strong, t[i].op))
      && (forall op :: op !in Ops(t) ==>
            SumCorrect(ids, stats, strong, op) == 0 && SumAttempts(ids, stats, strong, op) == 0)
  {
    TallyOps(ids, stats, strong);
    var t := Tally(ids, stats, strong);
    forall i | 0 <= i < |t|
      ensures t[i].correct == SumCorrect(ids, stats, strong, t[i].op)
      ensures t[i].attempts == SumAttempts(ids, stats, strong, t[i].op)
    {
      TallyEntry(ids, stats, strong, i);
    }
    forall op | op !in Ops(t)
      ensures SumCorrect(ids, stats, strong, op) == 0 && SumAttempts(ids, stats, strong, op) == 0
    {
      TallyMissing(ids, stats, strong, op);
    }
  }

  /** The sums over `ids` extend those over all but its last id by that id's counts. */
  lemma SumStep(ids: seq<string>, stats: map<string, QuestionStats>, strong: bool, op: string)
    requires |ids| > 0 && forall k :: k in ids ==> k in stats
    ensures var front, k := ids[..|ids| - 1], ids[|ids| - 1];
      && (forall j :: j in front ==> j in stats)
      && SumCorrect(ids, stats, strong, op)
         == SumCorrect(front, stats, strong, op) + (if Counted(stats[k], strong) && OpCode(k) == op then stats[k].correctCount else 0)
      && SumAttempts(ids, stats, strong, op)
         == SumAttempts(front, stats, strong, op) + (if Counted(stats[k], strong) && OpCode(k) == op then TotalAttempts(stats[k]) else 0)
  {
    assert forall j :: j in ids[..|ids| - 1] ==> j in ids;
  }

  /** With one tally per code, the search finds each tally at its own position. */
  lemma {:induction false} FindOpDistinct(tallies: seq<OpTally>, i: nat)
    requires DistinctOps(tallies) && i < |tallies|
    ensures FindOp(tallies, tallies[i].op) == i
  {
    if i > 0 {
      assert tallies[0].op != tallies[i].op;
      assert forall a, b :: 0 <= a < b < |tallies[1..]| ==> tallies[1..][a] == tallies[a + 1] && tallies[1..][b] == tallies[b + 1];
      FindOpDistinct(tallies[1..], i - 1);
    }
  }

  /** Each accuracy belongs to a tally with positive attempts, and each such tally has its accuracy. */
  lemma {:induction false} AccuraciesSpec(tallies: seq<OpTally>)
    ensures forall e :: e in Accuracies(tallies) ==>
      (exists i :: 0 <= i < |tallies| && tallies[i].attempts > 0
        && e == (tallies[i].op, tallies[i].correct as real / tallies[i].attempts as real))
    ensures forall i :: 0 <= i < |tallies| && tallies[i].attempts > 0 ==>
      (tallies[i].op, tallies[i].correct as real / tallies[i].attempts as real) in Accuracies(tallies)
  {
    if |tallies| > 0 {
      var front := tallies[..|tallies| - 1];
      AccuraciesSpec(front);
      forall e | e in Accuracies(tallies)
        ensures exists i :: 0 <= i < |tallies| && tallies[i].attempts > 0 && e == (tallies[i].op, tallies[i].correct as real / tallies[i].attempts as real)
      {
        if e in Accuracies(front) {
          var i :| 0 <= i < |front| && front[i].attempts > 0
            && e == (front[i].op, front[i].correct as real / front[i].attempts as real);
          assert tallies[i] == front[i];
        } else {
          assert tallies[|tallies| - 1].attempts > 0;
        }
      }
      forall i | 0 <= i < |tallies| && tallies[i].attempts > 0
        ensures (tallies[i].op, tallies[i].correct as real / tallies[i].attempts as real) in Accuracies(tallies)
      {
        if i < |front| {
          assert tallies[i] == front[i];
        }
      }
    }
  }

  /** Sorting drops and adds no entry of the accuracy list. */
  lemma RankedMembers(ids: seq<string>, stats: map<string, QuestionStats>, strong: bool)
    requires forall k :: k in ids ==> k in stats
    ensures forall e :: e in Ranked(ids, stats, strong) <==> e in Accuracies(Tally(ids, stats, strong))
  {
    var acc := Accuracies(Tally(ids, stats, strong));
    var r := Ranked(ids, stats, strong);
    SortByKeySpec(acc, strong);
    assert multiset(r) == multiset(acc);
    forall e ensures e in r <==> e in acc {
      assert e in r <==> e in multiset(r);
      assert e in acc <==> e in multiset(acc);
    }
  }

  /** The ranking is sorted ascending for the weak areas and descending for the strong ones. */
  lemma RankedSorted(ids: seq<string>, stats: map<string, QuestionStats>, strong: bool)
    requires forall k :: k in ids ==> k in stats
    ensures SortedBy(Ranked(ids, stats, strong), strong)
  {
    SortByKeySpec(Accuracies(Tally(ids, stats, strong)), strong);
  }

  /** Each ranked accuracy is its code's summed correct answers over its summed attempts. */
  lemma RankedEntries(ids: seq<string>, stats: map<string, QuestionStats>, strong: bool)
    requires forall k :: k in ids ==> k in stats
    ensures forall e :: e in Ranked(ids, stats, strong) ==>
      SumAttempts(ids, stats, strong, e.0) > 0
      && e.1 == SumCorrect(ids, stats, strong, e.0) as real / SumAttempts(ids, stats, strong, e.0) as real
  {
    var t := Tally(ids, stats, strong);
    TallySpec(ids, stats, strong);
    AccuraciesSpec(t);
    RankedMembers(ids, stats, strong);
  }

  /** Every code whose counted facts have positive summed attempts is ranked. */
  lemma RankedCoversOps(ids: seq<string>, stats: map<string, QuestionStats>, strong: bool)
    requires forall k :: k in ids ==> k in stats
    ensures forall op :: SumAttempts(ids, stats, strong, op) > 0 ==> op in RankedOps(Ranked(ids, stats, strong))
  {
    var t := Tally(ids, stats, strong);
    var r := Ranked(ids, stats, strong);
    TallySpec(ids, stats, strong);
    AccuraciesSpec(t);
    RankedMembers(ids, stats, strong);
    forall op | SumAttempts(ids, stats, strong, op) > 0
      ensures op in RankedOps(r)
    {
      assert op in Ops(t);
      var i :| 0 <= i < |t| && t[i].op == op;
      var e := (t[i].op, t[i].correct as real / t[i].attempts as real);
      assert e in r;
    }
  }

  /** A ratio below a threshold, cross-multiplied by its positive denominator. */
  lemma RatioBelow(c: real, a: real, t: real)
    requires a > 0.0
    ensures c / a < t <==> c < t * a
  {
    assert (c / a) * a == c;
    if c / a < t {
      assert (c / a) * a < t * a;
    } else {
      assert (c / a) * a >= t * a;
    }
  }

  /** The thresholds on the exact ratio are the cross-multiplied integer tests. */
  lemma ThresholdsAsCounts(correct: int, attempts: int)
    requires attempts > 0
    ensures Passes(correct as real / attempts as real, false) <==> 10 * correct < 7 * attempts
    ensures Passes(correct as real / attempts as real, true) <==> 5 * correct >= 4 * attempts
  {
    RatioBelow(correct as real, attempts as real, 0.7);
    RatioBelow(correct as real, attempts as real, 0.8);
  }
}
