/**
 * Weighted review selection of the scheduler in srs.py: the Leitner box
 * weights, the time factor, the grouping of review candidates by box, and
 * the cumulative-sum draw. Float arithmetic is modelled with exact reals.
 */
module LeitnerSelection {
  import opened Wrappers
  import opened Models

  /** `BOX_WEIGHTS.get(box, 0.1)`: each box half as likely as the one below it. */
  function BoxWeight(box: int): (w: real)
    ensures w > 0.0
    ensures !(MinBox <= box <= MaxBox) ==> w == 0.1
    ensures box == MinBox ==> w == 1.0
  {
    if box == 1 then 1.0
    else if box == 2 then 0.5
    else if box == 3 then 0.25
    else if box == 4 then 0.125
    else if box == 5 then 0.0625
    else 0.1
  }

  /** Each box up has half the weight of the box below it. */
  lemma BoxWeightsHalve(box: int)
    requires MinBox <= box < MaxBox
    ensures BoxWeight(box + 1) * 2.0 == BoxWeight(box)
  {
  }

  /** Hours between two instants, as `timedelta.total_seconds() / 3600`. */
  function HoursSince(last: Instant, now: Instant): real {
    (now.micros - last.micros) as real / 3600000000.0
  }

  /** The piecewise factor for a fact last asked `h` hours ago. */
  function HourFactor(h: real): (f: real)
    ensures 0.5 <= f <= 2.0
    ensures h < 1.0 ==> f == 0.5
    ensures 1.0 <= h < 24.0 ==> f == 1.0
    ensures h >= 24.0 ==> 1.0 < f
    ensures 24.0 <= h < 168.0 ==> f == 1.0 + h / 168.0
    ensures h >= 168.0 ==> f == 2.0
  {
    if h < 1.0 then 0.5
    else if h < 24.0 then 1.0
    else if 1.0 + h / 168.0 < 2.0 then 1.0 + h / 168.0
    else 2.0
  }

  /** The longer a fact has not been asked, the larger its factor. */
  lemma HourFactorMonotone(h1: real, h2: real)
    requires h1 <= h2
    ensures HourFactor(h1) <= HourFactor(h2)
  {
  }

  /** `_time_factor`: 1.5 for a fact never asked, else the hour-based factor. */
  function TimeFactor(lastAsked: Option<Instant>, now: Instant): (f: real)
    ensures 0.5 <= f <= 2.0
    ensures lastAsked.None? ==> f == 1.5
    ensures lastAsked.Some? ==> f == HourFactor(HoursSince(lastAsked.value, now))
  {
    if lastAsked.None? then 1.5 else HourFactor(HoursSince(lastAsked.value, now))
  }

  /** One entry of the source's `by_box` dictionary. */
  datatype BoxGroup = BoxGroup(box: int, members: seq<QuestionStats>)

  /** Position of the group of box `b`, or -1 when there is none yet. */
  function FindBox(groups: seq<BoxGroup>, b: int): (i: int)
    ensures -1 <= i < |groups|
    ensures i >= 0 ==> groups[i].box == b
    ensures i == -1 ==> forall j :: 0 <= j < |groups| ==> groups[j].box != b
  {
    if |groups| == 0 then -1
    else if groups[0].box == b then 0
    else var k := FindBox(groups[1..], b); if k < 0 then -1 else k + 1
  }

  /** `by_box[stats.box].append(stats)` on a default dictionary. */
  function AddToGroup(groups: seq<BoxGroup>, s: QuestionStats): (r: seq<BoxGroup>) {
    var i := FindBox(groups, s.box);
    if i >= 0 then groups[i := groups[i].(members := groups[i].members + [s])]
    else groups + [BoxGroup(s.box, [s])]
  }

  /** The `by_box` grouping of the candidates, boxes in order of first appearance. */
  function GroupByBox(available: seq<QuestionStats>): seq<BoxGroup> {
    if |available| == 0 then []
    else AddToGroup(GroupByBox(available[..|available| - 1]), available[|available| - 1])
  }

  /** The candidate list the nested loops of `_weighted_box_selection` build. */
  function Flatten(groups: seq<BoxGroup>): seq<QuestionStats> {
    if |groups| == 0 then [] else groups[0].members + Flatten(groups[1..])
  }

  /** Every group holds only stats of its own box. */
  ghost predicate GroupsConsistent(groups: seq<BoxGroup>) {
    forall i, j :: 0 <= i < |groups| && 0 <= j < |groups[i].members| ==> groups[i].members[j].box == groups[i].box
  }

  /** `weight * self._time_factor(stats)`: the final weight of one candidate. */
  function Weight(s: QuestionStats, now: Instant): (w: real)
    ensures w > 0.0
  {
    BoxWeight(s.box) * TimeFactor(s.lastAsked, now)
  }

  /** The final weight of each candidate, in candidate order. */
  function Weights(candidates: seq<QuestionStats>, now: Instant): (ws: seq<real>)
    ensures |ws| == |candidates|
    ensures forall i :: 0 <= i < |ws| ==> ws[i] == Weight(candidates[i], now)
  {
    if |candidates| == 0 then []
    else Weights(candidates[..|candidates| - 1], now) + [Weight(candidates[|candidates| - 1], now)]
  }

  /** Left-to-right sum, as Python's `sum`. */
  function Sum(ws: seq<real>): real {
    if |ws| == 0 then 0.0 else Sum(ws[..|ws| - 1]) + ws[|ws| - 1]
  }

  /**
   * The index the cumulative loop stops at, searching from k: the first index
   * whose running sum reaches r, or the last index when none does.
   */
  function SelectFrom(ws: seq<real>, r: real, k: nat): (i: nat)
    requires k < |ws|
    ensures k <= i < |ws|
    decreases |ws| - k
  {
    if r <= Sum(ws[..k + 1]) || k == |ws| - 1 then k else SelectFrom(ws, r, k + 1)
  }

  /** The index whose cumulative-weight slice holds `r`, searching from the first candidate. */
  function SelectIndex(ws: seq<real>, r: real): (i: nat)
    requires |ws| > 0
    ensures i < |ws|
  {
    SelectFrom(ws, r, 0)
  }

  /** The draw `u * total` and the cumulative-sum loop of `_weighted_box_selection`. */
  method WeightedPick(ws: seq<real>, u: real) returns (index: nat)
    requires |ws| > 0
    ensures index == PickIndex(ws, u)
  {
    var r := u * Sum(ws);
    var cumulative := 0.0;
    var i := 0;
    while i < |ws|
      invariant 0 <= i <= |ws|
      invariant cumulative == Sum(ws[..i])
      invariant i < |ws| ==> SelectIndex(ws, r) == SelectFrom(ws, r, i)
      invariant i == |ws| ==> SelectIndex(ws, r) == |ws| - 1
    {
      cumulative := cumulative + ws[i];
      assert ws[..i + 1][..i] == ws[..i];
      if r <= cumulative {
        return i;
      }
      i := i + 1;
    }
    index := |ws| - 1;  // the source's fallback to the last candidate
  }

  /**
   * `_weighted_box_selection` with `u` the value of `random.random()`: the
   * candidate whose slice of [0, total] holds `u * total`.
   */
  method WeightedBoxSelection(groups: seq<BoxGroup>, u: real, now: Instant) returns (selected: Option<QuestionStats>)
    requires 0.0 <= u < 1.0
    ensures selected == Choose(groups, u, now)
  {
    var candidates := Flatten(groups);
    if |candidates| == 0 {
      return None;
    }
    var ws := Weights(candidates, now);
    // the source's uniform fallback for a zero total is left out: TotalWeightPositive shows it never runs
    var index := WeightedPick(ws, u);
    selected := Some(candidates[index]);
  }

  /** Every candidate weight is positive, so a non-empty candidate list never has a zero total. */
  lemma TotalWeightPositive(groups: seq<BoxGroup>, now: Instant)
    ensures |Flatten(groups)| > 0 ==> Sum(Weights(Flatten(groups), now)) > 0.0
  {
    if |Flatten(groups)| > 0 {
      SumPositive(Weights(Flatten(groups), now));
    }
  }

  /** The index the draw `u` selects among the weights `ws`. */
  function PickIndex(ws: seq<real>, u: real): (i: nat)
    requires |ws| > 0
    ensures i < |ws|
  {
    SelectIndex(ws, u * Sum(ws))
  }

  /** The candidate the cumulative draw `u * total` lands on. */
  function PickFrom(candidates: seq<QuestionStats>, u: real, now: Instant): QuestionStats
    requires |candidates| > 0
  {
    candidates[PickIndex(Weights(candidates, now), u)]
  }

  /** What `_weighted_box_selection` returns for the draw `u`. */
  function Choose(groups: seq<BoxGroup>, u: real, now: Instant): Option<QuestionStats> {
    if |Flatten(groups)| == 0 then None else Some(PickFrom(Flatten(groups), u, now))
  }

  // ---------------------------------------------------------------------------
  // Lemmas

  /** A drawn question is one of the candidates. */
  lemma ChooseIsCandidate(groups: seq<BoxGroup>, u: real, now: Instant)
    requires Choose(groups, u, now).Some?
    ensures Choose(groups, u, now).value in Flatten(groups)
  {
    var candidates := Flatten(groups);
    assert Choose(groups, u, now).value == candidates[PickIndex(Weights(candidates, now), u)];
  }

  /** A non-empty list of positive weights has a positive total. */
  lemma {:induction false} SumPositive(ws: seq<real>)
    requires |ws| > 0
    requires forall i :: 0 <= i < |ws| ==> ws[i] > 0.0
    ensures Sum(ws) > 0.0
  {
    if |ws| > 1 {
      SumPositive(ws[..|ws| - 1]);
    }
  }

  /** Running sums of non-negative weights never decrease. */
  lemma {:induction false} PrefixSumMonotone(ws: seq<real>, i: nat, j: nat)
    requires i <= j <= |ws|
    requires forall k :: 0 <= k < |ws| ==> ws[k] >= 0.0
    ensures Sum(ws[..i]) <= Sum(ws[..j])
    decreases j - i
  {
    if i < j {
      PrefixSumMonotone(ws, i, j - 1);
      assert ws[..j][..j - 1] == ws[..j - 1];
    }
  }

  /** The search from `k` stops at the first index whose running sum reaches `r`. */
  lemma {:induction false} SelectFromReaches(ws: seq<real>, r: real, k: nat)
    requires k < |ws|
    requires forall i :: 0 <= i < |ws| ==> ws[i] >= 0.0
    requires r <= Sum(ws)
    requires k == 0 || Sum(ws[..k]) < r
    ensures var j := SelectFrom(ws, r, k);
      (j == 0 || Sum(ws[..j]) < r) && r <= Sum(ws[..j + 1])
    decreases |ws| - k
  {
    if r <= Sum(ws[..k + 1]) || k == |ws| - 1 {
      if k == |ws| - 1 {
        assert ws[..k + 1] == ws;
      }
    } else {
      SelectFromReaches(ws, r, k + 1);
    }
  }

  /**
   * For a draw r in [0, total], candidate k is chosen exactly when r lies in
   * its slice (Sum(ws[..k]), Sum(ws[..k+1])] (the first slice also holding 0),
   * a slice as wide as the candidate's weight.
   */
  lemma SelectionSlices(ws: seq<real>, r: real, k: nat)
    requires |ws| > 0 && k < |ws|
    requires forall i :: 0 <= i < |ws| ==> ws[i] >= 0.0
    requires 0.0 <= r <= Sum(ws)
    ensures SelectIndex(ws, r) == k <==> (k == 0 || Sum(ws[..k]) < r) && r <= Sum(ws[..k + 1])
    ensures Sum(ws[..k + 1]) - Sum(ws[..k]) == ws[k]
  {
    assert ws[..k + 1][..k] == ws[..k];
    SelectFromReaches(ws, r, 0);
    var j := SelectIndex(ws, r);
    if (k == 0 || Sum(ws[..k]) < r) && r <= Sum(ws[..k + 1]) && j != k {
      if j < k {
        PrefixSumMonotone(ws, j + 1, k);
      } else {
        PrefixSumMonotone(ws, k + 1, j);
      }
    }
  }

  /** The stats of box `b`, in the order they appear. */
  function InBox(available: seq<QuestionStats>, b: int): (r: seq<QuestionStats>)
    ensures forall s :: s in r ==> s in available && s.box == b
  {
    if |available| == 0 then []
    else InBox(available[..|available| - 1], b)
         + (if available[|available| - 1].box == b then [available[|available| - 1]] else [])
  }

  /** The box numbers that have a group. */
  function Boxes(groups: seq<BoxGroup>): set<int> {
    set i | 0 <= i < |groups| :: groups[i].box
  }

  /** The box numbers that occur among the records. */
  function StatBoxes(available: seq<QuestionStats>): set<int> {
    set s | s in available :: s.box
  }

  /** No box has two groups. */
  ghost predicate DistinctBoxes(groups: seq<BoxGroup>) {
    forall i, j :: 0 <= i < j < |groups| ==> groups[i].box != groups[j].box
  }

  /** Adding a record keeps one group per box and adds the record to its own box. */
  lemma AddToGroupFacts(groups: seq<BoxGroup>, s: QuestionStats)
    requires DistinctBoxes(groups)
    ensures var r := AddToGroup(groups, s);
      && DistinctBoxes(r)
      && Boxes(r) == Boxes(groups) + {s.box}
      && (forall i :: 0 <= i < |groups| ==> r[i].box == groups[i].box)
      && (forall i :: 0 <= i < |r| ==>
            r[i].members == (if i < |groups| then groups[i].members else [])
                            + (if r[i].box == s.box then [s] else []))
  {
    var r := AddToGroup(groups, s);
    var k := FindBox(groups, s.box);
    if k >= 0 {
      assert Boxes(r) == Boxes(groups) by {
        forall b | b in Boxes(groups) ensures b in Boxes(r) {
          var i :| 0 <= i < |groups| && groups[i].box == b;
          assert r[i].box == b;
        }
      }
    } else {
      assert Boxes(r) == Boxes(groups) + {s.box} by {
        assert r[|groups|].box == s.box;
        forall b | b in Boxes(groups) ensures b in Boxes(r) {
          var i :| 0 <= i < |groups| && groups[i].box == b;
          assert r[i].box == b;
        }
      }
    }
  }

  /**
   * The grouping of `_select_from_srs`: one group per box that occurs, no box
   * twice, and each group holding exactly the stats of its box in their order.
   */
  lemma {:induction false} GroupByBoxSpec(available: seq<QuestionStats>)
    ensures var groups := GroupByBox(available);
      && DistinctBoxes(groups)
      && Boxes(groups) == StatBoxes(available)
      && (forall i :: 0 <= i < |groups| ==> groups[i].members == InBox(available, groups[i].box))
  {
    if |available| > 0 {
      var n := |available|;
      var front := available[..n - 1];
      var last := available[n - 1];
      GroupByBoxSpec(front);
      var g := GroupByBox(front);
      var r := AddToGroup(g, last);
      assert GroupByBox(available) == r;
      AddToGroupFacts(g, last);
      StatBoxesSnoc(available);
      forall i | 0 <= i < |r|
        ensures r[i].members == InBox(available, r[i].box)
      {
        var b := r[i].box;
        assert InBox(available, b) == InBox(front, b) + (if last.box == b then [last] else []);
        if i >= |g| {
          InBoxAbsent(front, b);
        } else {
          assert g[i].box == b;
        }
      }
    }
  }

  /** The boxes of a list are those of its front plus the box of its last record. */
  lemma StatBoxesSnoc(available: seq<QuestionStats>)
    requires |available| > 0
    ensures StatBoxes(available) == StatBoxes(available[..|available| - 1]) + {available[|available| - 1].box}
  {
    assert available == available[..|available| - 1] + [available[|available| - 1]];
  }

  /** A box no record is in holds nothing. */
  lemma {:induction false} InBoxAbsent(available: seq<QuestionStats>, b: int)
    requires b !in StatBoxes(available)
    ensures InBox(available, b) == []
  {
    if |available| > 0 {
      var front := available[..|available| - 1];
      assert available[|available| - 1] in available;
      assert forall s :: s in front ==> s in available;
      InBoxAbsent(front, b);
    }
  }

  /** Flattening distributes over appending a group. */
  lemma {:induction false} FlattenAppend(groups: seq<BoxGroup>, g: BoxGroup)
    ensures Flatten(groups + [g]) == Flatten(groups) + g.members
  {
    if |groups| > 0 {
      assert (groups + [g])[1..] == groups[1..] + [g];
      FlattenAppend(groups[1..], g);
    }
  }

  /** Replacing one group changes the flattened multiset by exactly that group. */
  lemma {:induction false} FlattenUpdate(groups: seq<BoxGroup>, i: nat, g: BoxGroup)
    requires i < |groups|
    ensures multiset(Flatten(groups[i := g])) + multiset(groups[i].members)
         == multiset(Flatten(groups)) + multiset(g.members)
  {
    if i == 0 {
      assert groups[i := g][1..] == groups[1..];
    } else {
      assert groups[i := g][1..] == groups[1..][i - 1 := g];
      assert groups[1..][i - 1] == groups[i];
      FlattenUpdate(groups[1..], i - 1, g);
      var rest := groups[1..];
      calc {
        multiset(Flatten(groups[i := g])) + multiset(groups[i].members);
        { assert Flatten(groups[i := g]) == groups[0].members + Flatten(rest[i - 1 := g]); }
        multiset(groups[0].members) + (multiset(Flatten(rest[i - 1 := g])) + multiset(rest[i - 1].members));
        multiset(groups[0].members) + (multiset(Flatten(rest)) + multiset(g.members));
        multiset(Flatten(groups)) + multiset(g.members);
      }
    }
  }

  /** The candidate list of `_weighted_box_selection` is a rearrangement of the available stats. */
  lemma {:induction false} CandidatesArePermutation(available: seq<QuestionStats>)
    ensures multiset(Flatten(GroupByBox(available))) == multiset(available)
  {
    if |available| > 0 {
      var n := |available|;
      var front := available[..n - 1];
      var s := available[n - 1];
      CandidatesArePermutation(front);
      var g := GroupByBox(front);
      var k := FindBox(g, s.box);
      assert available == front + [s];
      assert GroupByBox(available) == AddToGroup(g, s);
      if k >= 0 {
        var updated := g[k].(members := g[k].members + [s]);
        assert AddToGroup(g, s) == g[k := updated];
        FlattenUpdate(g, k, updated);
        assert multiset(updated.members) == multiset(g[k].members) + multiset{s};
        var a, b, c := multiset(Flatten(g[k := updated])), multiset(g[k].members), multiset(Flatten(g));
        assert a + b == c + (b + multiset{s});
        forall x ensures a[x] == (c + multiset{s})[x] {
          assert (a + b)[x] == (c + (b + multiset{s}))[x];
        }
        assert multiset(Flatten(AddToGroup(g, s))) == multiset(Flatten(g)) + multiset{s};
      } else {
        FlattenAppend(g, BoxGroup(s.box, [s]));
        assert multiset(Flatten(AddToGroup(g, s))) == multiset(Flatten(g)) + multiset{s};
      }
      assert multiset(available) == multiset(front) + multiset{s};
      assert available == front + [s];
    }
  }
}
