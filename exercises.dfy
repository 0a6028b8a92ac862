/**
 * The exercises page: the load bands of `classify_score`, the recovery factor
 * taken from the star ratings, the per-muscle load of the selected exercises,
 * the visibility filter that builds the muscle-to-colour map, and the
 * selection list `store_added_exercise` maintains.
 */
module Exercises {
  import opened Common
  import opened Constants

  // ---------------------------------------------------------------------------
  // Banding

  /** The six load bands of `classify_score`, lightest first. */
  datatype Band = LightGreen | Green | Yellow | Orange | Red | DarkRed {
    /** Position in the order light green < green < yellow < orange < red < dark red. */
    function Rank(): nat {
      match this
      case LightGreen => 0
      case Green => 1
      case Yellow => 2
      case Orange => 3
      case Red => 4
      case DarkRed => 5
    }

    /** The hex colour code `classify_score` returns for the band. */
    function Color(): string {
      match this
      case LightGreen => "#5cf3aa"
      case Green => "#33b535ff"
      case Yellow => "#f1f826"
      case Orange => "#dda304"
      case Red => "#f71c1c"
      case DarkRed => "#7f0400"
    }
  }

  /**
   * The band table: light green below 10, green in [10, 40), yellow in
   * [40, 70), orange in [70, 100), red in [100, 130), dark red from 130 on.
   */
  predicate InBand(score: real, b: Band) {
    match b
    case LightGreen => score < 10.0
    case Green => 10.0 <= score < 40.0
    case Yellow => 40.0 <= score < 70.0
    case Orange => 70.0 <= score < 100.0
    case Red => 100.0 <= score < 130.0
    case DarkRed => 130.0 <= score
  }

  /** `classify_score`: the if-chain with strict `<` boundaries. */
  function ClassifyScore(score: real): (b: Band)
    ensures InBand(score, b)
  {
    if score < 10.0 then LightGreen
    else if score < 40.0 then Green
    else if score < 70.0 then Yellow
    else if score < 100.0 then Orange
    else if score < 130.0 then Red
    else DarkRed
  }

  /** Every score lies in exactly one band, and that band is the one `classify_score` picks. */
  lemma ClassifyScoreIff(score: real, b: Band)
    ensures ClassifyScore(score) == b <==> InBand(score, b)
  {
  }

  /** A higher score never gets a lighter band. */
  lemma ClassifyMonotone(x: real, y: real)
    requires x <= y
    ensures ClassifyScore(x).Rank() <= ClassifyScore(y).Rank()
  {
  }

  /** The boundary values 10, 40, 70, 100 and 130 fall into the upper band. */
  lemma BoundariesGoUp()
    ensures ClassifyScore(10.0) == Green && ClassifyScore(40.0) == Yellow && ClassifyScore(70.0) == Orange
    ensures ClassifyScore(100.0) == Red && ClassifyScore(130.0) == DarkRed
  {
  }

  /** The bands have pairwise different colour codes, so the colour identifies the band. */
  lemma ColorsDistinct(b1: Band, b2: Band)
    ensures b1.Color() == b2.Color() ==> b1 == b2
  {
  }

  // ---------------------------------------------------------------------------
  // Recovery factor

  /** The star ratings: question id to the number of stars given. */
  type StarData = map<string, int>

  ghost function PickQuestion(m: StarData): string
    requires |m| > 0
  {
    var q :| q in m; q
  }

  /** `sum(star_data.values())`. */
  ghost function TotalStars(m: StarData): int
    decreases m.Keys
  {
    if |m| == 0 then 0
    else
      var q := PickQuestion(m);
      m[q] + TotalStars(m - {q})
  }

  /** The sum does not depend on which question is taken first. */
  lemma {:induction false} TotalStarsRemove(m: StarData, q: string)
    requires q in m
    ensures TotalStars(m) == m[q] + TotalStars(m - {q})
    decreases m.Keys
  {
    var p := PickQuestion(m);
    if p != q {
      TotalStarsRemove(m - {p}, q);
      TotalStarsRemove(m - {q}, p);
      assert m - {p} - {q} == m - {q} - {p};
    }
  }

  /** Ratings between 1 and 5 stars give a total between `|m|` and `5 * |m|`. */
  lemma {:induction false} TotalStarsBounds(m: StarData)
    requires forall q :: q in m ==> 1 <= m[q] <= 5
    ensures |m| <= TotalStars(m) <= 5 * |m|
    decreases m.Keys
  {
    if |m| > 0 {
      var q := PickQuestion(m);
      TotalStarsBounds(m - {q});
    }
  }

  /** `sum(star_data.values())`, one rating at a time. */
  method SumStars(m: StarData) returns (total: int)
    ensures total == TotalStars(m)
  {
    total := 0;
    var rest := m;
    while rest != map[]
      invariant total + TotalStars(rest) == TotalStars(m)
      decreases rest.Keys
    {
      var q :| q in rest;
      TotalStarsRemove(rest, q);
      total := total + rest[q];
      rest := rest - {q};
    }
  }

  /** `if star_data:` — an absent or empty rating map counts as no rating. */
  predicate HasRatings(starData: Option<StarData>) {
    starData.Some? && |starData.value| > 0
  }

  /** The factor is computable: the code divides by the total without a guard. */
  ghost predicate FactorDefined(starData: Option<StarData>) {
    !HasRatings(starData) || TotalStars(starData.value) != 0
  }

  /** The recovery factor: `1 / (total_stars / 25)`, or 1 without ratings. */
  ghost function StarFactor(starData: Option<StarData>): (f: real)
    requires FactorDefined(starData)
    ensures !HasRatings(starData) ==> f == 1.0
    ensures HasRatings(starData) ==> f == 25.0 / (TotalStars(starData.value) as real)
  {
    if HasRatings(starData) then
      var t := TotalStars(starData.value) as real;
      assert 1.0 / (t / 25.0) == 25.0 / t by {
        assert (t / 25.0) * (25.0 / t) == 1.0;
      }
      1.0 / (t / 25.0)
    else 1.0
  }

  /** The factor as both pages compute it. */
  method ComputeStarFactor(starData: Option<StarData>) returns (f: real)
    requires FactorDefined(starData)
    ensures f == StarFactor(starData)
  {
    if HasRatings(starData) {
      var total := SumStars(starData.value);
      f := 1.0 / ((total as real) / 25.0);
    } else {
      f := 1.0;
    }
  }

  /**
   * With ratings of 1 to 5 stars the factor is defined and lies between
   * `5 / n` (all five stars) and `25 / n` (one star each) for n questions.
   */
  lemma FactorRange(m: StarData)
    requires |m| > 0
    requires forall q :: q in m ==> 1 <= m[q] <= 5
    ensures FactorDefined(Some(m))
    ensures 5.0 / (|m| as real) <= StarFactor(Some(m)) <= 25.0 / (|m| as real)
  {
    TotalStarsBounds(m);
    var t := TotalStars(m) as real;
    var n := |m| as real;
    assert 25.0 / (5.0 * n) <= 25.0 / t by { DivideAntitone(25.0, t, 5.0 * n); }
    assert 25.0 / t <= 25.0 / n by { DivideAntitone(25.0, n, t); }
    assert 25.0 / (5.0 * n) == 5.0 / n;
  }

  lemma DivideAntitone(a: real, x: real, y: real)
    requires a >= 0.0 && 0.0 < x <= y
    ensures a / y <= a / x
  {
    var p := a / x;
    var q := a / y;
    assert p * x == a && q * y == a;
    assert p >= 0.0;
    assert p * y - p * x == p * (y - x) >= 0.0;
    assert (p - q) * y >= 0.0;
  }

  /** The same rating on every question adds up to that rating times the number of questions. */
  lemma {:induction false} TotalStarsUniform(m: StarData, stars: int)
    requires forall q :: q in m ==> m[q] == stars
    ensures TotalStars(m) == stars * |m|
    decreases m.Keys
  {
    if |m| > 0 {
      var q := PickQuestion(m);
      TotalStarsUniform(m - {q}, stars);
    }
  }

  /** Six questions answered with five stars each: 30 stars, factor 25/30. */
  lemma SixFiveStarRatings(m: StarData)
    requires |m| == 6
    requires forall q :: q in m ==> m[q] == 5
    ensures FactorDefined(Some(m)) && StarFactor(Some(m)) == 25.0 / 30.0
  {
    TotalStarsUniform(m, 5);
  }

  // ---------------------------------------------------------------------------
  // Load aggregation

  /** Every selected exercise id is a row of the matrix (`.loc` raises otherwise). */
  predicate AllFound(matrix: MuscleMatrix, ids: seq<ExerciseId>) {
    forall id :: id in ids ==> id in matrix.rows
  }

  /** One column of `(MUSCLE_MATRIX.loc[ids] * factor).sum()`: each selected row's value times the factor, added up. */
  function ColumnSum(matrix: MuscleMatrix, ids: seq<ExerciseId>, muscle: Muscle, factor: real): real
    requires matrix.Valid() && AllFound(matrix, ids) && muscle in matrix.muscles
  {
    if |ids| == 0 then 0.0
    else ColumnSum(matrix, ids[..|ids| - 1], muscle, factor) + matrix.rows[ids[|ids| - 1]][muscle] * factor
  }

  /** The score is the factor times the plain sum of the selected rows. */
  lemma {:induction false} ColumnSumScaled(matrix: MuscleMatrix, ids: seq<ExerciseId>, muscle: Muscle, factor: real)
    requires matrix.Valid() && AllFound(matrix, ids) && muscle in matrix.muscles
    ensures ColumnSum(matrix, ids, muscle, factor) == factor * ColumnSum(matrix, ids, muscle, 1.0)
    decreases |ids|
  {
    if |ids| > 0 {
      ColumnSumScaled(matrix, ids[..|ids| - 1], muscle, factor);
    }
  }

  /** Selecting two lists of exercises one after the other adds their loads. */
  lemma {:induction false} ColumnSumAppend(matrix: MuscleMatrix, ids1: seq<ExerciseId>, ids2: seq<ExerciseId>, muscle: Muscle, factor: real)
    requires matrix.Valid() && AllFound(matrix, ids1) && AllFound(matrix, ids2) && muscle in matrix.muscles
    ensures AllFound(matrix, ids1 + ids2)
    ensures ColumnSum(matrix, ids1 + ids2, muscle, factor)
         == ColumnSum(matrix, ids1, muscle, factor) + ColumnSum(matrix, ids2, muscle, factor)
    decreases |ids2|
  {
    var all := ids1 + ids2;
    if |ids2| == 0 {
      assert all == ids1;
    } else {
      var init := ids2[..|ids2| - 1];
      assert all[..|all| - 1] == ids1 + init;
      assert all[|all| - 1] == ids2[|ids2| - 1];
      ColumnSumAppend(matrix, ids1, init, muscle, factor);
    }
  }

  /** Non-negative loads and a non-negative factor give a non-negative score. */
  lemma {:induction false} ColumnSumNonNegative(matrix: MuscleMatrix, ids: seq<ExerciseId>, muscle: Muscle, factor: real)
    requires matrix.Valid() && AllFound(matrix, ids) && muscle in matrix.muscles
    requires NonNegative(matrix) && factor >= 0.0
    ensures ColumnSum(matrix, ids, muscle, factor) >= 0.0
    decreases |ids|
  {
    if |ids| > 0 {
      ColumnSumNonNegative(matrix, ids[..|ids| - 1], muscle, factor);
      var v := matrix.rows[ids[|ids| - 1]][muscle];
      assert v >= 0.0;
      assert v * factor >= 0.0;
    }
  }

  /** The selected ids that are not rows of the matrix, in selection order. */
  function MissingIds(rows: map<ExerciseId, map<Muscle, real>>, ids: seq<ExerciseId>): (r: seq<ExerciseId>)
    ensures forall id :: id in r <==> id in ids && id !in rows
  {
    if |ids| == 0 then []
    else
      var rest := MissingIds(rows, ids[1..]);
      assert forall id :: id in ids <==> id == ids[0] || id in ids[1..] by {
        assert ids == [ids[0]] + ids[1..];
      }
      if ids[0] in rows then rest else [ids[0]] + rest
  }

  /**
   * `(MUSCLE_MATRIX.loc[exercise_ids] * star_factor).sum()`: one score per
   * column in column order, or the `KeyError` for ids that are not rows.
   */
  function MuscleScores(matrix: MuscleMatrix, ids: seq<ExerciseId>, factor: real): (r: Result<seq<(Muscle, real)>, seq<ExerciseId>>)
    requires matrix.Valid()
    ensures r.Failure? <==> !AllFound(matrix, ids)
    ensures r.Failure? ==> |r.error| > 0 && forall id :: id in r.error ==> id in ids && id !in matrix.rows
    ensures r.Success? ==> |r.value| == |matrix.muscles|
    ensures r.Success? ==> forall i :: 0 <= i < |r.value| ==>
      r.value[i].0 == matrix.muscles[i] && r.value[i].1 == ColumnSum(matrix, ids, matrix.muscles[i], factor)
  {
    var missing := MissingIds(matrix.rows, ids);
    if |missing| > 0 then
      assert missing[0] in missing;
      Failure(missing)
    else
      assert AllFound(matrix, ids) by {
        forall id | id in ids ensures id in matrix.rows {
          assert id !in missing;
        }
      }
      Success(seq(|matrix.muscles|, i requires 0 <= i < |matrix.muscles| => (matrix.muscles[i], ColumnSum(matrix, ids, matrix.muscles[i], factor))))
  }

  /** The muscle names of a score series or colour map, in order. */
  function Names<V>(entries: seq<(Muscle, V)>): (r: seq<Muscle>)
    ensures |r| == |entries| && forall i :: 0 <= i < |r| ==> r[i] == entries[i].0
  {
    seq(|entries|, i requires 0 <= i < |entries| => entries[i].0)
  }

  /** A successful score series is labelled by the matrix columns, so its muscles are distinct. */
  lemma ScoresNamesDistinct(matrix: MuscleMatrix, ids: seq<ExerciseId>, factor: real)
    requires matrix.Valid() && MuscleScores(matrix, ids, factor).Success?
    ensures Names(MuscleScores(matrix, ids, factor).value) == matrix.muscles
    ensures NoDuplicates(Names(MuscleScores(matrix, ids, factor).value))
  {
  }

  // ---------------------------------------------------------------------------
  // Visibility filter

  /** Muscles scoring below this are left out of the colour map. */
  const VisibilityThreshold: real := 0.3

  /**
   * `{muscle: classify_score(score) for muscle, score in muscle_scores.items() if score >= 0.3}`,
   * in the order of the scores.
   */
  function MuscleToColor(scores: seq<(Muscle, real)>): (colors: seq<(Muscle, string)>)
    ensures |colors| <= |scores|
    ensures forall c :: c in colors <==>
      exists i :: 0 <= i < |scores| && scores[i].1 >= VisibilityThreshold && c == (scores[i].0, ClassifyScore(scores[i].1).Color())
  {
    if |scores| == 0 then []
    else
      var rest := MuscleToColor(scores[1..]);
      assert forall i :: 0 < i < |scores| ==> scores[i] == scores[1..][i - 1];
      assert forall c :: c in rest ==> exists i :: 0 < i < |scores| && scores[i].1 >= VisibilityThreshold && c == (scores[i].0, ClassifyScore(scores[i].1).Color()) by {
        forall c | c in rest ensures exists i :: 0 < i < |scores| && scores[i].1 >= VisibilityThreshold && c == (scores[i].0, ClassifyScore(scores[i].1).Color()) {
          var j :| 0 <= j < |scores[1..]| && scores[1..][j].1 >= VisibilityThreshold && c == (scores[1..][j].0, ClassifyScore(scores[1..][j].1).Color());
          assert scores[j + 1] == scores[1..][j];
        }
      }
      if scores[0].1 >= VisibilityThreshold then [(scores[0].0, ClassifyScore(scores[0].1).Color())] + rest
      else rest
  }

  /** Every muscle of the colour map comes from the scores, in the same relative order. */
  lemma {:induction false} MuscleToColorNamesDistinct(scores: seq<(Muscle, real)>)
    requires NoDuplicates(Names(scores))
    ensures NoDuplicates(Names(MuscleToColor(scores)))
    decreases |scores|
  {
    if |scores| > 0 {
      var rest := MuscleToColor(scores[1..]);
      assert Names(scores[1..]) == Names(scores)[1..];
      MuscleToColorNamesDistinct(scores[1..]);
      if scores[0].1 >= VisibilityThreshold {
        var r := MuscleToColor(scores);
        assert r == [(scores[0].0, ClassifyScore(scores[0].1).Color())] + rest;
        forall j | 0 <= j < |rest| ensures rest[j].0 != scores[0].0 {
          assert rest[j] in rest;
          var i :| 0 <= i < |scores[1..]| && rest[j] == (scores[1..][i].0, ClassifyScore(scores[1..][i].1).Color());
          assert Names(scores)[i + 1] == scores[1..][i].0;
        }
      }
    }
  }

  /** A muscle whose every score is below the threshold does not appear in the map. */
  lemma {:induction false} MutedMuscleAbsent(scores: seq<(Muscle, real)>, muscle: Muscle)
    requires forall j :: 0 <= j < |scores| && scores[j].0 == muscle ==> scores[j].1 < VisibilityThreshold
    ensures muscle !in Names(MuscleToColor(scores))
    decreases |scores|
  {
    if |scores| > 0 {
      var tail := scores[1..];
      forall j | 0 <= j < |tail| && tail[j].0 == muscle ensures tail[j].1 < VisibilityThreshold {
        assert tail[j] == scores[j + 1];
      }
      MutedMuscleAbsent(tail, muscle);
      var rest := MuscleToColor(tail);
      if scores[0].1 >= VisibilityThreshold {
        assert Names(MuscleToColor(scores)) == [scores[0].0] + Names(rest);
      } else {
        assert MuscleToColor(scores) == rest;
      }
    }
  }

  /** A muscle scoring below the threshold is absent from the map, not coloured light green. */
  lemma BelowThresholdAbsent(scores: seq<(Muscle, real)>, i: nat)
    requires NoDuplicates(Names(scores))
    requires i < |scores| && scores[i].1 < VisibilityThreshold
    ensures scores[i].0 !in Names(MuscleToColor(scores))
  {
    var names := Names(scores);
    forall j | 0 <= j < |scores| && scores[j].0 == scores[i].0 ensures j == i {
      assert names[j] == names[i];
    }
    MutedMuscleAbsent(scores, scores[i].0);
  }

  /** A muscle scoring at or above the threshold is in the map with the colour of its band. */
  lemma AtThresholdPresent(scores: seq<(Muscle, real)>, i: nat)
    requires i < |scores| && scores[i].1 >= VisibilityThreshold
    ensures (scores[i].0, ClassifyScore(scores[i].1).Color()) in MuscleToColor(scores)
  {
  }

  /** Two exercises loading the quadriceps with 50 each, without ratings: score 100, coloured red. */
  lemma QuadricepsTwiceIsRed(matrix: MuscleMatrix, a: ExerciseId, b: ExerciseId)
    requires matrix.Valid() && "quadriceps" in matrix.muscles
    requires a in matrix.rows && b in matrix.rows
    requires matrix.rows[a]["quadriceps"] == 50.0 && matrix.rows[b]["quadriceps"] == 50.0
    ensures AllFound(matrix, [a, b])
    ensures ColumnSum(matrix, [a, b], "quadriceps", StarFactor(None)) == 100.0
    ensures ClassifyScore(ColumnSum(matrix, [a, b], "quadriceps", StarFactor(None))).Color() == "#f71c1c"
  {
    assert [a, b][..1] == [a];
    assert [a][..0] == [];
    assert ColumnSum(matrix, [a], "quadriceps", 1.0) == 50.0;
  }

  /** The same load of 100 with six five-star ratings: scaled by 25/30 to about 83.3, coloured orange. */
  lemma FullRecoveryLowersBand(m: StarData, score: real)
    requires |m| == 6 && forall q :: q in m ==> m[q] == 5
    requires score == 100.0
    ensures FactorDefined(Some(m))
    ensures ClassifyScore(score * StarFactor(Some(m))) == Orange
  {
    SixFiveStarRatings(m);
    assert score * StarFactor(Some(m)) == 2500.0 / 30.0;
  }

  // ---------------------------------------------------------------------------
  // Selection list

  /** The list in the `added-exercises` store, which the callback appends to in place. */
  class ExerciseList {
    var items: seq<ExerciseId>

    /** The fresh `[]` that replaces a missing store value. */
    constructor()
      ensures items == []
    {
      items := [];
    }

    /** `list.append(id)`. */
    method Append(id: ExerciseId)
      modifies this
      ensures items == old(items) + [id]
    {
      items := items + [id];
    }
  }

  /** The list after selecting `id`: appended when new, unchanged when already there. */
  function WithExercise(items: seq<ExerciseId>, id: ExerciseId): (r: seq<ExerciseId>)
    ensures id in r
    ensures |items| <= |r| <= |items| + 1 && r[..|items|] == items
    ensures id in items ==> r == items
    ensures id !in items ==> r == items + [id]
  {
    if id in items then items else items + [id]
  }

  /** Selecting keeps the list free of duplicates and adds nothing but the selected id. */
  lemma WithExerciseKeepsDistinct(items: seq<ExerciseId>, id: ExerciseId)
    requires NoDuplicates(items)
    ensures NoDuplicates(WithExercise(items, id))
    ensures forall x :: x in WithExercise(items, id) <==> x in items || x == id
  {
  }

  /** Selecting the same exercise twice is the same as selecting it once. */
  lemma WithExerciseIdempotent(items: seq<ExerciseId>, id: ExerciseId)
    ensures WithExercise(WithExercise(items, id), id) == WithExercise(items, id)
  {
  }

  /** The initial value of the `added-exercises` store. */
  const InitialAddedExercises: seq<ExerciseId> := []

  /** `not exercise_ids` is false: the store is present and holds at least one id. */
  predicate Selected(exerciseIds: Option<seq<ExerciseId>>) {
    exerciseIds.Some? && |exerciseIds.value| > 0
  }

  /** `ctx.triggered_id`: nothing, a plain component id, or a pattern-matching id (a dict). */
  datatype TriggerId = NoTrigger | NamedTrigger(name: string) | PatternTrigger(fields: map<string, string>)

  /** What the callback hands back to Dash. */
  datatype StoreOutcome = PreventUpdate | Stored(list: ExerciseList)

  /** The truth value of a click count in Python: `None` and `0` are false. */
  predicate Clicked(n: Option<int>) {
    n.Some? && n.value != 0
  }

  /** `any(n_clicks_list)`: some click count is set and non-zero. */
  predicate AnyClicked(nClicks: seq<Option<int>>) {
    exists i :: 0 <= i < |nClicks| && Clicked(nClicks[i])
  }

  /** The trigger is a dict that has an `index` entry. */
  predicate IndexedTrigger(t: TriggerId) {
    t.PatternTrigger? && "index" in t.fields
  }

  /** `store_added_exercise`. */
  method StoreAddedExercise(nClicks: seq<Option<int>>, triggered: TriggerId, current: ExerciseList?) returns (r: StoreOutcome)
    modifies current
    ensures r.PreventUpdate? <==> !AnyClicked(nClicks) || !IndexedTrigger(triggered)
    ensures r.PreventUpdate? && current != null ==> current.items == old(current.items)
    ensures r.Stored? && current != null ==> r.list == current
    ensures r.Stored? && current == null ==> fresh(r.list)
    ensures r.Stored? ==> r.list.items == WithExercise(if current == null then [] else old(current.items), triggered.fields["index"])
  {
    if !AnyClicked(nClicks) {
      return PreventUpdate;
    }
    if !IndexedTrigger(triggered) {
      return PreventUpdate;
    }
    var exId := triggered.fields["index"];
    var list := current;
    if list == null {
      list := new ExerciseList();
    }
    if exId !in list.items {
      list.Append(exId);
    }
    r := Stored(list);
  }
}
