/**
 * The training-progress page: the sorted score table, the high-stress
 * summary, one card per selected exercise and the callback that assembles
 * them.
 */
module Progress {
  import opened Common
  import opened Constants
  import opened Exercises
  import opened ExerciseCatalogue

  // ---------------------------------------------------------------------------
  // Sorting scores

  /** Scores in non-increasing order, as `sort_values(ascending=False)` leaves them. */
  predicate NonIncreasing(s: seq<(Muscle, real)>) {
    forall i, j :: 0 <= i < j < |s| ==> s[i].1 >= s[j].1
  }

  /** Puts one entry into an already sorted list. */
  function Insert(x: (Muscle, real), s: seq<(Muscle, real)>): (r: seq<(Muscle, real)>)
    requires NonIncreasing(s)
    ensures NonIncreasing(r)
    ensures multiset(r) == multiset(s) + multiset{x}
    ensures |r| == |s| + 1 && (r[0] == x || (|s| > 0 && r[0] == s[0]))
  {
    if |s| == 0 then [x]
    else if x.1 >= s[0].1 then [x] + s
    else
      var rest := Insert(x, s[1..]);
      assert s == [s[0]] + s[1..];
      assert rest[0].1 <= s[0].1;
      [s[0]] + rest
  }

  /** The table order: a non-increasing permutation of the scores. */
  function SortDescending(s: seq<(Muscle, real)>): (r: seq<(Muscle, real)>)
    ensures NonIncreasing(r)
    ensures multiset(r) == multiset(s)
  {
    if |s| == 0 then []
    else
      assert s == [s[0]] + s[1..];
      Insert(s[0], SortDescending(s[1..]))
  }

  // ---------------------------------------------------------------------------
  // Score table

  /**
   * `create_muscle_score_table`: the column sums of the selected rows, scaled
   * by the factor, in non-increasing order; `.loc` fails on an unknown id.
   */
  function ScoreTable(matrix: MuscleMatrix, ids: seq<ExerciseId>, factor: real): (r: Result<seq<(Muscle, real)>, seq<ExerciseId>>)
    requires matrix.Valid()
    ensures r.Failure? <==> !AllFound(matrix, ids)
    ensures r.Failure? ==> r.error == MuscleScores(matrix, ids, factor).error
    ensures r.Success? ==> NonIncreasing(r.value)
    ensures r.Success? ==> multiset(r.value) == multiset(MuscleScores(matrix, ids, factor).value)
  {
    match MuscleScores(matrix, ids, factor)
    case Failure(missing) => Failure(missing)
    case Success(scores) => Success(SortDescending(scores))
  }

  /** Every muscle of the matrix has exactly one row in the table, carrying its scaled column sum. */
  lemma ScoreTableRows(matrix: MuscleMatrix, ids: seq<ExerciseId>, factor: real, m: nat)
    requires matrix.Valid() && AllFound(matrix, ids) && m < |matrix.muscles|
    ensures var table := ScoreTable(matrix, ids, factor).value;
            var muscle := matrix.muscles[m];
            && (muscle, ColumnSum(matrix, ids, muscle, factor)) in table
            && forall k :: 0 <= k < |table| && table[k].0 == muscle ==> table[k].1 == ColumnSum(matrix, ids, muscle, factor)
  {
    var scores := MuscleScores(matrix, ids, factor).value;
    var table := ScoreTable(matrix, ids, factor).value;
    var muscle := matrix.muscles[m];
    assert scores[m] == (muscle, ColumnSum(matrix, ids, muscle, factor));
    assert scores[m] in multiset(scores);
    forall k | 0 <= k < |table| && table[k].0 == muscle ensures table[k].1 == ColumnSum(matrix, ids, muscle, factor) {
      assert table[k] in multiset(table);
      var j :| 0 <= j < |scores| && scores[j] == table[k];
      ScoresNamesDistinct(matrix, ids, factor);
      assert Names(scores)[j] == Names(scores)[m];
    }
  }

  // ---------------------------------------------------------------------------
  // High-stress summary

  /** `muscle_scores > 75`. */
  const HighStressThreshold: real := 75.0

  /** `muscle_scores[muscle_scores > 75]`: the entries strictly above the threshold, in order. */
  function StronglyLoaded(scores: seq<(Muscle, real)>): (r: seq<(Muscle, real)>)
    ensures forall e :: e in r <==> e in scores && e.1 > HighStressThreshold
  {
    if |scores| == 0 then []
    else
      assert scores == [scores[0]] + scores[1..];
      (if scores[0].1 > HighStressThreshold then [scores[0]] else []) + StronglyLoaded(scores[1..])
  }

  /** The mask keeps every entry above 75 as often as it occurs, and no other entry. */
  lemma {:induction false} StronglyLoadedCounts(scores: seq<(Muscle, real)>, e: (Muscle, real))
    ensures multiset(StronglyLoaded(scores))[e] == if e.1 > HighStressThreshold then multiset(scores)[e] else 0
    decreases |scores|
  {
    if |scores| > 0 {
      assert scores == [scores[0]] + scores[1..];
      StronglyLoadedCounts(scores[1..], e);
    }
  }

  /** The mask keeps the relative order: it distributes over concatenation. */
  lemma {:induction false} StronglyLoadedAppend(a: seq<(Muscle, real)>, b: seq<(Muscle, real)>)
    ensures StronglyLoaded(a + b) == StronglyLoaded(a) + StronglyLoaded(b)
    decreases |a|
  {
    if |a| > 0 {
      assert (a + b)[1..] == a[1..] + b;
      StronglyLoadedAppend(a[1..], b);
    } else {
      assert a + b == b;
    }
  }

  /** `high_stress.sort_values(ascending=False)`. */
  function HighStress(scores: seq<(Muscle, real)>): (r: seq<(Muscle, real)>)
    ensures NonIncreasing(r)
    ensures multiset(r) == multiset(StronglyLoaded(scores))
    ensures forall e :: e in r <==> e in scores && e.1 > HighStressThreshold
  {
    var loaded := StronglyLoaded(scores);
    var r := SortDescending(loaded);
    assert forall e :: e in r <==> e in multiset(loaded);
    r
  }

  /** The two texts `create_muscle_summary_text` can show. */
  datatype Summary = NoOvertrainingRisk | HighlyStrained(muscles: seq<Muscle>)

  /** The names of a list holding exactly the entries above 75 are the muscles with such a score. */
  lemma NamesAboveThreshold(scores: seq<(Muscle, real)>, high: seq<(Muscle, real)>)
    requires forall e :: e in high <==> e in scores && e.1 > HighStressThreshold
    ensures forall m :: m in Names(high) <==>
      exists k :: 0 <= k < |scores| && scores[k].0 == m && scores[k].1 > HighStressThreshold
  {
    var names := Names(high);
    forall m ensures m in names <==> exists k :: 0 <= k < |scores| && scores[k].0 == m && scores[k].1 > HighStressThreshold {
      if m in names {
        var i :| 0 <= i < |names| && names[i] == m;
        assert high[i] in high;
      }
      if k :| 0 <= k < |scores| && scores[k].0 == m && scores[k].1 > HighStressThreshold {
        assert scores[k] in scores;
        var i :| 0 <= i < |high| && high[i] == scores[k];
        assert names[i] == m;
      }
    }
  }

  /** A muscle is listed as strained exactly when one of its scores is above 75. */
  lemma HighStressNames(scores: seq<(Muscle, real)>)
    ensures forall m :: m in Names(HighStress(scores)) <==>
      exists k :: 0 <= k < |scores| && scores[k].0 == m && scores[k].1 > HighStressThreshold
  {
    NamesAboveThreshold(scores, HighStress(scores));
  }

  /** Nothing is listed as strained exactly when no score is above 75. */
  lemma HighStressEmpty(scores: seq<(Muscle, real)>)
    ensures |HighStress(scores)| == 0 <==> forall k :: 0 <= k < |scores| ==> scores[k].1 <= HighStressThreshold
  {
    var high := HighStress(scores);
    if |high| > 0 {
      assert high[0] in high;
    } else {
      forall k | 0 <= k < |scores| ensures scores[k].1 <= HighStressThreshold {
        assert scores[k] in scores;
      }
    }
  }

  /** In a series with distinct muscle names every entry occurs at most once. */
  lemma {:induction false} DistinctNamesCountOne(s: seq<(Muscle, real)>, e: (Muscle, real))
    requires NoDuplicates(Names(s))
    ensures multiset(s)[e] <= 1
    decreases |s|
  {
    if |s| > 0 {
      var rest := s[1..];
      assert s == [s[0]] + rest;
      forall i, j | 0 <= i < j < |rest| ensures Names(rest)[i] != Names(rest)[j] {
        assert Names(s)[i + 1] != Names(s)[j + 1];
      }
      DistinctNamesCountOne(rest, e);
      if s[0] == e {
        forall k | 0 <= k < |rest| ensures rest[k] != e {
          assert Names(s)[0] != Names(s)[k + 1];
        }
        assert e !in rest;
      }
    }
  }

  /** Two positions holding the same entry would count it twice. */
  lemma SingleCountApart(s: seq<(Muscle, real)>, i: nat, j: nat)
    requires i < j < |s| && multiset(s)[s[i]] <= 1
    ensures s[i] != s[j]
  {
    assert s == s[..j] + [s[j]] + s[j + 1..];
    assert s[i] in s[..j];
    assert multiset(s)[s[i]] >= 1 + (if s[j] == s[i] then 1 else 0);
  }

  /** Distinct entries of a series with distinct names carry distinct names. */
  lemma DistinctEntriesDistinctNames(scores: seq<(Muscle, real)>, x: (Muscle, real), y: (Muscle, real))
    requires NoDuplicates(Names(scores)) && x in scores && y in scores && x != y
    ensures x.0 != y.0
  {
    var a :| 0 <= a < |scores| && scores[a] == x;
    var b :| 0 <= b < |scores| && scores[b] == y;
    if a < b {
      assert Names(scores)[a] != Names(scores)[b];
    } else {
      assert Names(scores)[b] != Names(scores)[a];
    }
  }

  /** Each strained muscle is listed once when the scores name each muscle once. */
  lemma HighStressNamesDistinct(scores: seq<(Muscle, real)>)
    ensures NoDuplicates(Names(scores)) ==> NoDuplicates(Names(HighStress(scores)))
  {
    if NoDuplicates(Names(scores)) {
      var high := HighStress(scores);
      forall i, j | 0 <= i < j < |high| ensures Names(high)[i] != Names(high)[j] {
        DistinctNamesCountOne(scores, high[i]);
        StronglyLoadedCounts(scores, high[i]);
        SingleCountApart(high, i, j);
        DistinctEntriesDistinctNames(scores, high[i], high[j]);
      }
    }
  }

  /**
   * `create_muscle_summary_text`: no risk when nothing is above 75, otherwise
   * the strongly loaded muscles from the highest score down.
   */
  function Summarize(scores: seq<(Muscle, real)>): (s: Summary)
    ensures s.NoOvertrainingRisk? <==> forall k :: 0 <= k < |scores| ==> scores[k].1 <= HighStressThreshold
    ensures s.HighlyStrained? ==> |s.muscles| > 0
    ensures s.HighlyStrained? ==> forall m :: m in s.muscles <==>
      exists k :: 0 <= k < |scores| && scores[k].0 == m && scores[k].1 > HighStressThreshold
    ensures s.HighlyStrained? && NoDuplicates(Names(scores)) ==> NoDuplicates(s.muscles)
  {
    var high := HighStress(scores);
    HighStressEmpty(scores);
    HighStressNames(scores);
    HighStressNamesDistinct(scores);
    if |high| == 0 then NoOvertrainingRisk else HighlyStrained(Names(high))
  }

  /** The strained muscles are listed from the highest score down. */
  lemma StrainedInScoreOrder(scores: seq<(Muscle, real)>)
    requires Summarize(scores).HighlyStrained?
    ensures Summarize(scores).muscles == Names(HighStress(scores)) && NonIncreasing(HighStress(scores))
  {
  }

  // ---------------------------------------------------------------------------
  // Exercise cards

  /** `next((ex for ex in EXERCISES if ex["id"] == ex_id), None)`: the first entry with the id. */
  function FindExercise(catalogue: seq<Exercise>, id: ExerciseId): (r: Option<Exercise>)
    ensures r.None? <==> forall k :: 0 <= k < |catalogue| ==> catalogue[k].id != id
    ensures r.Some? ==> exists k :: 0 <= k < |catalogue| && catalogue[k] == r.value && r.value.id == id
                                    && forall j :: 0 <= j < k ==> catalogue[j].id != id
  {
    if |catalogue| == 0 then None
    else if catalogue[0].id == id then Some(catalogue[0])
    else
      var r := FindExercise(catalogue[1..], id);
      assert r.Some? ==> exists k :: 0 < k < |catalogue| && catalogue[k] == r.value && forall j :: 0 <= j < k ==> catalogue[j].id != id by {
        if r.Some? {
          var k :| 0 <= k < |catalogue[1..]| && catalogue[1..][k] == r.value && forall j :: 0 <= j < k ==> catalogue[1..][j].id != id;
          assert forall j :: 0 < j < k + 1 ==> catalogue[j] == catalogue[1..][j - 1];
        }
      }
      r
  }

  /** The part of a card the lookups decide: the id, the title and the image. */
  datatype Card = Card(exerciseId: ExerciseId, title: string, image: string)

  /** The card for one selected id: catalogue title and image, falling back to the id and to `""`. */
  function CardFor(catalogue: seq<Exercise>, id: ExerciseId): (c: Card)
    ensures c.exerciseId == id
    ensures (exists k :: 0 <= k < |catalogue| && catalogue[k].id == id) ==>
      exists k :: 0 <= k < |catalogue| && catalogue[k].id == id && c.title == catalogue[k].title && c.image == catalogue[k].src
    ensures (forall k :: 0 <= k < |catalogue| ==> catalogue[k].id != id) ==> c.title == id && c.image == ""
  {
    match FindExercise(catalogue, id)
    case Some(e) => Card(id, e.title, e.src)
    case None => Card(id, id, "")
  }

  /** The card loop: one card per selected id, in selection order. */
  method BuildCards(catalogue: seq<Exercise>, ids: seq<ExerciseId>) returns (cards: seq<Card>)
    ensures |cards| == |ids|
    ensures forall i :: 0 <= i < |ids| ==> cards[i] == CardFor(catalogue, ids[i])
  {
    cards := [];
    for i := 0 to |ids|
      invariant |cards| == i
      invariant forall j :: 0 <= j < i ==> cards[j] == CardFor(catalogue, ids[j])
    {
      var found := FindExercise(catalogue, ids[i]);
      var title := if found.Some? then found.value.title else ids[i];
      var image := if found.Some? then found.value.src else "";
      cards := cards + [Card(ids[i], title, image)];
    }
  }

  /** A catalogued exercise's card shows the image stored under its own id. */
  lemma CatalogueCardImage(id: ExerciseId)
    requires exists k :: 0 <= k < |Catalogue| && Catalogue[k].id == id
    ensures CardFor(Catalogue, id).image == "/assets/" + id + ".jpg"
  {
    CatalogueImagePaths();
    var k :| 0 <= k < |Catalogue| && Catalogue[k].id == id && CardFor(Catalogue, id).image == Catalogue[k].src;
    assert ImageFollowsId(Catalogue[k]);
  }

  // ---------------------------------------------------------------------------
  // The callback

  /** What the progress container shows. */
  datatype ProgressView =
    | EmptyState
    | LookupFailed(missing: seq<ExerciseId>)
    | ProgressPage(table: seq<(Muscle, real)>, summary: Summary, cards: seq<Card>)

  /** `render_training_progress`. */
  method RenderTrainingProgress(exerciseIds: Option<seq<ExerciseId>>, starData: Option<StarData>, matrix: MuscleMatrix, catalogue: seq<Exercise>)
    returns (view: ProgressView)
    requires matrix.Valid()
    requires Selected(exerciseIds) ==> FactorDefined(starData)
    ensures view.EmptyState? <==> !Selected(exerciseIds)
    ensures Selected(exerciseIds) ==>
      var scores := MuscleScores(matrix, exerciseIds.value, StarFactor(starData));
      && (view.LookupFailed? <==> scores.Failure?)
      && (view.LookupFailed? ==> view.missing == scores.error)
      && (view.ProgressPage? ==>
            && view.table == ScoreTable(matrix, exerciseIds.value, StarFactor(starData)).value
            && view.summary == Summarize(scores.value)
            && |view.cards| == |exerciseIds.value|
            && forall i :: 0 <= i < |view.cards| ==> view.cards[i] == CardFor(catalogue, exerciseIds.value[i]))
  {
    if !Selected(exerciseIds) {
      return EmptyState;
    }
    var ids := exerciseIds.value;
    var factor := ComputeStarFactor(starData);
    var cards := BuildCards(catalogue, ids);
    var table := ScoreTable(matrix, ids, factor);
    if table.Failure? {
      return LookupFailed(table.error);
    }
    var scores := MuscleScores(matrix, ids, factor);
    view := ProgressPage(table.value, Summarize(scores.value), cards);
  }

  /** The initial `added-exercises` store renders the empty message. */
  lemma InitialSelectionIsEmpty()
    ensures !Selected(Some(InitialAddedExercises))
  {
  }
}
