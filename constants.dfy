/**
 * The application's static tables: the muscle-load matrix (normalised once
 * from its CSV form), the muscle-to-diagram mapping and the exercise catalogue.
 */
module Constants {
  import opened Common

  type ExerciseId = string
  type Muscle = string

  /**
   * The CSV as read: one column per muscle, one row per exercise. A muscle
   * missing from a row's map is an empty cell (pandas reads it as NaN).
   */
  datatype RawTable = RawTable(columns: seq<Muscle>, rows: map<ExerciseId, map<Muscle, real>>)

  /**
   * The muscle-load matrix as a pandas frame: every row holds a value for
   * every column, in percent.
   */
  datatype MuscleMatrix = MuscleMatrix(muscles: seq<Muscle>, rows: map<ExerciseId, map<Muscle, real>>) {
    /** The frame's own shape: distinct column labels, no cell missing. */
    predicate Valid() {
      && NoDuplicates(muscles)
      && forall id :: id in rows ==> forall m :: m in muscles ==> m in rows[id]
    }
  }

  /** `fillna(0)`: the cell's value, or 0 for an empty cell. */
  function Cell(raw: RawTable, id: ExerciseId, m: Muscle): real
    requires id in raw.rows
  {
    if m in raw.rows[id] then raw.rows[id][m] else 0.0
  }

  /** `MUSCLE_MATRIX`: empty cells become 0, then every value is divided by 4 and scaled by 100. */
  function Normalize(raw: RawTable): (matrix: MuscleMatrix)
    requires NoDuplicates(raw.columns)
    ensures matrix.Valid()
    ensures matrix.muscles == raw.columns && matrix.rows.Keys == raw.rows.Keys
    ensures forall id, m :: id in raw.rows && m in raw.columns ==> matrix.rows[id][m] == 25.0 * Cell(raw, id, m)
  {
    MuscleMatrix(raw.columns, map id | id in raw.rows :: map m | m in raw.columns :: Cell(raw, id, m) / 4.0 * 100.0)
  }

  /** An empty cell becomes 0 in the matrix, not a missing entry. */
  lemma EmptyCellIsZero(raw: RawTable, id: ExerciseId, m: Muscle)
    requires NoDuplicates(raw.columns)
    requires id in raw.rows && m in raw.columns && m !in raw.rows[id]
    ensures m in Normalize(raw).rows[id] && Normalize(raw).rows[id][m] == 0.0
  {
  }

  /** Non-negative raw usage gives non-negative percentages. */
  predicate NonNegative(matrix: MuscleMatrix) {
    forall id, m :: id in matrix.rows && m in matrix.rows[id] ==> matrix.rows[id][m] >= 0.0
  }

  lemma NormalizeNonNegative(raw: RawTable)
    requires NoDuplicates(raw.columns)
    requires forall id, m :: id in raw.rows && m in raw.rows[id] ==> raw.rows[id][m] >= 0.0
    ensures NonNegative(Normalize(raw))
  {
  }

  /** Where a muscle sits in the anatomical diagram: one group and the paths inside it. */
  datatype SvgTarget = SvgTarget(group: string, paths: seq<string>)

  // The path ids of each muscle in `MUSCLE_SVG_MAPPING`, named so that the
  // disjointness proof below can work on one list at a time.
  const PectoralisMajorPaths: seq<string> := ["path2", "path3"]
  const DeltoidPaths: seq<string> := ["path4", "path5"]
  const TrapeciusPaths: seq<string> := ["path6", "path7", "path37", "path38"]
  const BicepsBrachiPaths: seq<string> := ["path8", "path9"]
  const ObliquePaths: seq<string> := ["path10", "path11", "path12", "path13"]
  const BrachialisPaths: seq<string> := ["path14", "path15", "path16", "path17"]
  const SternocleidomastoidPaths: seq<string> := ["path18", "path19"]
  const RectusAbdominisPaths: seq<string> := ["path20", "path21", "path23", "path24"]
  const BrachioradialisPaths: seq<string> := ["path25", "path26", "path54", "path55", "path56"]
  const QuadricepsPaths: seq<string> := ["path27", "path28"]
  const GastrocnemiusPaths: seq<string> := ["path29", "path30", "path31", "path32"]
  const LatissimusDorsiPaths: seq<string> := ["path33", "path34"]
  const TerresMajorPaths: seq<string> := ["path35", "path36"]
  const InfraspinatusPaths: seq<string> := ["path40", "path41"]
  const PosteriorHeadPaths: seq<string> := ["path42", "path43", "path44"]
  const GluteusMaximusPaths: seq<string> := ["path45", "path46"]
  const SoleusPaths: seq<string> := ["path47", "path48"]
  const TricepsBrachiPaths: seq<string> := ["path49", "path50"]
  const ErectorSpinaePaths: seq<string> := ["path51"]
  const LevatorScapulaePaths: seq<string> := ["path52", "path53"]

  /** `MUSCLE_SVG_MAPPING`, entry by entry in the order of its literal. */
  const MappingEntries: seq<(Muscle, SvgTarget)> := [
    ("pectoralis_major", SvgTarget("g3", PectoralisMajorPaths)),
    ("deltoid", SvgTarget("g5", DeltoidPaths)),
    ("trapecius", SvgTarget("g7", TrapeciusPaths)),
    ("biceps_brachi", SvgTarget("g9", BicepsBrachiPaths)),
    ("oblique", SvgTarget("g13", ObliquePaths)),
    ("brachialis", SvgTarget("g17", BrachialisPaths)),
    ("sternocleidomastoid", SvgTarget("g19", SternocleidomastoidPaths)),
    ("rectus_abdominis", SvgTarget("g24", RectusAbdominisPaths)),
    ("brachioradialis", SvgTarget("g26", BrachioradialisPaths)),
    ("quadriceps", SvgTarget("g28", QuadricepsPaths)),
    ("gastrocnemius", SvgTarget("g32", GastrocnemiusPaths)),
    ("latissimus_dorsi", SvgTarget("g34", LatissimusDorsiPaths)),
    ("terres_major", SvgTarget("g36", TerresMajorPaths)),
    ("infraspinatus", SvgTarget("g41", InfraspinatusPaths)),
    ("posterior_head", SvgTarget("g44", PosteriorHeadPaths)),
    ("gluteus_maximus", SvgTarget("g46", GluteusMaximusPaths)),
    ("soleus", SvgTarget("g48", SoleusPaths)),
    ("triceps_brachi", SvgTarget("g50", TricepsBrachiPaths)),
    ("erector_spinae", SvgTarget("g51", ErectorSpinaePaths)),
    ("levator_scapulae", SvgTarget("g53", LevatorScapulaePaths))
  ]

  /** The dictionary a literal of entries builds: later entries win, as in Python. */
  function EntriesToMap(entries: seq<(Muscle, SvgTarget)>): map<Muscle, SvgTarget>
  {
    if |entries| == 0 then map[]
    else EntriesToMap(entries[..|entries| - 1])[entries[|entries| - 1].0 := entries[|entries| - 1].1]
  }

  /** With distinct keys, the dictionary holds exactly the entries. */
  lemma {:induction false} EntriesToMapHolds(entries: seq<(Muscle, SvgTarget)>)
    requires forall i, j :: 0 <= i < j < |entries| ==> entries[i].0 != entries[j].0
    ensures forall m :: m in EntriesToMap(entries) <==> exists i :: 0 <= i < |entries| && entries[i].0 == m
    ensures forall i :: 0 <= i < |entries| ==> EntriesToMap(entries)[entries[i].0] == entries[i].1
    decreases |entries|
  {
    if |entries| > 0 {
      var init := entries[..|entries| - 1];
      EntriesToMapHolds(init);
      forall m | m in EntriesToMap(entries) ensures exists i :: 0 <= i < |entries| && entries[i].0 == m {
        if m != entries[|entries| - 1].0 {
          var i :| 0 <= i < |init| && init[i].0 == m;
          assert entries[i].0 == m;
        }
      }
      forall i | 0 <= i < |entries| ensures EntriesToMap(entries)[entries[i].0] == entries[i].1 {
        if i < |init| {
          assert init[i] == entries[i];
        }
      }
    }
  }

  /** `MUSCLE_SVG_MAPPING` as the dictionary the recolouring looks muscles up in. */
  const MuscleSvgMapping: map<Muscle, SvgTarget> := EntriesToMap(MappingEntries)

  /** No two muscles share a group, and no path belongs to two muscles. */
  predicate Disjoint(mapping: map<Muscle, SvgTarget>) {
    && (forall m1, m2 :: m1 in mapping && m2 in mapping && mapping[m1].group == mapping[m2].group ==> m1 == m2)
    && (forall m1, m2, p :: m1 in mapping && m2 in mapping && p in mapping[m1].paths && p in mapping[m2].paths ==> m1 == m2)
  }

  lemma PectoralisMajorPathsUnshared()
    ensures forall p :: p in PectoralisMajorPaths ==> p !in DeltoidPaths && p !in TrapeciusPaths && p !in BicepsBrachiPaths && p !in ObliquePaths && p !in BrachialisPaths && p !in SternocleidomastoidPaths && p !in RectusAbdominisPaths && p !in BrachioradialisPaths && p !in QuadricepsPaths && p !in GastrocnemiusPaths && p !in LatissimusDorsiPaths && p !in TerresMajorPaths && p !in InfraspinatusPaths && p !in PosteriorHeadPaths && p !in GluteusMaximusPaths && p !in SoleusPaths && p !in TricepsBrachiPaths && p !in ErectorSpinaePaths && p !in LevatorScapulaePaths
  {
  }

  lemma DeltoidPathsUnshared()
    ensures forall p :: p in DeltoidPaths ==> p !in TrapeciusPaths && p !in BicepsBrachiPaths && p !in ObliquePaths && p !in BrachialisPaths && p !in SternocleidomastoidPaths && p !in RectusAbdominisPaths && p !in BrachioradialisPaths && p !in QuadricepsPaths && p !in GastrocnemiusPaths && p !in LatissimusDorsiPaths && p !in TerresMajorPaths && p !in InfraspinatusPaths && p !in PosteriorHeadPaths && p !in GluteusMaximusPaths && p !in SoleusPaths && p !in TricepsBrachiPaths && p !in ErectorSpinaePaths && p !in LevatorScapulaePaths
  {
  }

  lemma TrapeciusPathsUnshared()
    ensures forall p :: p in TrapeciusPaths ==> p !in BicepsBrachiPaths && p !in ObliquePaths && p !in BrachialisPaths && p !in SternocleidomastoidPaths && p !in RectusAbdominisPaths && p !in BrachioradialisPaths && p !in QuadricepsPaths && p !in GastrocnemiusPaths && p !in LatissimusDorsiPaths && p !in TerresMajorPaths && p !in InfraspinatusPaths && p !in PosteriorHeadPaths && p !in GluteusMaximusPaths && p !in SoleusPaths && p !in TricepsBrachiPaths && p !in ErectorSpinaePaths && p !in LevatorScapulaePaths
  {
  }

  lemma BicepsBrachiPathsUnshared()
    ensures forall p :: p in BicepsBrachiPaths ==> p !in ObliquePaths && p !in BrachialisPaths && p !in SternocleidomastoidPaths && p !in RectusAbdominisPaths && p !in BrachioradialisPaths && p !in QuadricepsPaths && p !in GastrocnemiusPaths && p !in LatissimusDorsiPaths && p !in TerresMajorPaths && p !in InfraspinatusPaths && p !in PosteriorHeadPaths && p !in GluteusMaximusPaths && p !in SoleusPaths && p !in TricepsBrachiPaths && p !in ErectorSpinaePaths && p !in LevatorScapulaePaths
  {
  }

  lemma ObliquePathsUnshared()
    ensures forall p :: p in ObliquePaths ==> p !in BrachialisPaths && p !in SternocleidomastoidPaths && p !in RectusAbdominisPaths && p !in BrachioradialisPaths && p !in QuadricepsPaths && p !in GastrocnemiusPaths && p !in LatissimusDorsiPaths && p !in TerresMajorPaths && p !in InfraspinatusPaths && p !in PosteriorHeadPaths && p !in GluteusMaximusPaths && p !in SoleusPaths && p !in TricepsBrachiPaths && p !in ErectorSpinaePaths && p !in LevatorScapulaePaths
  {
  }

  lemma BrachialisPathsUnshared()
    ensures forall p :: p in BrachialisPaths ==> p !in SternocleidomastoidPaths && p !in RectusAbdominisPaths && p !in BrachioradialisPaths && p !in QuadricepsPaths && p !in GastrocnemiusPaths && p !in LatissimusDorsiPaths && p !in TerresMajorPaths && p !in InfraspinatusPaths && p !in PosteriorHeadPaths && p !in GluteusMaximusPaths && p !in SoleusPaths && p !in TricepsBrachiPaths && p !in ErectorSpinaePaths && p !in LevatorScapulaePaths
  {
  }

  lemma SternocleidomastoidPathsUnshared()
    ensures forall p :: p in SternocleidomastoidPaths ==> p !in RectusAbdominisPaths && p !in BrachioradialisPaths && p !in QuadricepsPaths && p !in GastrocnemiusPaths && p !in LatissimusDorsiPaths && p !in TerresMajorPaths && p !in InfraspinatusPaths && p !in PosteriorHeadPaths && p !in GluteusMaximusPaths && p !in SoleusPaths && p !in TricepsBrachiPaths && p !in ErectorSpinaePaths && p !in LevatorScapulaePaths
  {
  }

  lemma RectusAbdominisPathsUnshared()
    ensures forall p :: p in RectusAbdominisPaths ==> p !in BrachioradialisPaths && p !in QuadricepsPaths && p !in GastrocnemiusPaths && p !in LatissimusDorsiPaths && p !in TerresMajorPaths && p !in InfraspinatusPaths && p !in PosteriorHeadPaths && p !in GluteusMaximusPaths && p !in SoleusPaths && p !in TricepsBrachiPaths && p !in ErectorSpinaePaths && p !in LevatorScapulaePaths
  {
  }

  lemma BrachioradialisPathsUnshared()
    ensures forall p :: p in BrachioradialisPaths ==> p !in QuadricepsPaths && p !in GastrocnemiusPaths && p !in LatissimusDorsiPaths && p !in TerresMajorPaths && p !in InfraspinatusPaths && p !in PosteriorHeadPaths && p !in GluteusMaximusPaths && p !in SoleusPaths && p !in TricepsBrachiPaths && p !in ErectorSpinaePaths && p !in LevatorScapulaePaths
  {
  }

  lemma QuadricepsPathsUnshared()
    ensures forall p :: p in QuadricepsPaths ==> p !in GastrocnemiusPaths && p !in LatissimusDorsiPaths && p !in TerresMajorPaths && p !in InfraspinatusPaths && p !in PosteriorHeadPaths && p !in GluteusMaximusPaths && p !in SoleusPaths && p !in TricepsBrachiPaths && p !in ErectorSpinaePaths && p !in LevatorScapulaePaths
  {
  }

  lemma GastrocnemiusPathsUnshared()
    ensures forall p :: p in GastrocnemiusPaths ==> p !in LatissimusDorsiPaths && p !in TerresMajorPaths && p !in InfraspinatusPaths && p !in PosteriorHeadPaths && p !in GluteusMaximusPaths && p !in SoleusPaths && p !in TricepsBrachiPaths && p !in ErectorSpinaePaths && p !in LevatorScapulaePaths
  {
  }

  lemma LatissimusDorsiPathsUnshared()
    ensures forall p :: p in LatissimusDorsiPaths ==> p !in TerresMajorPaths && p !in InfraspinatusPaths && p !in PosteriorHeadPaths && p !in GluteusMaximusPaths && p !in SoleusPaths && p !in TricepsBrachiPaths && p !in ErectorSpinaePaths && p !in LevatorScapulaePaths
  {
  }

  lemma TerresMajorPathsUnshared()
    ensures forall p :: p in TerresMajorPaths ==> p !in InfraspinatusPaths && p !in PosteriorHeadPaths && p !in GluteusMaximusPaths && p !in SoleusPaths && p !in TricepsBrachiPaths && p !in ErectorSpinaePaths && p !in LevatorScapulaePaths
  {
  }

  lemma InfraspinatusPathsUnshared()
    ensures forall p :: p in InfraspinatusPaths ==> p !in PosteriorHeadPaths && p !in GluteusMaximusPaths && p !in SoleusPaths && p !in TricepsBrachiPaths && p !in ErectorSpinaePaths && p !in LevatorScapulaePaths
  {
  }

  lemma PosteriorHeadPathsUnshared()
    ensures forall p :: p in PosteriorHeadPaths ==> p !in GluteusMaximusPaths && p !in SoleusPaths && p !in TricepsBrachiPaths && p !in ErectorSpinaePaths && p !in LevatorScapulaePaths
  {
  }

  lemma GluteusMaximusPathsUnshared()
    ensures forall p :: p in GluteusMaximusPaths ==> p !in SoleusPaths && p !in TricepsBrachiPaths && p !in ErectorSpinaePaths && p !in LevatorScapulaePaths
  {
  }

  lemma SoleusPathsUnshared()
    ensures forall p :: p in SoleusPaths ==> p !in TricepsBrachiPaths && p !in ErectorSpinaePaths && p !in LevatorScapulaePaths
  {
  }

  lemma TricepsBrachiPathsUnshared()
    ensures forall p :: p in TricepsBrachiPaths ==> p !in ErectorSpinaePaths && p !in LevatorScapulaePaths
  {
  }

  lemma ErectorSpinaePathsUnshared()
    ensures forall p :: p in ErectorSpinaePaths ==> p !in LevatorScapulaePaths
  {
  }

  lemma PathsUnsharedFirst(i: nat, j: nat)
    requires 0 <= i < 5 && i < j < |MappingEntries|
    ensures forall p :: p in MappingEntries[i].1.paths ==> p !in MappingEntries[j].1.paths
  {
    if i == 0 { PectoralisMajorPathsUnshared(); }
    else if i == 1 { DeltoidPathsUnshared(); }
    else if i == 2 { TrapeciusPathsUnshared(); }
    else if i == 3 { BicepsBrachiPathsUnshared(); }
    else if i == 4 { ObliquePathsUnshared(); }
  }

  lemma PathsUnsharedSecond(i: nat, j: nat)
    requires 5 <= i < 10 && i < j < |MappingEntries|
    ensures forall p :: p in MappingEntries[i].1.paths ==> p !in MappingEntries[j].1.paths
  {
    if i == 5 { BrachialisPathsUnshared(); }
    else if i == 6 { SternocleidomastoidPathsUnshared(); }
    else if i == 7 { RectusAbdominisPathsUnshared(); }
    else if i == 8 { BrachioradialisPathsUnshared(); }
    else if i == 9 { QuadricepsPathsUnshared(); }
  }

  lemma PathsUnsharedThird(i: nat, j: nat)
    requires 10 <= i < 15 && i < j < |MappingEntries|
    ensures forall p :: p in MappingEntries[i].1.paths ==> p !in MappingEntries[j].1.paths
  {
    if i == 10 { GastrocnemiusPathsUnshared(); }
    else if i == 11 { LatissimusDorsiPathsUnshared(); }
    else if i == 12 { TerresMajorPathsUnshared(); }
    else if i == 13 { InfraspinatusPathsUnshared(); }
    else if i == 14 { PosteriorHeadPathsUnshared(); }
  }

  lemma PathsUnsharedFourth(i: nat, j: nat)
    requires 15 <= i < 19 && i < j < |MappingEntries|
    ensures forall p :: p in MappingEntries[i].1.paths ==> p !in MappingEntries[j].1.paths
  {
    if i == 15 { GluteusMaximusPathsUnshared(); }
    else if i == 16 { SoleusPathsUnshared(); }
    else if i == 17 { TricepsBrachiPathsUnshared(); }
    else if i == 18 { ErectorSpinaePathsUnshared(); }
  }

  /** Two different entries of the mapping share no path id. */
  lemma PathsUnshared(i: nat, j: nat)
    requires i < j < |MappingEntries|
    ensures forall p :: p in MappingEntries[i].1.paths ==> p !in MappingEntries[j].1.paths
  {
    if i < 5 { PathsUnsharedFirst(i, j); }
    else if i < 10 { PathsUnsharedSecond(i, j); }
    else if i < 15 { PathsUnsharedThird(i, j); }
    else { PathsUnsharedFourth(i, j); }
  }

  /** Every muscle of the mapping has one group id and at least one path id. */
  lemma MappingShape()
    ensures |MappingEntries| == 20
    ensures forall i, j :: 0 <= i < j < |MappingEntries| ==> MappingEntries[i].0 != MappingEntries[j].0
    ensures forall m :: m in MuscleSvgMapping <==> exists i :: 0 <= i < |MappingEntries| && MappingEntries[i].0 == m
    ensures forall i :: 0 <= i < |MappingEntries| ==> MuscleSvgMapping[MappingEntries[i].0] == MappingEntries[i].1
    ensures forall m :: m in MuscleSvgMapping ==> |MuscleSvgMapping[m].paths| > 0
  {
    var e := MappingEntries;
    assert forall i, j :: 0 <= i < j < |e| ==> e[i].0 != e[j].0;
    EntriesToMapHolds(e);
    assert forall i :: 0 <= i < |e| ==> |e[i].1.paths| > 0;
  }

  /** The entry a muscle of the mapping comes from. */
  lemma EntryOf(m: Muscle) returns (i: nat)
    requires m in MuscleSvgMapping
    ensures i < |MappingEntries| && MappingEntries[i].0 == m && MuscleSvgMapping[m] == MappingEntries[i].1
  {
    MappingShape();
    i :| 0 <= i < |MappingEntries| && MappingEntries[i].0 == m;
  }

  /** Group ids are pairwise distinct and no path id belongs to two muscles. */
  lemma MappingDisjoint()
    ensures Disjoint(MuscleSvgMapping)
  {
    GroupsDistinct();
    forall m1, m2 | m1 in MuscleSvgMapping && m2 in MuscleSvgMapping && MuscleSvgMapping[m1].group == MuscleSvgMapping[m2].group
      ensures m1 == m2
    {
      var i := EntryOf(m1);
      var j := EntryOf(m2);
    }
    forall m1, m2, p | m1 in MuscleSvgMapping && m2 in MuscleSvgMapping && p in MuscleSvgMapping[m1].paths && p in MuscleSvgMapping[m2].paths
      ensures m1 == m2
    {
      var i := EntryOf(m1);
      var j := EntryOf(m2);
      if i < j { PathsUnshared(i, j); }
      else if j < i { PathsUnshared(j, i); }
    }
  }

  lemma GroupsDistinct()
    ensures forall i, j :: 0 <= i < j < |MappingEntries| ==> MappingEntries[i].1.group != MappingEntries[j].1.group
  {
  }
}
