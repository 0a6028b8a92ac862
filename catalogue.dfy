/** `EXERCISES`: the exercise catalogue shown on the exercises page. */
module ExerciseCatalogue {
  /** A catalogue entry: `{"id", "title", "src", "category", "equipment"}`. */
  datatype Exercise = Exercise(id: string, title: string, src: string, category: string, equipment: string)

  const BarbellSquatId := "barbell_squat"
  const BarbellSquatSrc := "/assets/barbell_squat.jpg"
  const BarbellSquat := Exercise(BarbellSquatId, "Kniebeugen (Langhantel)", BarbellSquatSrc, "Beine", "Langhantel")
  const BarbellBenchPressId := "barbell_bench_press"
  const BarbellBenchPressSrc := "/assets/barbell_bench_press.jpg"
  const BarbellBenchPress := Exercise(BarbellBenchPressId, "Bankdrücken (Langhantel)", BarbellBenchPressSrc, "Brust", "Langhantel")
  const BarbellDeadliftId := "barbell_deadlift"
  const BarbellDeadliftSrc := "/assets/barbell_deadlift.jpg"
  const BarbellDeadlift := Exercise(BarbellDeadliftId, "Kreuzheben (Langhantel)", BarbellDeadliftSrc, "Rücken", "Langhantel")
  const AssistedChinUpId := "assisted_chin-up"
  const AssistedChinUpSrc := "/assets/assisted_chin-up.jpg"
  const AssistedChinUp := Exercise(AssistedChinUpId, "Unterstützter Klimmzug", AssistedChinUpSrc, "Rücken", "Maschine")
  const BarbellBentOverRowId := "barbell_bent-over_row"
  const BarbellBentOverRowSrc := "/assets/barbell_bent-over_row.jpg"
  const BarbellBentOverRow := Exercise(BarbellBentOverRowId, "Rudern vorgebeugt (Langhantel)", BarbellBentOverRowSrc, "Rücken", "Langhantel")
  const BarbellHipThrustId := "barbell_hip_thrust"
  const BarbellHipThrustSrc := "/assets/barbell_hip_thrust.jpg"
  const BarbellHipThrust := Exercise(BarbellHipThrustId, "Hüftstoß (Langhantel)", BarbellHipThrustSrc, "Gesäß / Beine", "Langhantel")
  const BarbellStandingCalfRaiseId := "barbell_standing_calf_raise"
  const BarbellStandingCalfRaiseSrc := "/assets/barbell_standing_calf_raise.jpg"
  const BarbellStandingCalfRaise := Exercise(BarbellStandingCalfRaiseId, "Wadenheben stehend (Langhantel)", BarbellStandingCalfRaiseSrc, "Waden", "Langhantel")
  const CablePulldownId := "cable_pulldown"
  const CablePulldownSrc := "/assets/cable_pulldown.jpg"
  const CablePulldown := Exercise(CablePulldownId, "Latzug am Kabelzug", CablePulldownSrc, "Rücken", "Kabelzug")
  const DumbbellBenchPressId := "dumbbell_bench_press"
  const DumbbellBenchPressSrc := "/assets/dumbbell_bench_press.jpg"
  const DumbbellBenchPress := Exercise(DumbbellBenchPressId, "Bankdrücken (Kurzhantel)", DumbbellBenchPressSrc, "Brust", "Kurzhantel")
  const DumbbellBentOverRowId := "dumbbell_bent-over_row"
  const DumbbellBentOverRowSrc := "/assets/dumbbell_bent-over_row.jpg"
  const DumbbellBentOverRow := Exercise(DumbbellBentOverRowId, "Rudern vorgebeugt (Kurzhantel)", DumbbellBentOverRowSrc, "Rücken", "Kurzhantel")
  const DumbbellHammerCurlId := "dumbbell_hammer_curl"
  const DumbbellHammerCurlSrc := "/assets/dumbbell_hammer_curl.jpg"
  const DumbbellHammerCurl := Exercise(DumbbellHammerCurlId, "Hammer-Curl (Kurzhantel)", DumbbellHammerCurlSrc, "Arme", "Kurzhantel")
  const DumbbellInclinePressId := "dumbbell_incline_press"
  const DumbbellInclinePressSrc := "/assets/dumbbell_incline_press.jpg"
  const DumbbellInclinePress := Exercise(DumbbellInclinePressId, "Schrägbankdrücken (Kurzhantel)", DumbbellInclinePressSrc, "Brust", "Kurzhantel")
  const DumbbellLateralRaiseId := "dumbbell_lateral_raise"
  const DumbbellLateralRaiseSrc := "/assets/dumbbell_lateral_raise.jpg"
  const DumbbellLateralRaise := Exercise(DumbbellLateralRaiseId, "Seitheben (Kurzhantel)", DumbbellLateralRaiseSrc, "Schulter", "Kurzhantel")
  const LegPressId := "leg_press"
  const LegPressSrc := "/assets/leg_press.jpg"
  const LegPress := Exercise(LegPressId, "Beinpresse", LegPressSrc, "Beine", "Maschine")
  const LeverNeutralGripInclineRowId := "lever_neutral_grip_incline_row"
  const LeverNeutralGripInclineRowSrc := "/assets/lever_neutral_grip_incline_row.jpg"
  const LeverNeutralGripInclineRow := Exercise(LeverNeutralGripInclineRowId, "Rudern an Maschine mit neutralem Griff", LeverNeutralGripInclineRowSrc, "Rücken", "Maschine")
  const LeverSeatedFlyId := "lever_seated_fly"
  const LeverSeatedFlySrc := "/assets/lever_seated_fly.jpg"
  const LeverSeatedFly := Exercise(LeverSeatedFlyId, "Butterfly an der Maschine", LeverSeatedFlySrc, "Brust", "Maschine")
  const LeverSeatedLegCurlId := "lever_seated_leg_curl"
  const LeverSeatedLegCurlSrc := "/assets/lever_seated_leg_curl.jpg"
  const LeverSeatedLegCurl := Exercise(LeverSeatedLegCurlId, "Beinbeuger sitzend an Maschine", LeverSeatedLegCurlSrc, "Beine", "Maschine")
  const OverheadBarbellPressId := "overhead_barbell_press"
  const OverheadBarbellPressSrc := "/assets/overhead_barbell_press.jpg"
  const OverheadBarbellPress := Exercise(OverheadBarbellPressId, "Schulterdrücken (Langhantel)", OverheadBarbellPressSrc, "Schulter", "Langhantel")
  const SitUpId := "sit-up"
  const SitUpSrc := "/assets/sit-up.jpg"
  const SitUp := Exercise(SitUpId, "Sit-up", SitUpSrc, "Bauch", "Körpergewicht")
  const WeightInclineSitUpId := "weight_incline_sit-up"
  const WeightInclineSitUpSrc := "/assets/weight_incline_sit-up.jpg"
  const WeightInclineSitUp := Exercise(WeightInclineSitUpId, "Schräger Sit-up mit Gewicht", WeightInclineSitUpSrc, "Bauch", "Körpergewicht")
  const WeightedVerticalLegRaiseId := "weighted_vertical_leg_raise"
  const WeightedVerticalLegRaiseSrc := "/assets/weighted_vertical_leg_raise.jpg"
  const WeightedVerticalLegRaise := Exercise(WeightedVerticalLegRaiseId, "Vertikales Beinheben mit Gewicht", WeightedVerticalLegRaiseSrc, "Bauch", "Körpergewicht")

  /** The catalogue in the order of its literal. */
  const Catalogue: seq<Exercise> := [
    BarbellSquat,
    BarbellBenchPress,
    BarbellDeadlift,
    AssistedChinUp,
    BarbellBentOverRow,
    BarbellHipThrust,
    BarbellStandingCalfRaise,
    CablePulldown,
    DumbbellBenchPress,
    DumbbellBentOverRow,
    DumbbellHammerCurl,
    DumbbellInclinePress,
    DumbbellLateralRaise,
    LegPress,
    LeverNeutralGripInclineRow,
    LeverSeatedFly,
    LeverSeatedLegCurl,
    OverheadBarbellPress,
    SitUp,
    WeightInclineSitUp,
    WeightedVerticalLegRaise
  ]

  /** Catalogue ids are unique. */
  lemma CatalogueIdsUnique()
    ensures |Catalogue| == 21
    ensures forall i, j :: 0 <= i < j < |Catalogue| ==> Catalogue[i].id != Catalogue[j].id
  {
  }

  /** The image of an entry is `"/assets/" + id + ".jpg"`. */
  predicate ImageFollowsId(e: Exercise) {
    e.src == "/assets/" + e.id + ".jpg"
  }

  lemma BarbellSquatImage() ensures BarbellSquatSrc == "/assets/" + BarbellSquatId + ".jpg" {}
  lemma BarbellBenchPressImage() ensures BarbellBenchPressSrc == "/assets/" + BarbellBenchPressId + ".jpg" {}
  lemma BarbellDeadliftImage() ensures BarbellDeadliftSrc == "/assets/" + BarbellDeadliftId + ".jpg" {}
  lemma AssistedChinUpImage() ensures AssistedChinUpSrc == "/assets/" + AssistedChinUpId + ".jpg" {}
  lemma BarbellBentOverRowImage() ensures BarbellBentOverRowSrc == "/assets/" + BarbellBentOverRowId + ".jpg" {}
  lemma BarbellHipThrustImage() ensures BarbellHipThrustSrc == "/assets/" + BarbellHipThrustId + ".jpg" {}
  lemma BarbellStandingCalfRaiseImage() ensures BarbellStandingCalfRaiseSrc == "/assets/" + BarbellStandingCalfRaiseId + ".jpg" {}
  lemma CablePulldownImage() ensures CablePulldownSrc == "/assets/" + CablePulldownId + ".jpg" {}
  lemma DumbbellBenchPressImage() ensures DumbbellBenchPressSrc == "/assets/" + DumbbellBenchPressId + ".jpg" {}
  lemma DumbbellBentOverRowImage() ensures DumbbellBentOverRowSrc == "/assets/" + DumbbellBentOverRowId + ".jpg" {}
  lemma DumbbellHammerCurlImage() ensures DumbbellHammerCurlSrc == "/assets/" + DumbbellHammerCurlId + ".jpg" {}
  lemma DumbbellInclinePressImage() ensures DumbbellInclinePressSrc == "/assets/" + DumbbellInclinePressId + ".jpg" {}
  lemma DumbbellLateralRaiseImage() ensures DumbbellLateralRaiseSrc == "/assets/" + DumbbellLateralRaiseId + ".jpg" {}
  lemma LegPressImage() ensures LegPressSrc == "/assets/" + LegPressId + ".jpg" {}
  lemma LeverNeutralGripInclineRowImage() ensures LeverNeutralGripInclineRowSrc == "/assets/" + LeverNeutralGripInclineRowId + ".jpg" {}
  lemma LeverSeatedFlyImage() ensures LeverSeatedFlySrc == "/assets/" + LeverSeatedFlyId + ".jpg" {}
  lemma LeverSeatedLegCurlImage() ensures LeverSeatedLegCurlSrc == "/assets/" + LeverSeatedLegCurlId + ".jpg" {}
  lemma OverheadBarbellPressImage() ensures OverheadBarbellPressSrc == "/assets/" + OverheadBarbellPressId + ".jpg" {}
  lemma SitUpImage() ensures SitUpSrc == "/assets/" + SitUpId + ".jpg" {}
  lemma WeightInclineSitUpImage() ensures WeightInclineSitUpSrc == "/assets/" + WeightInclineSitUpId + ".jpg" {}
  lemma WeightedVerticalLegRaiseImage() ensures WeightedVerticalLegRaiseSrc == "/assets/" + WeightedVerticalLegRaiseId + ".jpg" {}

  /** Every entry's image is `"/assets/" + id + ".jpg"`. */
  lemma CatalogueImagePaths()
    ensures forall i :: 0 <= i < |Catalogue| ==> ImageFollowsId(Catalogue[i])
  {
    BarbellSquatImage();
    BarbellBenchPressImage();
    BarbellDeadliftImage();
    AssistedChinUpImage();
    BarbellBentOverRowImage();
    BarbellHipThrustImage();
    BarbellStandingCalfRaiseImage();
    CablePulldownImage();
    DumbbellBenchPressImage();
    DumbbellBentOverRowImage();
    DumbbellHammerCurlImage();
    DumbbellInclinePressImage();
    DumbbellLateralRaiseImage();
    LegPressImage();
    LeverNeutralGripInclineRowImage();
    LeverSeatedFlyImage();
    LeverSeatedLegCurlImage();
    OverheadBarbellPressImage();
    SitUpImage();
    WeightInclineSitUpImage();
    WeightedVerticalLegRaiseImage();
  }
}
