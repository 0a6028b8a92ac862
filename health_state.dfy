/**
 * The health-state page: the star-rating store, the star icons, the
 * confirmation modal, the complaint collapses and the saved health record.
 */
module HealthState {
  import opened Common
  import opened Exercises

  // ---------------------------------------------------------------------------
  // Star ratings

  /** The pattern-matching id of a star button: its question and its 1-based index. */
  datatype StarId = StarId(question: string, index: int)

  /** The star ids `create_star_rating` lays out run from 1 to 5. */
  predicate ValidStar(t: StarId) {
    1 <= t.index <= 5
  }

  /** Every stored rating comes from a star button. */
  predicate ValidRatings(m: StarData) {
    forall q :: q in m ==> 1 <= m[q] <= 5
  }

  /**
   * `update_star_results`: no update without a triggering star; otherwise a
   * copy of the stored map with the star's question set to its index.
   */
  function UpdateStarResults(trigger: Option<StarId>, current: StarData): (r: Option<StarData>)
    ensures r.None? <==> trigger.None?
    ensures r.Some? ==> r.value.Keys == current.Keys + {trigger.value.question}
    ensures r.Some? ==> r.value[trigger.value.question] == trigger.value.index
    ensures r.Some? ==> forall q :: q in current && q != trigger.value.question ==> r.value[q] == current[q]
  {
    match trigger
    case None => None
    case Some(t) => Some(current[t.question := t.index])
  }

  /** Rating the same question twice keeps only the later rating. */
  lemma LastRatingWins(current: StarData, question: string, first: int, second: int)
    ensures UpdateStarResults(Some(StarId(question, second)), UpdateStarResults(Some(StarId(question, first)), current).value)
         == UpdateStarResults(Some(StarId(question, second)), current)
  {
    var once := current[question := second];
    var twice := current[question := first][question := second];
    assert twice.Keys == once.Keys;
    assert forall q :: q in once ==> twice[q] == once[q];
    assert twice == once;
  }

  /** Ratings of different questions do not interfere: their order does not matter. */
  lemma RatingsCommute(current: StarData, a: StarId, b: StarId)
    requires a.question != b.question
    ensures UpdateStarResults(Some(b), UpdateStarResults(Some(a), current).value)
         == UpdateStarResults(Some(a), UpdateStarResults(Some(b), current).value)
  {
    var ab := current[a.question := a.index][b.question := b.index];
    var ba := current[b.question := b.index][a.question := a.index];
    assert ab.Keys == ba.Keys;
    assert forall q :: q in ab ==> ab[q] == ba[q];
    assert ab == ba;
  }

  /** Star clicks keep every rating within 1..5, so the recovery factor is defined and bounded. */
  lemma RatedFactorDefined(trigger: StarId, current: StarData)
    requires ValidStar(trigger) && ValidRatings(current)
    ensures ValidRatings(UpdateStarResults(Some(trigger), current).value)
    ensures var m := UpdateStarResults(Some(trigger), current).value;
            FactorDefined(Some(m)) && 5.0 / (|m| as real) <= StarFactor(Some(m)) <= 25.0 / (|m| as real)
  {
    var m := UpdateStarResults(Some(trigger), current).value;
    assert trigger.question in m;
    FactorRange(m);
  }

  /** The initial value of the `star-results` store. */
  const InitialStarResults: StarData := map[]

  /** Before any star is clicked the recovery factor is 1. */
  lemma InitialFactorIsOne()
    ensures FactorDefined(Some(InitialStarResults)) && StarFactor(Some(InitialStarResults)) == 1.0
  {
  }

  // ---------------------------------------------------------------------------
  // Star icons

  /** `bi bi-star-fill` or `bi bi-star`. */
  datatype StarIcon = Filled | Hollow {
    function ClassName(): string {
      match this
      case Filled => "bi bi-star-fill"
      case Hollow => "bi bi-star"
    }
  }

  /** `triggered["index"] if triggered else 0`. */
  function SelectedIndex(trigger: Option<StarId>): int {
    match trigger
    case None => 0
    case Some(t) => t.index
  }

  /** `update_star_display`: icon `k + 1` is filled exactly when `k + 1` is at most the clicked index. */
  function StarIcons(trigger: Option<StarId>): (icons: seq<StarIcon>)
    ensures |icons| == 5
    ensures forall k :: 0 <= k < 5 ==> (icons[k] == Filled <==> k + 1 <= SelectedIndex(trigger))
  {
    seq(5, k requires 0 <= k < 5 => if k + 1 <= SelectedIndex(trigger) then Filled else Hollow)
  }

  /** How many icons are filled. */
  function FilledCount(icons: seq<StarIcon>): (n: nat)
    ensures n <= |icons|
  {
    if |icons| == 0 then 0 else FilledCount(icons[..|icons| - 1]) + (if icons[|icons| - 1] == Filled then 1 else 0)
  }

  /** The filled icons always form a prefix: no hollow star sits before a filled one. */
  lemma FilledIconsArePrefix(trigger: Option<StarId>, i: nat, j: nat)
    requires i < j < 5 && StarIcons(trigger)[j] == Filled
    ensures StarIcons(trigger)[i] == Filled
  {
    assert j + 1 <= SelectedIndex(trigger);
  }

  /** Icons filled exactly up to a position count that many. */
  lemma {:induction false} FilledCountOfPrefix(icons: seq<StarIcon>, k: nat)
    requires k <= |icons|
    requires forall i :: 0 <= i < |icons| ==> (icons[i] == Filled <==> i < k)
    ensures FilledCount(icons) == k
    decreases |icons|
  {
    if |icons| > 0 {
      var init := icons[..|icons| - 1];
      if k == |icons| {
        FilledCountOfPrefix(init, k - 1);
      } else {
        FilledCountOfPrefix(init, k);
      }
    }
  }

  /** The number of filled stars shows exactly the rating the click stores. */
  lemma DisplayMatchesRating(trigger: StarId, current: StarData)
    requires ValidStar(trigger)
    ensures FilledCount(StarIcons(Some(trigger))) == UpdateStarResults(Some(trigger), current).value[trigger.question]
  {
    FilledCountOfPrefix(StarIcons(Some(trigger)), trigger.index);
  }

  /** With no trigger all five stars are hollow. */
  lemma NoTriggerAllHollow()
    ensures StarIcons(None) == [Hollow, Hollow, Hollow, Hollow, Hollow]
    ensures FilledCount(StarIcons(None)) == 0
  {
    FilledCountOfPrefix(StarIcons(None), 0);
  }

  // ---------------------------------------------------------------------------
  // Modal and collapses

  /** `toggle_health_modal`: the modal flips exactly when either button has been clicked. */
  function ToggleHealthModal(submitClicks: Option<int>, closeClicks: Option<int>, isOpen: bool): (open: bool)
    ensures open != isOpen <==> Clicked(submitClicks) || Clicked(closeClicks)
  {
    if Clicked(submitClicks) || Clicked(closeClicks) then !isOpen else isOpen
  }

  /** Two toggles with the same click counts bring the modal back to where it was. */
  lemma ToggleTwiceRestores(submitClicks: Option<int>, closeClicks: Option<int>, isOpen: bool)
    ensures ToggleHealthModal(submitClicks, closeClicks, ToggleHealthModal(submitClicks, closeClicks, isOpen)) == isOpen
  {
  }

  /** `toggle_longterm_input` and `toggle_shortterm_input`: the text field shows for the answer `ja` only. */
  function ComplaintsCollapseOpen(value: string): (open: bool)
    ensures open <==> value == "ja"
  {
    value == "ja"
  }

  /** The radio items start on `nein`, so both collapses start closed. */
  const InitialChoice: string := "nein"

  lemma InitiallyClosed()
    ensures !ComplaintsCollapseOpen(InitialChoice)
  {
  }

  // ---------------------------------------------------------------------------
  // Saved record

  /** The dictionary `save_health_state` puts in the `health_state` store. */
  datatype HealthRecord = HealthRecord(
    longtermChoice: string,
    longtermText: Option<string>,
    shorttermChoice: string,
    shorttermText: Option<string>,
    starRatings: StarData)

  /** `save_health_state`: every field is stored exactly as given. */
  function SaveHealthState(longtermChoice: string, longtermText: Option<string>, shorttermChoice: string,
                           shorttermText: Option<string>, starResults: StarData): (r: HealthRecord)
    ensures r.longtermChoice == longtermChoice && r.longtermText == longtermText
    ensures r.shorttermChoice == shorttermChoice && r.shorttermText == shorttermText
    ensures r.starRatings == starResults
  {
    HealthRecord(longtermChoice, longtermText, shorttermChoice, shorttermText, starResults)
  }
}
