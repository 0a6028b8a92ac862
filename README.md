# bay-health: a verified model of the training-load pipeline

bay-health is a Dash fitness app. Most of it wires up the user interface. Under the
callbacks sits a small pipeline that can be stated precisely, and this project models it
in Dafny:

- **Session stores.** The list of added exercises grows without duplicates. The
  star-rating map is updated last-write-wins. The initial store values are `[]` and `{}`.
- **Recovery factor.** The star-rating map becomes one scalar. It is `1` without
  ratings and `1/(total/25)` otherwise.
- **Load aggregation.** A muscle's score is the sum, over the selected rows of the
  normalised muscle-use matrix, of each cell times the factor. An exercise missing
  from the matrix is a lookup failure, as pandas' `.loc` raises.
- **Banding and visibility.** `classify_score` maps a score to one of six colour bands.
  Only muscles scoring at least `0.3` enter the muscle-to-colour map.
- **Diagram recolouring.** The muscle diagram is a sequence of elements. Each element
  has a kind, an optional id and an optional inline style.
  - A mapped group has every `display:none` turned into `display:inline`.
  - A mapped path has its `style` split on `;`, blank declarations dropped, every
    `fill:` declaration replaced, a fill appended if none existed, and the parts joined again.
  - The passes over the document are array loops that change the elements in place.
- **Health-state page.** Star icons, star results, the confirmation modal, the
  complaint collapses and the saved record.
- **Progress page.**
  - A score table sorted in descending order.
  - The strictly-above-75 "high stress" summary.
  - One card per selected exercise, in selection order, with title and image fallbacks.
  - The empty state when nothing is selected.
- **Static tables.** Matrix normalisation (`fillna(0)`, then `/4*100`), the
  muscle-to-SVG mapping and the exercise catalogue.

Modules:

| file | module | contents |
|---|---|---|
| `common.dfy` | `Common` | `Option`, `Result`, `NoDuplicates` |
| `text.dfy` | `Text` | the Python `str` operations used by the rewrite: `split`, `join`, `strip`, `startswith`, `replace` |
| `constants.dfy` | `Constants` | matrix normalisation and the muscle-to-SVG mapping |
| `catalogue.dfy` | `ExerciseCatalogue` | the exercise catalogue |
| `exercises.dfy` | `Exercises` | bands, recovery factor, aggregation, visibility filter, the added-exercises store |
| `svg_style.dfy` | `SvgStyle` | the group and path style rewrites |
| `muscle_svg.dfy` | `MuscleSvg` | elements, the document passes, the `update_muscle_svg` callback |
| `health_state.dfy` | `HealthState` | the health-state page callbacks |
| `progress.dfy` | `Progress` | the progress page: score table, summary, cards, callback |

The recovery factor divides by the rating total without a guard; see the
`Exercises.StarFactor` line under "## Left out" for what the model requires there.

## Model

| member | source | states |
|---|---|---|
| Exercises.ClassifyScore | pages/exercises/exercises.py:36-47 | Every real score gets a band, and the score lies inside that band's half-open interval. |
| Exercises.ClassifyScoreIff | pages/exercises/exercises.py:36-47 | A score is classified into a band exactly when it lies inside that band's interval. |
| Exercises.ClassifyMonotone | pages/exercises/exercises.py:36-47 | A higher score never gets a lower band. |
| Exercises.BoundariesGoUp | pages/exercises/exercises.py:36-47 | The boundary values 10, 40, 70, 100 and 130 fall into the upper band. |
| Exercises.ColorsDistinct | pages/exercises/exercises.py:36-47 | The six colour codes are pairwise distinct, so a colour identifies its band. |
| Exercises.TotalStarsRemove | pages/exercises/exercises.py:226 | The rating total splits into one question's rating plus the total of the others. |
| Exercises.TotalStarsBounds | utils.py:157-162 | With every rating in 1..5, the total lies between the number of ratings and five times that number. |
| Exercises.SumStars | pages/exercises/exercises.py:226 | The loop over the map returns the sum of all ratings. |
| Exercises.StarFactor | pages/exercises/exercises.py:225-229 | The factor is 1 without ratings and 25/total with ratings. |
| Exercises.ComputeStarFactor | pages/exercises/exercises.py:225-229 | Computing `1/(total/25)` from the summed ratings yields the recovery factor. |
| Exercises.FactorRange | pages/exercises/exercises.py:225-229 | With ratings in 1..5 the total is non-zero, and the factor lies between 5/n and 25/n for n rated questions. |
| Exercises.TotalStarsUniform | pages/exercises/exercises.py:226 | When every rating equals s, the total is s times the number of ratings. |
| Exercises.SixFiveStarRatings | pages/exercises/exercises.py:225-229 | Six five-star ratings give the factor 25/30. |
| Exercises.ColumnSumScaled | pages/exercises/exercises.py:231 | Aggregation is linear: the factor-weighted sum is the factor times the unweighted sum. |
| Exercises.ColumnSumAppend | pages/exercises/exercises.py:231 | The sum over two concatenated selections is the sum of their sums. |
| Exercises.ColumnSumNonNegative | pages/exercises/exercises.py:231 | A non-negative matrix and factor give a non-negative score. |
| Exercises.MissingIds | pages/exercises/exercises.py:231 | Lists exactly the selected ids that have no matrix row. |
| Exercises.MuscleScores | pages/exercises/exercises.py:231 | Fails exactly when a selected id is missing, and the failure names only missing ids. Otherwise it gives one score per matrix column, in column order, equal to the factor-weighted column sum. |
| Exercises.ScoresNamesDistinct | pages/exercises/exercises.py:231 | The score series is indexed by the matrix columns in order, each column once. |
| Exercises.MuscleToColor | pages/exercises/exercises.py:233-237 | The colour map holds exactly the pairs (muscle, band colour of its score) for scores of at least 0.3. |
| Exercises.MuscleToColorNamesDistinct | pages/exercises/exercises.py:233-237 | Each muscle appears in the colour map at most once. |
| Exercises.MutedMuscleAbsent | pages/exercises/exercises.py:233-237 | A muscle whose scores are all below 0.3 is absent from the colour map. |
| Exercises.BelowThresholdAbsent | pages/exercises/exercises.py:233-237 | A muscle scoring below 0.3 is absent from the colour map, rather than given the lowest band's colour. |
| Exercises.AtThresholdPresent | pages/exercises/exercises.py:233-237 | A muscle scoring at least 0.3 is in the colour map with its band's colour. |
| Exercises.QuadricepsTwiceIsRed | pages/exercises/exercises.py:225-237 | Two exercises loading the quadriceps at 50 each, without ratings, give a score of 100 and the red band. |
| Exercises.FullRecoveryLowersBand | pages/exercises/exercises.py:225-234 | Six five-star ratings scale a score of 100 down into the orange band. |
| Exercises.ExerciseList.constructor | pages/exercises/exercises.py:204-205 | A missing store starts as an empty list. |
| Exercises.ExerciseList.Append | pages/exercises/exercises.py:207 | Appending puts the id at the end of the stored list. |
| Exercises.WithExercise | pages/exercises/exercises.py:206-207 | The result contains the id and keeps the old list as its prefix. A present id leaves the list unchanged, and a new id is appended at the end. |
| Exercises.WithExerciseKeepsDistinct | pages/exercises/exercises.py:206-207 | A duplicate-free list stays duplicate-free, and its members are the old ones plus the id. |
| Exercises.WithExerciseIdempotent | pages/exercises/exercises.py:206-207 | Adding the same exercise twice is the same as adding it once. |
| Exercises.StoreAddedExercise | pages/exercises/exercises.py:196-209 | There is no update exactly when no click count is non-zero or the trigger carries no index; the store is then untouched. Otherwise the stored list, created if absent, becomes the old list with the id added. |
| Constants.Normalize | constants.py:7-12 | The matrix keeps the CSV's rows and columns, and every cell is 25 times the raw value. |
| Constants.EmptyCellIsZero | constants.py:10 | A cell missing from the CSV is 0 in the matrix. |
| Constants.NormalizeNonNegative | constants.py:12 | Non-negative raw values give a non-negative matrix. |
| Constants.EntriesToMapHolds | constants.py:16-97 | The mapping's keys are exactly the listed muscles, and each maps to its listed target. |
| Constants.PathsUnshared | constants.py:16-97 | No path id is listed under two different muscles. |
| Constants.MappingShape | constants.py:16-97 | There are 20 distinct muscles, each with a group id and a non-empty path list. |
| Constants.MappingDisjoint | constants.py:16-97 | Different muscles have different group ids and share no path id. |
| Constants.GroupsDistinct | constants.py:16-97 | The group ids of the mapping are pairwise distinct. |
| ExerciseCatalogue.CatalogueIdsUnique | constants.py:106-128 | The catalogue lists 21 exercises with pairwise distinct ids. |
| ExerciseCatalogue.CatalogueImagePaths | constants.py:106-128 | Every entry's image is `/assets/` + id + `.jpg`. |
| Text.TrimLeftRemovesBlankPrefix | pages/exercises/exercises.py:262 | Left stripping removes a blank prefix and stops at a non-space character. |
| Text.TrimRightRemovesBlankSuffix | pages/exercises/exercises.py:262 | Right stripping removes a blank suffix and stops at a non-space character. |
| Text.StripEmptyIffBlank | pages/exercises/exercises.py:262 | `strip()` gives the empty string exactly for white-space-only strings. |
| Text.StripKeepsPrefix | pages/exercises/exercises.py:266 | A string starting with a prefix that has no space at either end still starts with it after `strip()`. |
| Text.Split | pages/exercises/exercises.py:262 | `split` yields at least one piece, and no piece contains the separator. |
| Text.SplitJoin | pages/exercises/exercises.py:262-273 | Splitting a join gives back the pieces when none contains the separator. |
| Text.JoinSplit | pages/exercises/exercises.py:262-273 | Joining a split gives back the string. |
| Text.ReplaceAbsent | pages/exercises/exercises.py:257 | `replace` leaves a string without the pattern unchanged. |
| SvgStyle.ShowGroupStyleKeepsVisible | pages/exercises/exercises.py:256-257 | A group style without `display:none` is left unchanged. |
| SvgStyle.ShowGroupStyleNoHidden | pages/exercises/exercises.py:257 | After the group rewrite no `display:none` remains. |
| SvgStyle.ShowGroupStyleIdempotent | pages/exercises/exercises.py:257 | Rewriting a group style twice is the same as rewriting it once. |
| SvgStyle.KeepNonBlankMembers | pages/exercises/exercises.py:262 | The filter keeps exactly the pieces that are not blank. |
| SvgStyle.SegmentsAreDeclarations | pages/exercises/exercises.py:262 | The parts are exactly the non-blank pieces of the split. Each part is non-blank and contains no `;`. |
| SvgStyle.KeepNonBlankAll | pages/exercises/exercises.py:262 | Pieces that are all non-blank pass the filter unchanged. |
| SvgStyle.HasFillSnoc | pages/exercises/exercises.py:264-268 | After a part, the flag is set exactly when an earlier part or this part is a fill. |
| SvgStyle.ReplaceFillsAt | pages/exercises/exercises.py:265-270 | Each fill part becomes `fill:<color>` in place, and every other part is kept verbatim. |
| SvgStyle.UpdatedSegmentsShape | pages/exercises/exercises.py:262-272 | The parts keep their order, fills are replaced and other parts kept verbatim. One `fill:<color>` is appended exactly when no part was a fill. |
| SvgStyle.RewritePathStyle | pages/exercises/exercises.py:261-273 | The loop with the `filled` flag computes the rewritten path style. |
| SvgStyle.FillWithIsFill | pages/exercises/exercises.py:267 | The written `fill:<color>` is itself recognised as a non-blank fill declaration. |
| SvgStyle.PathStyleSegments | pages/exercises/exercises.py:262-273 | For a colour without `;`, splitting the new style gives back exactly the updated declarations. |
| SvgStyle.UpdatedSegmentsNonBlank | pages/exercises/exercises.py:262-272 | Updating non-blank declarations leaves no blank declaration. |
| SvgStyle.UpdatedSegmentsHasFill | pages/exercises/exercises.py:265-272 | The updated declarations always contain a fill. |
| SvgStyle.UpdatedSegmentsFixed | pages/exercises/exercises.py:262-272 | Updating the declarations a second time with the same colour changes nothing. |
| SvgStyle.PathStyleIdempotent | pages/exercises/exercises.py:259-273 | Restyling a path twice with the same colour is the same as restyling it once. |
| MuscleSvg.ShowGroup | pages/exercises/exercises.py:254-257 | The group rewrite never changes an element's kind or id. |
| MuscleSvg.FillPath | pages/exercises/exercises.py:259-273 | The path rewrite never changes an element's kind or id. |
| MuscleSvg.GroupPass | pages/exercises/exercises.py:254-257 | The group pass rewrites each element independently and keeps the document's length. |
| MuscleSvg.PathPass | pages/exercises/exercises.py:259-273 | The path pass rewrites each element independently and keeps the document's length. |
| MuscleSvg.Restyle | pages/exercises/exercises.py:251-273 | An element outside the muscle's target is unchanged. The matching group gets the group rewrite, and a listed path gets the path rewrite. |
| MuscleSvg.ApplyTarget | pages/exercises/exercises.py:251-273 | One muscle's passes restyle every element against that muscle's target. |
| MuscleSvg.Recolored | pages/exercises/exercises.py:247-273 | Recolouring keeps the document's length and every element's kind and id. |
| MuscleSvg.RecoloredUntouched | pages/exercises/exercises.py:247-260 | An element that belongs to no coloured, mapped muscle is unchanged; unmapped muscles are skipped. |
| MuscleSvg.OwnedByOne | constants.py:16-97 | Under the disjoint mapping, an element belongs to at most one muscle. |
| MuscleSvg.RecoloredOwned | pages/exercises/exercises.py:247-273 | An element that belongs to a coloured muscle ends up restyled by that muscle's target and colour alone. |
| MuscleSvg.ShowGroups | pages/exercises/exercises.py:254-257 | The in-place loop leaves the document equal to the group pass over the old document. |
| MuscleSvg.FillPaths | pages/exercises/exercises.py:259-273 | The in-place loop leaves the document equal to the path pass over the old document. |
| MuscleSvg.RecolorDiagram | pages/exercises/exercises.py:247-273 | Running the passes for every coloured muscle leaves the document recoloured. |
| MuscleSvg.UpdateMuscleSvg | pages/exercises/exercises.py:217-273 | There is no update exactly when nothing is selected. A missing exercise reports the missing ids and leaves the document unchanged. Otherwise the colours are the visible bands and the document is recoloured through the mapping. |
| MuscleSvg.RenderedMuscle | pages/exercises/exercises.py:231-273 | A visible, mapped muscle's paths get its band colour, and its group is shown. |
| HealthState.UpdateStarResults | pages/health_state/health_state.py:164-173 | There is no update exactly when nothing triggered. Otherwise the result has the old keys plus the question, the question maps to the clicked index, and every other key is unchanged. |
| HealthState.LastRatingWins | pages/health_state/health_state.py:171-173 | Rating the same question twice keeps only the second rating. |
| HealthState.RatingsCommute | pages/health_state/health_state.py:171-173 | Ratings of two different questions give the same map in either order. |
| HealthState.RatedFactorDefined | pages/health_state/health_state.py:168-173 | Clicking a star with an index in 1..5 keeps every rating in 1..5, so the recovery factor is defined and bounded. |
| HealthState.InitialFactorIsOne | app_layout.py:97 | The initial empty rating store gives the factor 1. |
| HealthState.StarIcons | pages/health_state/health_state.py:106-114 | There are exactly five icons, and icon i (1-based) is filled exactly when i is at most the clicked index. |
| HealthState.FilledIconsArePrefix | pages/health_state/health_state.py:109-114 | The filled icons form a prefix of the row. |
| HealthState.DisplayMatchesRating | pages/health_state/health_state.py:106-114 | After a click, the number of filled icons equals the rating stored for that question. |
| HealthState.NoTriggerAllHollow | pages/health_state/health_state.py:106-107 | Without a trigger, all five icons are hollow. |
| HealthState.ToggleHealthModal | pages/health_state/health_state.py:136-138 | The modal's state flips exactly when either click count is non-zero. |
| HealthState.ToggleTwiceRestores | pages/health_state/health_state.py:136-138 | Two toggles with the same clicks restore the modal's state. |
| HealthState.ComplaintsCollapseOpen | pages/health_state/health_state.py:67 | A complaint collapse is open exactly when the choice is `"ja"`; the short-term toggle at line 84 is the same function. |
| HealthState.InitiallyClosed | pages/health_state/layout.py:28 | The initial radio value `"nein"` keeps the collapse closed. |
| HealthState.SaveHealthState | pages/health_state/health_state.py:44-50 | The saved record's five fields equal the inputs. |
| Progress.Insert | pages/progress/progress.py:48 | Inserting into a descending list keeps it descending, adds exactly that entry, and puts either it or the old head first. |
| Progress.SortDescending | pages/progress/progress.py:48 | The sorted scores are in non-increasing order and are a permutation of the input. |
| Progress.ScoreTable | pages/progress/progress.py:47-48 | Fails exactly when a selected id is missing, with the same missing ids. Otherwise the rows are the muscle scores, as a permutation in non-increasing order. |
| Progress.ScoreTableRows | pages/progress/progress.py:47-48 | Every muscle appears in the table with its factor-weighted column sum, and only with that value. |
| Progress.StronglyLoaded | pages/progress/progress.py:90 | Keeps exactly the scores strictly above 75. |
| Progress.StronglyLoadedCounts | pages/progress/progress.py:90 | The mask keeps each entry above 75 exactly as often as the scores hold it, and drops every other entry. |
| Progress.StronglyLoadedAppend | pages/progress/progress.py:90 | The mask keeps the relative order of the scores: masking a concatenation concatenates the masked parts. |
| Progress.HighStress | pages/progress/progress.py:90-98 | A permutation of the masked scores, so it holds exactly the scores strictly above 75, each as often as before, in non-increasing order. |
| Progress.HighStressNames | pages/progress/progress.py:90-98 | A muscle is listed exactly when one of its scores is above 75. |
| Progress.HighStressNamesDistinct | pages/progress/progress.py:90-98 | When the scores name each muscle once, the strained list names each muscle once. |
| Progress.HighStressEmpty | pages/progress/progress.py:90-92 | The high-stress list is empty exactly when no score exceeds 75. |
| Progress.Summarize | pages/progress/progress.py:88-106 | Reports no overtraining risk exactly when no score exceeds 75. Otherwise it lists a non-empty set of muscles: exactly those scoring above 75, each once when the scores name each muscle once. |
| Progress.StrainedInScoreOrder | pages/progress/progress.py:98 | The strained muscles are listed in non-increasing score order. |
| Progress.FindExercise | pages/progress/progress.py:190-191 | Finds nothing exactly when no catalogue entry has the id. Otherwise it returns a catalogue entry with that id. |
| Progress.CardFor | pages/progress/progress.py:190-191 | A card takes the catalogue entry's title and image. An unknown id falls back to the id as title and `""` as image. |
| Progress.BuildCards | pages/progress/progress.py:188-207 | One card per selected exercise, in selection order. |
| Progress.CatalogueCardImage | pages/progress/progress.py:191 | A catalogue exercise's card shows `/assets/` + id + `.jpg`. |
| Progress.RenderTrainingProgress | pages/progress/progress.py:114-222 | Shows the empty state exactly when nothing is selected; a missing exercise reports the missing ids. Otherwise the page holds the sorted score table, the summary and the cards, all computed with the recovery factor. |
| Progress.InitialSelectionIsEmpty | app_layout.py:94 | The initial empty selection shows the empty state. |

## Left out

- The Mistral chat call in `analyze_exercise` (pages/exercises/exercises.py:56-168): an external service with free-form output.
- `show_added_feedback` (pages/exercises/exercises.py:176-180): a fixed confirmation text after a click; user-interface feedback only.
- XML parsing and writing, the namespace lookup, the timestamped output file name and the returned asset URL (pages/exercises/exercises.py:239-245, 275-276). The document is a flat array of the descendant elements `findall` visits. Nesting, other attributes and the XML namespace are not modelled.
- `get_latest_muscle_svg` (pages/progress/progress.py:20-33): file-system globbing and modification times.
- CSV loading (constants.py:8). The raw table is given data, and the matrix is computed from it.
- Dash wiring: decorators, `ctx.triggered_id` (a parameter here), the `PreventUpdate` and `no_update` signals (result constructors here), and component construction. Layout modules, app.py and utils.py are presentation code.
- The placeholder training rows, `date.today()` and the input grid on each card (pages/progress/progress.py:140-185): sample display data with no logic.
- Exercises.MuscleScores: scores are exact `real` numbers, so IEEE floating-point rounding and the `round(2)` of the table display (pages/progress/progress.py:52) are not modelled.
- Progress.SortDescending: pandas' `sort_values` does not promise an order among equal scores. The model fixes one order and promises only the non-increasing order and the permutation.
- Exercises.StarFactor: the factor requires a non-zero rating total when ratings exist, because the source divides without a guard. Ratings from star ids 1..5 always meet this requirement (`FactorRange`).
- Click counts are `Option<int>` (`None` for a component never clicked), and Python truthiness is `Clicked`.
- The input rating map is a value, so `current_data.copy()` not mutating the caller's map holds by construction.
- The `health_state` store (initially `[]`, app_layout.py:95) is read only by `analyze_exercise`, which is left out; with the initial `[]` its `.get` call would raise.
