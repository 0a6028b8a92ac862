/**
 * The recolouring of the anatomical diagram in `update_muscle_svg`: group
 * styles are made visible, path styles get the muscle's fill colour, and the
 * whole callback runs factor, aggregation, filter and rewrite in turn.
 *
 * The SVG document is an array of elements, each with a kind, an optional
 * `id` attribute and an optional `style` attribute; parsing and writing the
 * file are not modelled.
 */
module MuscleSvg {
  import opened Common
  import opened Text
  import opened Constants
  import opened Exercises
  import opened SvgStyle

  /** The element kinds the callback looks for: `svg:g`, `svg:path`, anything else. */
  datatype Kind = Group | Path | Other

  datatype Element = Element(kind: Kind, id: Option<string>, style: Option<string>)

  /** `attrib.get("style", "")`. */
  function StyleOf(e: Element): string {
    e.style.GetOr("")
  }

  // ---------------------------------------------------------------------------
  // Elements and the document

  /** The group loop's effect on one element: a group with the mapped id is made visible. */
  function ShowGroup(e: Element, group: string): (r: Element)
    ensures r.kind == e.kind && r.id == e.id
  {
    if e.kind == Group && e.id == Some(group) then e.(style := Some(ShowGroupStyle(StyleOf(e)))) else e
  }

  /** The path loop's effect on one element: a path whose id is listed gets the colour. */
  function FillPath(e: Element, paths: seq<string>, color: string): (r: Element)
    ensures r.kind == e.kind && r.id == e.id
  {
    if e.kind == Path && e.id.Some? && e.id.value in paths then e.(style := Some(PathStyle(StyleOf(e), color))) else e
  }

  function GroupPass(doc: seq<Element>, group: string): (r: seq<Element>)
    ensures |r| == |doc| && forall i :: 0 <= i < |doc| ==> r[i] == ShowGroup(doc[i], group)
  {
    seq(|doc|, i requires 0 <= i < |doc| => ShowGroup(doc[i], group))
  }

  function PathPass(doc: seq<Element>, paths: seq<string>, color: string): (r: seq<Element>)
    ensures |r| == |doc| && forall i :: 0 <= i < |doc| ==> r[i] == FillPath(doc[i], paths, color)
  {
    seq(|doc|, i requires 0 <= i < |doc| => FillPath(doc[i], paths, color))
  }

  /** The element is the mapped group of, or a mapped path of, the muscle. */
  predicate OwnedBy(e: Element, target: SvgTarget) {
    || (e.kind == Group && e.id == Some(target.group))
    || (e.kind == Path && e.id.Some? && e.id.value in target.paths)
  }

  /** What one muscle's turn does to one element. */
  function Restyle(e: Element, target: SvgTarget, color: string): (r: Element)
    ensures !OwnedBy(e, target) ==> r == e
    ensures e.kind == Group && e.id == Some(target.group) ==> r == e.(style := Some(ShowGroupStyle(StyleOf(e))))
    ensures e.kind == Path && e.id.Some? && e.id.value in target.paths ==> r == e.(style := Some(PathStyle(StyleOf(e), color)))
  {
    FillPath(ShowGroup(e, target.group), target.paths, color)
  }

  /** One muscle's turn: the group loop, then the path loop. */
  function ApplyTarget(doc: seq<Element>, target: SvgTarget, color: string): (r: seq<Element>)
    ensures |r| == |doc| && forall i :: 0 <= i < |doc| ==> r[i] == Restyle(doc[i], target, color)
  {
    PathPass(GroupPass(doc, target.group), target.paths, color)
  }

  /** The document after the loop over the colour map; muscles not in the mapping are skipped. */
  function Recolored(doc: seq<Element>, colors: seq<(Muscle, string)>, mapping: map<Muscle, SvgTarget>): (r: seq<Element>)
    ensures |r| == |doc|
    ensures forall i :: 0 <= i < |doc| ==> r[i].kind == doc[i].kind && r[i].id == doc[i].id
    decreases |colors|
  {
    if |colors| == 0 then doc
    else
      var before := Recolored(doc, colors[..|colors| - 1], mapping);
      var muscle := colors[|colors| - 1].0;
      if muscle in mapping then ApplyTarget(before, mapping[muscle], colors[|colors| - 1].1) else before
  }

  /** Some coloured muscle of the mapping owns the element. */
  predicate Coloured(e: Element, colors: seq<(Muscle, string)>, mapping: map<Muscle, SvgTarget>) {
    exists k :: 0 <= k < |colors| && colors[k].0 in mapping && OwnedBy(e, mapping[colors[k].0])
  }

  /** Elements no coloured muscle owns are left exactly as they were. */
  lemma {:induction false} RecoloredUntouched(doc: seq<Element>, colors: seq<(Muscle, string)>, mapping: map<Muscle, SvgTarget>, i: nat)
    requires i < |doc| && !Coloured(doc[i], colors, mapping)
    ensures Recolored(doc, colors, mapping)[i] == doc[i]
    decreases |colors|
  {
    if |colors| > 0 {
      var init := colors[..|colors| - 1];
      assert !Coloured(doc[i], init, mapping) by {
        forall k | 0 <= k < |init| && init[k].0 in mapping ensures !OwnedBy(doc[i], mapping[init[k].0]) {
          assert init[k] == colors[k];
        }
      }
      RecoloredUntouched(doc, init, mapping, i);
    }
  }

  /** Under a disjoint mapping an element belongs to at most one muscle. */
  lemma OwnedByOne(mapping: map<Muscle, SvgTarget>, m1: Muscle, m2: Muscle, e: Element)
    requires Disjoint(mapping) && m1 in mapping && m2 in mapping && m1 != m2
    requires OwnedBy(e, mapping[m1])
    ensures !OwnedBy(e, mapping[m2])
  {
  }

  /**
   * With a disjoint mapping and distinct muscles, an element owned by a
   * coloured muscle is rewritten by that muscle's turn alone.
   */
  lemma {:induction false} RecoloredOwned(doc: seq<Element>, colors: seq<(Muscle, string)>, mapping: map<Muscle, SvgTarget>, i: nat, k: nat)
    requires Disjoint(mapping) && NoDuplicates(Names(colors))
    requires i < |doc| && k < |colors| && colors[k].0 in mapping
    requires OwnedBy(doc[i], mapping[colors[k].0])
    ensures Recolored(doc, colors, mapping)[i] == Restyle(doc[i], mapping[colors[k].0], colors[k].1)
    decreases |colors|
  {
    var n := |colors|;
    var init := colors[..n - 1];
    var names := Names(colors);
    var owner := colors[k].0;
    if k == n - 1 {
      assert !Coloured(doc[i], init, mapping) by {
        forall j | 0 <= j < |init| && init[j].0 in mapping ensures !OwnedBy(doc[i], mapping[init[j].0]) {
          assert init[j] == colors[j];
          assert names[j] != names[k];
          OwnedByOne(mapping, owner, init[j].0, doc[i]);
        }
      }
      RecoloredUntouched(doc, init, mapping, i);
    } else {
      assert Names(init) == names[..n - 1];
      assert init[k] == colors[k];
      RecoloredOwned(doc, init, mapping, i, k);
      var last := colors[n - 1].0;
      assert names[k] != names[n - 1];
      if last in mapping {
        OwnedByOne(mapping, owner, last, doc[i]);
      }
    }
  }

  /** The group loop over the whole document, in place. */
  method ShowGroups(doc: array<Element>, group: string)
    modifies doc
    ensures doc[..] == GroupPass(old(doc[..]), group)
  {
    ghost var target := GroupPass(doc[..], group);
    for i := 0 to doc.Length
      invariant doc[..i] == target[..i]
      invariant doc[i..] == old(doc[i..])
    {
      var e := doc[i];
      assert e == old(doc[..])[i];
      if e.kind == Group && e.id == Some(group) {
        var style := StyleOf(e);
        doc[i] := e.(style := Some(ShowGroupStyle(style)));
      }
      assert doc[..i + 1] == doc[..i] + [doc[i]];
      assert target[..i + 1] == target[..i] + [target[i]];
    }
    assert doc[..] == doc[..doc.Length];
  }

  /** The path loop over the whole document, in place. */
  method FillPaths(doc: array<Element>, paths: seq<string>, color: string)
    modifies doc
    ensures doc[..] == PathPass(old(doc[..]), paths, color)
  {
    ghost var target := PathPass(doc[..], paths, color);
    for i := 0 to doc.Length
      invariant doc[..i] == target[..i]
      invariant doc[i..] == old(doc[i..])
    {
      var e := doc[i];
      assert e == old(doc[..])[i];
      if e.kind == Path && e.id.Some? && e.id.value in paths {
        var updated := RewritePathStyle(StyleOf(e), color);
        doc[i] := e.(style := Some(updated));
      }
      assert doc[..i + 1] == doc[..i] + [doc[i]];
      assert target[..i + 1] == target[..i] + [target[i]];
    }
    assert doc[..] == doc[..doc.Length];
  }

  /** The loop over the colour map, rewriting the document in place. */
  method RecolorDiagram(doc: array<Element>, colors: seq<(Muscle, string)>, mapping: map<Muscle, SvgTarget>)
    modifies doc
    ensures doc[..] == Recolored(old(doc[..]), colors, mapping)
  {
    for k := 0 to |colors|
      invariant doc[..] == Recolored(old(doc[..]), colors[..k], mapping)
    {
      assert colors[..k + 1][..k] == colors[..k];
      var muscle := colors[k].0;
      if muscle in mapping {
        ShowGroups(doc, mapping[muscle].group);
        FillPaths(doc, mapping[muscle].paths, colors[k].1);
      }
    }
    assert colors[..|colors|] == colors;
  }

  // ---------------------------------------------------------------------------
  // The callback

  /** What the callback does: no update, the `KeyError` of `.loc`, or a recoloured diagram. */
  datatype SvgOutcome = NoUpdate | LookupFailed(missing: seq<ExerciseId>) | Rendered(colors: seq<(Muscle, string)>)

  /** `update_muscle_svg`, on the diagram template already read into `doc`. */
  method UpdateMuscleSvg(exerciseIds: Option<seq<ExerciseId>>, starData: Option<StarData>, matrix: MuscleMatrix, doc: array<Element>)
    returns (outcome: SvgOutcome)
    requires matrix.Valid()
    requires Selected(exerciseIds) ==> FactorDefined(starData)
    modifies doc
    ensures outcome.NoUpdate? <==> !Selected(exerciseIds)
    ensures !outcome.Rendered? ==> doc[..] == old(doc[..])
    ensures Selected(exerciseIds) ==>
      var scores := MuscleScores(matrix, exerciseIds.value, StarFactor(starData));
      && (outcome.LookupFailed? <==> scores.Failure?)
      && (outcome.LookupFailed? ==> outcome.missing == scores.error)
      && (outcome.Rendered? ==> outcome.colors == MuscleToColor(scores.value)
                                && doc[..] == Recolored(old(doc[..]), outcome.colors, MuscleSvgMapping))
  {
    if !Selected(exerciseIds) {
      return NoUpdate;
    }
    var factor := ComputeStarFactor(starData);
    var scores := MuscleScores(matrix, exerciseIds.value, factor);
    if scores.Failure? {
      return LookupFailed(scores.error);
    }
    var colors := MuscleToColor(scores.value);
    RecolorDiagram(doc, colors, MuscleSvgMapping);
    outcome := Rendered(colors);
  }

  /**
   * In a rendered diagram every mapped path of a visible muscle carries the
   * colour of that muscle's band, and its group is shown.
   */
  lemma RenderedMuscle(matrix: MuscleMatrix, ids: seq<ExerciseId>, factor: real, doc: seq<Element>, i: nat, m: nat)
    requires matrix.Valid() && MuscleScores(matrix, ids, factor).Success?
    requires m < |matrix.muscles| && matrix.muscles[m] in MuscleSvgMapping
    requires ColumnSum(matrix, ids, matrix.muscles[m], factor) >= VisibilityThreshold
    requires i < |doc| && OwnedBy(doc[i], MuscleSvgMapping[matrix.muscles[m]])
    ensures var colors := MuscleToColor(MuscleScores(matrix, ids, factor).value);
            var color := ClassifyScore(ColumnSum(matrix, ids, matrix.muscles[m], factor)).Color();
            Recolored(doc, colors, MuscleSvgMapping)[i] ==
              if doc[i].kind == Path then doc[i].(style := Some(PathStyle(StyleOf(doc[i]), color)))
              else doc[i].(style := Some(ShowGroupStyle(StyleOf(doc[i]))))
  {
    var scores := MuscleScores(matrix, ids, factor).value;
    var colors := MuscleToColor(scores);
    var muscle := matrix.muscles[m];
    var color := ClassifyScore(ColumnSum(matrix, ids, muscle, factor)).Color();
    AtThresholdPresent(scores, m);
    var k :| 0 <= k < |colors| && colors[k] == (muscle, color);
    ScoresNamesDistinct(matrix, ids, factor);
    MuscleToColorNamesDistinct(scores);
    MappingDisjoint();
    RecoloredOwned(doc, colors, MuscleSvgMapping, i, k);
  }
}
