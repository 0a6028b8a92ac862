/**
 * The two style rewrites of `update_muscle_svg`: a muscle's group has
 * `display:none` replaced by `display:inline`, and each of its paths gets its
 * `fill` declaration replaced (or added) with the band colour.
 */
module SvgStyle {
  import opened Common
  import opened Text

  // ---------------------------------------------------------------------------
  // Group styles

  const Hidden: string := "display:none"
  const Shown: string := "display:inline"

  /** `style.replace("display:none", "display:inline")`. */
  function ShowGroupStyle(style: string): string {
    ReplaceAll(style, Hidden, Shown)
  }

  /** A style without `display:none` is left exactly as it was. */
  lemma ShowGroupStyleKeepsVisible(style: string)
    requires forall i :: !OccursAt(style, Hidden, i)
    ensures ShowGroupStyle(style) == style
  {
    ReplaceAbsent(style, Hidden, Shown);
  }

  /** When the style does not start with `display:none`, neither does the rewritten one. */
  lemma HeadNotHidden(s: string)
    requires |s| >= |Hidden| && s[..|Hidden|] != Hidden
    ensures !OccursAt(ShowGroupStyle(s), Hidden, 0)
  {
    var t := ShowGroupStyle(s);
    var rest := ShowGroupStyle(s[1..]);
    assert t == [s[0]] + rest;
    if |rest| >= 11 {
      if j :| 0 <= j < 11 && rest[j] == 'd' {
        assert t[j + 1] == 'd' && Hidden[j + 1] != 'd';
        assert t[..12][j + 1] != Hidden[j + 1];
      } else {
        ReplacedPrefix(s[1..], Hidden, Shown, 11);
        assert t[..12] == [s[0]] + rest[..11];
        assert s[..12] == [s[0]] + s[1..][..11];
      }
    }
  }

  /** After the rewrite no `display:none` is left anywhere in the style. */
  lemma {:induction false} ShowGroupStyleNoHidden(s: string)
    ensures forall i :: !OccursAt(ShowGroupStyle(s), Hidden, i)
    decreases |s|
  {
    var t := ShowGroupStyle(s);
    if |s| >= |Hidden| {
      if s[..|Hidden|] == Hidden {
        var rest := ShowGroupStyle(s[|Hidden|..]);
        ShowGroupStyleNoHidden(s[|Hidden|..]);
        assert t == Shown + rest;
        forall i ensures !OccursAt(t, Hidden, i) {
          if |Shown| <= i && i + |Hidden| <= |t| {
            assert !OccursAt(rest, Hidden, i - |Shown|);
            assert t[i..i + |Hidden|] == rest[i - |Shown|..i - |Shown| + |Hidden|];
          } else if i == 0 {
            assert t[..|Hidden|][8] == 'i' != Hidden[8];
          } else if 0 < i < |Shown| && i + |Hidden| <= |t| {
            assert t[i..i + |Hidden|][0] == Shown[i];
            assert Shown[i] != 'd';
          }
        }
      } else {
        var rest := ShowGroupStyle(s[1..]);
        ShowGroupStyleNoHidden(s[1..]);
        assert t == [s[0]] + rest;
        HeadNotHidden(s);
        forall i ensures !OccursAt(t, Hidden, i) {
          if 1 <= i && i + |Hidden| <= |t| {
            assert !OccursAt(rest, Hidden, i - 1);
            assert t[i..i + |Hidden|] == rest[i - 1..i - 1 + |Hidden|];
          }
        }
      }
    }
  }

  /** Showing a group twice is the same as showing it once. */
  lemma ShowGroupStyleIdempotent(style: string)
    ensures ShowGroupStyle(ShowGroupStyle(style)) == ShowGroupStyle(style)
  {
    ShowGroupStyleNoHidden(style);
    ShowGroupStyleKeepsVisible(ShowGroupStyle(style));
  }

  // ---------------------------------------------------------------------------
  // Path styles

  /** The separator of declarations in an inline style. */
  const Semicolon: char := ';'

  /** The pieces of `style.split(";")` kept by `if s.strip()`. */
  function KeepNonBlank(pieces: seq<string>): (parts: seq<string>)
    ensures |parts| <= |pieces|
  {
    if |pieces| == 0 then []
    else if Strip(pieces[0]) != [] then [pieces[0]] + KeepNonBlank(pieces[1..])
    else KeepNonBlank(pieces[1..])
  }

  /** The filter keeps exactly the pieces that are not blank. */
  lemma {:induction false} KeepNonBlankMembers(pieces: seq<string>)
    ensures forall p :: p in KeepNonBlank(pieces) <==> p in pieces && !IsBlank(p)
    decreases |pieces|
  {
    if |pieces| > 0 {
      KeepNonBlankMembers(pieces[1..]);
      StripEmptyIffBlank(pieces[0]);
      assert pieces == [pieces[0]] + pieces[1..];
    }
  }

  /** `[s for s in style.split(";") if s.strip()]`: the non-blank declarations. */
  function Segments(style: string): seq<string> {
    KeepNonBlank(Split(style, Semicolon))
  }

  /** The declarations are the non-blank pieces between semicolons, none holding a `;`. */
  lemma SegmentsAreDeclarations(style: string)
    ensures forall p :: p in Segments(style) <==> p in Split(style, Semicolon) && !IsBlank(p)
    ensures forall i :: 0 <= i < |Segments(style)| ==> Semicolon !in Segments(style)[i] && !IsBlank(Segments(style)[i])
  {
    var parts := Segments(style);
    KeepNonBlankMembers(Split(style, Semicolon));
    assert forall i :: 0 <= i < |parts| ==> parts[i] in parts;
  }

  /** `p.strip().startswith("fill:")`. */
  predicate IsFill(p: string) {
    StartsWith(Strip(p), "fill:")
  }

  /** `f"fill:{color}"`. */
  function FillWith(color: string): string {
    "fill:" + color
  }

  /** Some declaration sets the fill. */
  predicate HasFill(parts: seq<string>) {
    exists i :: 0 <= i < |parts| && IsFill(parts[i])
  }

  /** One more declaration sets the fill exactly when it is a fill or an earlier one was. */
  lemma HasFillSnoc(parts: seq<string>, p: string)
    ensures HasFill(parts + [p]) <==> HasFill(parts) || IsFill(p)
  {
    var all := parts + [p];
    if HasFill(parts) {
      var j :| 0 <= j < |parts| && IsFill(parts[j]);
      assert all[j] == parts[j];
    }
    if IsFill(p) {
      assert all[|parts|] == p;
    }
    if HasFill(all) {
      var j :| 0 <= j < |all| && IsFill(all[j]);
      if j < |parts| {
        assert all[j] == parts[j];
      }
    }
  }

  /** The declarations after the loop over them. */
  function ReplaceFills(parts: seq<string>, color: string): (r: seq<string>)
    ensures |r| == |parts|
  {
    if |parts| == 0 then []
    else ReplaceFills(parts[..|parts| - 1], color) + [if IsFill(parts[|parts| - 1]) then FillWith(color) else parts[|parts| - 1]]
  }

  /** The loop replaces each fill declaration in place and keeps every other one verbatim. */
  lemma {:induction false} ReplaceFillsAt(parts: seq<string>, color: string, i: nat)
    requires i < |parts|
    ensures ReplaceFills(parts, color)[i] == if IsFill(parts[i]) then FillWith(color) else parts[i]
    decreases |parts|
  {
    if i < |parts| - 1 {
      ReplaceFillsAt(parts[..|parts| - 1], color, i);
    }
  }

  /** The declarations written back. */
  function UpdatedSegments(parts: seq<string>, color: string): seq<string> {
    if HasFill(parts) then ReplaceFills(parts, color) else ReplaceFills(parts, color) + [FillWith(color)]
  }

  /**
   * What is written back: every fill declaration replaced by the new fill,
   * the others kept in order, and one fill appended only when there was none.
   */
  lemma UpdatedSegmentsShape(parts: seq<string>, color: string)
    ensures |UpdatedSegments(parts, color)| == if HasFill(parts) then |parts| else |parts| + 1
    ensures forall i :: 0 <= i < |parts| ==>
      UpdatedSegments(parts, color)[i] == if IsFill(parts[i]) then FillWith(color) else parts[i]
    ensures !HasFill(parts) ==> UpdatedSegments(parts, color)[|parts|] == FillWith(color)
  {
    forall i | 0 <= i < |parts|
      ensures UpdatedSegments(parts, color)[i] == if IsFill(parts[i]) then FillWith(color) else parts[i]
    {
      ReplaceFillsAt(parts, color, i);
    }
  }

  /** The new `style` of a coloured path. */
  function PathStyle(style: string, color: string): string {
    Join(UpdatedSegments(Segments(style), color), Semicolon)
  }

  /** The rewrite of one path's style, declaration by declaration with the `filled` flag. */
  method RewritePathStyle(style: string, color: string) returns (result: string)
    ensures result == PathStyle(style, color)
  {
    var parts := Segments(style);
    var updated: seq<string> := [];
    var filled := false;
    for k := 0 to |parts|
      invariant updated == ReplaceFills(parts[..k], color)
      invariant filled <==> HasFill(parts[..k])
    {
      var p := parts[k];
      assert parts[..k + 1] == parts[..k] + [p];
      HasFillSnoc(parts[..k], p);
      if IsFill(p) {
        updated := updated + [FillWith(color)];
        filled := true;
      } else {
        updated := updated + [p];
      }
    }
    assert parts[..|parts|] == parts;
    if !filled {
      updated := updated + [FillWith(color)];
    }
    result := Join(updated, Semicolon);
  }

  /** A fill written by the rewrite is itself recognised as a fill. */
  lemma FillWithIsFill(color: string)
    ensures IsFill(FillWith(color)) && !IsBlank(FillWith(color))
  {
    StripKeepsPrefix(FillWith(color), "fill:");
    assert FillWith(color)[0] == 'f';
  }

  /** Splitting the new style on `;` gives back the declarations written, when the colour holds no `;`. */
  lemma PathStyleSegments(style: string, color: string)
    requires Semicolon !in color
    ensures Split(PathStyle(style, color), Semicolon) == UpdatedSegments(Segments(style), color)
  {
    var parts := Segments(style);
    var updated := UpdatedSegments(parts, color);
    SegmentsAreDeclarations(style);
    UpdatedSegmentsShape(parts, color);
    assert Semicolon !in FillWith(color);
    assert forall i :: 0 <= i < |updated| ==> Semicolon !in updated[i];
    SplitJoin(updated, Semicolon);
  }

  /** Every declaration written is non-blank. */
  lemma UpdatedSegmentsNonBlank(parts: seq<string>, color: string)
    requires forall i :: 0 <= i < |parts| ==> !IsBlank(parts[i])
    ensures forall i :: 0 <= i < |UpdatedSegments(parts, color)| ==> !IsBlank(UpdatedSegments(parts, color)[i])
  {
    var updated := UpdatedSegments(parts, color);
    FillWithIsFill(color);
    UpdatedSegmentsShape(parts, color);
    assert forall i :: 0 <= i < |updated| ==> !IsBlank(updated[i]);
  }

  /** The declarations written always set the fill. */
  lemma UpdatedSegmentsHasFill(parts: seq<string>, color: string)
    ensures HasFill(UpdatedSegments(parts, color))
  {
    var updated := UpdatedSegments(parts, color);
    FillWithIsFill(color);
    UpdatedSegmentsShape(parts, color);
    if HasFill(parts) {
      var j :| 0 <= j < |parts| && IsFill(parts[j]);
      assert updated[j] == FillWith(color);
    } else {
      assert IsFill(updated[|parts|]);
    }
  }

  /** Updating already updated declarations with the same colour changes nothing. */
  lemma UpdatedSegmentsFixed(parts: seq<string>, color: string)
    ensures UpdatedSegments(UpdatedSegments(parts, color), color) == UpdatedSegments(parts, color)
  {
    var updated := UpdatedSegments(parts, color);
    UpdatedSegmentsHasFill(parts, color);
    FillWithIsFill(color);
    UpdatedSegmentsShape(parts, color);
    UpdatedSegmentsShape(updated, color);
    var again := UpdatedSegments(updated, color);
    assert forall i :: 0 <= i < |updated| ==> again[i] == updated[i];
  }

  /** Non-blank declarations survive the blank filter unchanged. */
  lemma {:induction false} KeepNonBlankAll(pieces: seq<string>)
    requires forall i :: 0 <= i < |pieces| ==> !IsBlank(pieces[i])
    ensures KeepNonBlank(pieces) == pieces
    decreases |pieces|
  {
    if |pieces| > 0 {
      StripEmptyIffBlank(pieces[0]);
      KeepNonBlankAll(pieces[1..]);
      assert [pieces[0]] + pieces[1..] == pieces;
    }
  }

  /** Colouring a path twice with the same colour changes nothing the second time. */
  lemma PathStyleIdempotent(style: string, color: string)
    requires Semicolon !in color
    ensures PathStyle(PathStyle(style, color), color) == PathStyle(style, color)
  {
    var updated := UpdatedSegments(Segments(style), color);
    PathStyleSegments(style, color);
    SegmentsAreDeclarations(style);
    UpdatedSegmentsNonBlank(Segments(style), color);
    KeepNonBlankAll(updated);
    UpdatedSegmentsFixed(Segments(style), color);
  }
}
