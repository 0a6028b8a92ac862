/**
 * The Python string operations the diagram recolouring relies on:
 * `str.split(sep)`, `sep.join(parts)`, `str.strip()`, `str.startswith(prefix)`
 * and `str.replace(pattern, replacement)`, on strings as sequences of characters.
 */
module Text {

  /** The characters `str.isspace()` accepts, which `str.strip()` removes. */
  predicate IsSpace(c: char) {
    || c == ' '
    || ('\t' <= c <= '\r')
    || ('\U{1C}' <= c <= '\U{1F}')
    || c == '\U{85}' || c == '\U{A0}' || c == '\U{1680}'
    || ('\U{2000}' <= c <= '\U{200A}')
    || c == '\U{2028}' || c == '\U{2029}' || c == '\U{202F}' || c == '\U{205F}' || c == '\U{3000}'
  }

  /** `s.strip() == ""`: the string holds nothing but white space. */
  predicate IsBlank(s: string) {
    forall i :: 0 <= i < |s| ==> IsSpace(s[i])
  }

  /** `s.lstrip()`. */
  function TrimLeft(s: string): (r: string)
    ensures |r| <= |s|
  {
    if |s| == 0 || !IsSpace(s[0]) then s else TrimLeft(s[1..])
  }

  /** `s.rstrip()`. */
  function TrimRight(s: string): (r: string)
    ensures |r| <= |s|
  {
    if |s| == 0 || !IsSpace(s[|s| - 1]) then s else TrimRight(s[..|s| - 1])
  }

  /** Left trimming drops a blank prefix and stops at the first non-space character. */
  lemma {:induction false} TrimLeftRemovesBlankPrefix(s: string)
    ensures TrimLeft(s) == s[|s| - |TrimLeft(s)|..]
    ensures TrimLeft(s) == [] || !IsSpace(TrimLeft(s)[0])
    ensures IsBlank(s[..|s| - |TrimLeft(s)|])
    decreases |s|
  {
    if |s| > 0 && IsSpace(s[0]) {
      var r := TrimLeft(s[1..]);
      TrimLeftRemovesBlankPrefix(s[1..]);
      assert s[1..][|s| - 1 - |r|..] == s[|s| - |r|..];
      assert s[1..][..|s| - 1 - |r|] == s[1..|s| - |r|];
      assert forall i :: 1 <= i < |s| - |r| ==> s[i] == s[1..|s| - |r|][i - 1];
    }
  }

  /** Right trimming drops a blank suffix and stops at the last non-space character. */
  lemma {:induction false} TrimRightRemovesBlankSuffix(s: string)
    ensures TrimRight(s) == s[..|TrimRight(s)|]
    ensures TrimRight(s) == [] || !IsSpace(TrimRight(s)[|TrimRight(s)| - 1])
    ensures IsBlank(s[|TrimRight(s)|..])
    decreases |s|
  {
    if |s| > 0 && IsSpace(s[|s| - 1]) {
      var r := TrimRight(s[..|s| - 1]);
      TrimRightRemovesBlankSuffix(s[..|s| - 1]);
      assert s[..|s| - 1][..|r|] == s[..|r|];
      assert s[..|s| - 1][|r|..] + [s[|s| - 1]] == s[|r|..];
    }
  }

  /** `s.strip()`: white space removed from both ends. */
  function Strip(s: string): string {
    TrimRight(TrimLeft(s))
  }

  /** A non-blank character survives trimming on the right. */
  lemma {:induction false} TrimRightKeeps(s: string, i: nat)
    requires i < |s| && !IsSpace(s[i])
    ensures i < |TrimRight(s)|
    decreases |s|
  {
    if IsSpace(s[|s| - 1]) {
      TrimRightKeeps(s[..|s| - 1], i);
    }
  }

  lemma {:induction false} TrimLeftBlank(s: string)
    requires IsBlank(s)
    ensures TrimLeft(s) == []
    decreases |s|
  {
    if |s| > 0 {
      assert IsSpace(s[0]);
      TrimLeftBlank(s[1..]);
    }
  }

  /** Stripping leaves nothing exactly when the string is blank. */
  lemma StripEmptyIffBlank(s: string)
    ensures Strip(s) == [] <==> IsBlank(s)
  {
    if IsBlank(s) {
      TrimLeftBlank(s);
    } else {
      StripKeepsNonBlank(s);
    }
  }

  lemma {:induction false} TrimLeftNonBlank(s: string)
    requires !IsBlank(s)
    ensures TrimLeft(s) != []
    decreases |s|
  {
    var i :| 0 <= i < |s| && !IsSpace(s[i]);
    if IsSpace(s[0]) {
      assert !IsSpace(s[1..][i - 1]);
      TrimLeftNonBlank(s[1..]);
    }
  }

  lemma StripKeepsNonBlank(s: string)
    requires !IsBlank(s)
    ensures Strip(s) != []
  {
    TrimLeftNonBlank(s);
    TrimLeftRemovesBlankPrefix(s);
    TrimRightKeeps(TrimLeft(s), 0);
  }

  /** `s.startswith(prefix)`. */
  predicate StartsWith(s: string, prefix: string) {
    |prefix| <= |s| && s[..|prefix|] == prefix
  }

  /** A string that begins with a non-blank prefix still begins with it once stripped. */
  lemma StripKeepsPrefix(s: string, prefix: string)
    requires StartsWith(s, prefix) && |prefix| > 0
    requires !IsSpace(prefix[0]) && !IsSpace(prefix[|prefix| - 1])
    ensures StartsWith(Strip(s), prefix)
  {
    assert s[0] == prefix[0];
    assert TrimLeft(s) == s;
    assert s[|prefix| - 1] == prefix[|prefix| - 1];
    TrimRightKeeps(s, |prefix| - 1);
    TrimRightRemovesBlankSuffix(s);
    var r := TrimRight(s);
    assert r[..|prefix|] == s[..|prefix|];
  }

  /** `sep.join(parts)`. */
  function Join(parts: seq<string>, sep: char): string
  {
    if |parts| == 0 then ""
    else if |parts| == 1 then parts[0]
    else parts[0] + [sep] + Join(parts[1..], sep)
  }

  /** `s.split(sep)`: the pieces between separators, always at least one. */
  function Split(s: string, sep: char): (r: seq<string>)
    ensures |r| >= 1
    ensures forall i :: 0 <= i < |r| ==> sep !in r[i]
  {
    if |s| == 0 then [""]
    else
      var rest := Split(s[1..], sep);
      if s[0] == sep then [""] + rest
      else [[s[0]] + rest[0]] + rest[1..]
  }

  lemma {:induction false} SplitAfterPiece(piece: string, sep: char, tail: string)
    requires sep !in piece
    ensures Split(piece + [sep] + tail, sep) == [piece] + Split(tail, sep)
    decreases |piece|
  {
    var s := piece + [sep] + tail;
    if |piece| == 0 {
      assert s[1..] == tail;
    } else {
      assert s[1..] == piece[1..] + [sep] + tail;
      SplitAfterPiece(piece[1..], sep, tail);
      assert [piece[0]] + piece[1..] == piece;
    }
  }

  lemma {:induction false} SplitPiece(piece: string, sep: char)
    requires sep !in piece
    ensures Split(piece, sep) == [piece]
    decreases |piece|
  {
    if |piece| > 0 {
      SplitPiece(piece[1..], sep);
      assert [piece[0]] + piece[1..] == piece;
    }
  }

  /** Splitting a join recovers the pieces when no piece holds the separator. */
  lemma {:induction false} SplitJoin(parts: seq<string>, sep: char)
    requires |parts| >= 1
    requires forall i :: 0 <= i < |parts| ==> sep !in parts[i]
    ensures Split(Join(parts, sep), sep) == parts
    decreases |parts|
  {
    if |parts| == 1 {
      SplitPiece(parts[0], sep);
    } else {
      SplitJoin(parts[1..], sep);
      SplitAfterPiece(parts[0], sep, Join(parts[1..], sep));
      assert [parts[0]] + parts[1..] == parts;
    }
  }

  /** Joining a split gives back the string. */
  lemma {:induction false} JoinSplit(s: string, sep: char)
    ensures Join(Split(s, sep), sep) == s
    decreases |s|
  {
    if |s| > 0 {
      var rest := Split(s[1..], sep);
      JoinSplit(s[1..], sep);
      if s[0] == sep {
        assert ([""] + rest)[1..] == rest;
      } else {
        var r := [[s[0]] + rest[0]] + rest[1..];
        if |rest| > 1 {
          assert r[1..] == rest[1..];
          assert Join(rest, sep) == rest[0] + [sep] + Join(rest[1..], sep);
        }
        assert [s[0]] + s[1..] == s;
      }
    }
  }

  /** `pattern` occurs in `s` at index `i`. */
  predicate OccursAt(s: string, pattern: string, i: int) {
    0 <= i && i + |pattern| <= |s| && s[i..i + |pattern|] == pattern
  }

  /** `s.replace(pattern, replacement)`: every non-overlapping occurrence, left to right. */
  function ReplaceAll(s: string, pattern: string, replacement: string): string
    requires |pattern| > 0
    decreases |s|
  {
    if |s| < |pattern| then s
    else if s[..|pattern|] == pattern then replacement + ReplaceAll(s[|pattern|..], pattern, replacement)
    else [s[0]] + ReplaceAll(s[1..], pattern, replacement)
  }

  /** An occurrence in the tail of a string is an occurrence in the string, one place later. */
  lemma OccursInTail(s: string, pattern: string, i: int)
    requires |s| > 0 && OccursAt(s[1..], pattern, i)
    ensures OccursAt(s, pattern, i + 1)
  {
    assert s[i + 1..i + 1 + |pattern|] == s[1..][i..i + |pattern|];
  }

  /** A string without the pattern is left as it is. */
  lemma {:induction false} ReplaceAbsent(s: string, pattern: string, replacement: string)
    requires |pattern| > 0
    requires forall i :: !OccursAt(s, pattern, i)
    ensures ReplaceAll(s, pattern, replacement) == s
    decreases |s|
  {
    if |s| >= |pattern| {
      assert !OccursAt(s, pattern, 0);
      forall i ensures !OccursAt(s[1..], pattern, i) {
        if OccursAt(s[1..], pattern, i) {
          OccursInTail(s, pattern, i);
        }
      }
      ReplaceAbsent(s[1..], pattern, replacement);
    }
  }

  /**
   * When the replacement begins with the pattern's first character, any
   * stretch of the result free of that character was copied unchanged.
   */
  lemma {:induction false} ReplacedPrefix(s: string, pattern: string, replacement: string, k: nat)
    requires |pattern| > 0 && |replacement| > 0 && replacement[0] == pattern[0]
    requires k <= |ReplaceAll(s, pattern, replacement)|
    requires forall j :: 0 <= j < k ==> ReplaceAll(s, pattern, replacement)[j] != pattern[0]
    ensures k <= |s| && ReplaceAll(s, pattern, replacement)[..k] == s[..k]
    decreases |s|
  {
    var r := ReplaceAll(s, pattern, replacement);
    assert k > 0 ==> r[0] != pattern[0];
    if k > 0 && |s| >= |pattern| {
      if s[..|pattern|] == pattern {
        assert false;
      } else {
        var r' := ReplaceAll(s[1..], pattern, replacement);
        assert r == [s[0]] + r';
        forall j | 0 <= j < k - 1 ensures r'[j] != pattern[0] {
          assert r'[j] == r[j + 1];
        }
        ReplacedPrefix(s[1..], pattern, replacement, k - 1);
        assert r[..k] == [s[0]] + r'[..k - 1];
        assert s[..k] == [s[0]] + s[1..][..k - 1];
      }
    }
  }
}
