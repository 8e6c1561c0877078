/**
 * Note file names (package `utils`): `GenerateFileName` and the four-stage
 * title cleaning it applies. Each stage is a function on strings; `Tidy` is an
 * independent one-pass reading of what the four stages achieve together, and
 * `PipelineIsTidy` proves that the two agree on every title.
 */
module Utils {
  import opened Wrappers
  import opened Timestamps

  /** A character of the class `[/\\:*?"<>|]` used at utils/file.go:30. */
  predicate IsSpecial(c: char)
  {
    c == '/' || c == '\\' || c == ':' || c == '*' || c == '?' ||
    c == '"' || c == '<' || c == '>' || c == '|'
  }

  /** A character that cleaning turns into, or treats as, a word break. */
  predicate IsSeparator(c: char)
  {
    c == ' ' || IsSpecial(c) || c == '-'
  }

  /** Positions `i - 1` and `i` of `s` both hold a hyphen. */
  predicate DoubleHyphenAt(s: string, i: int)
    requires 0 < i < |s|
  {
    s[i - 1] == '-' && s[i] == '-'
  }

  predicate NoDoubleHyphen(s: string)
  {
    forall i :: 0 < i < |s| ==> !DoubleHyphenAt(s, i)
  }

  predicate AllHyphens(s: string)
  {
    forall i :: 0 <= i < |s| ==> s[i] == '-'
  }

  predicate NoEdgeHyphen(s: string)
  {
    s == [] || (s[0] != '-' && s[|s| - 1] != '-')
  }

  /** What a cleaned title looks like: no space, no special character, no `--`, no hyphen at either end. */
  predicate IsCleanTitle(s: string)
  {
    (forall i :: 0 <= i < |s| ==> s[i] != ' ' && !IsSpecial(s[i])) &&
    NoDoubleHyphen(s) &&
    NoEdgeHyphen(s)
  }

  /** The characters of `s` that are not separators, in their original order. */
  function Kept(s: string): string
  {
    if s == [] then []
    else (if IsSeparator(s[0]) then [] else [s[0]]) + Kept(s[1..])
  }

  /** The characters of `s` other than `-`, in their original order. */
  function WithoutHyphens(s: string): string
  {
    if s == [] then []
    else (if s[0] == '-' then [] else [s[0]]) + WithoutHyphens(s[1..])
  }

  lemma NoDoubleHyphenTail(s: string)
    requires s != [] && NoDoubleHyphen(s)
    ensures NoDoubleHyphen(s[1..])
  {
    forall i | 0 < i < |s| - 1 ensures !DoubleHyphenAt(s[1..], i) {
      assert !DoubleHyphenAt(s, i + 1);
    }
  }

  lemma NoDoubleHyphenCons(c: char, t: string)
    requires NoDoubleHyphen(t)
    requires t == [] || c != '-' || t[0] != '-'
    ensures NoDoubleHyphen([c] + t)
  {
    var ct := [c] + t;
    forall i | 1 < i < |ct| ensures !DoubleHyphenAt(ct, i) {
      assert !DoubleHyphenAt(t, i - 1);
    }
  }

  /** A kept character in front of a clean title, directly or with one hyphen between, keeps it clean. */
  lemma CleanTitleCons(c: char, t: string)
    requires !IsSeparator(c) && IsCleanTitle(t)
    ensures IsCleanTitle([c] + t) && Kept([c] + t) == [c] + Kept(t)
    ensures t != [] ==> IsCleanTitle([c, '-'] + t) && Kept([c, '-'] + t) == [c] + Kept(t)
  {
    KeptCons(c, t);
    if t != [] {
      HyphenCons(t);
      KeptCons(c, ['-'] + t);
      assert [c, '-'] + t == [c] + (['-'] + t);
    }
  }

  /** A kept character in front of a clean title keeps it clean. */
  lemma KeptCons(c: char, t: string)
    requires !IsSeparator(c) && NoDoubleHyphen(t) && (t == [] || t[|t| - 1] != '-')
    requires forall i :: 0 <= i < |t| ==> t[i] != ' ' && !IsSpecial(t[i])
    ensures IsCleanTitle([c] + t) && Kept([c] + t) == [c] + Kept(t)
  {
    NoDoubleHyphenCons(c, t);
    assert ([c] + t)[1..] == t;
  }

  /** A hyphen in front of a clean title keeps all but its no-edge-hyphen property. */
  lemma HyphenCons(t: string)
    requires IsCleanTitle(t) && t != []
    ensures NoDoubleHyphen(['-'] + t) && (['-'] + t)[|t|] != '-'
    ensures forall i :: 0 <= i < |t| + 1 ==> (['-'] + t)[i] != ' ' && !IsSpecial((['-'] + t)[i])
    ensures Kept(['-'] + t) == Kept(t)
  {
    assert !IsSeparator(t[0]);
    NoDoubleHyphenCons('-', t);
    assert (['-'] + t)[1..] == t;
  }

  // ---------------------------------------------------------------------
  // The four stages of cleanTitle (utils/file.go:25-40)
  // ---------------------------------------------------------------------

  /** `strings.ReplaceAll(title, " ", "-")`. */
  function ReplaceSpaces(s: string): (r: string)
    ensures |r| == |s|
    ensures forall i :: 0 <= i < |s| ==> r[i] == if s[i] == ' ' then '-' else s[i]
    ensures ' ' !in r
  {
    if s == [] then []
    else [if s[0] == ' ' then '-' else s[0]] + ReplaceSpaces(s[1..])
  }

  /** The regular expression `[/\\:*?"<>|]` replaced by `-` everywhere. */
  function ReplaceSpecials(s: string): (r: string)
    ensures |r| == |s|
    ensures forall i :: 0 <= i < |s| ==> r[i] == if IsSpecial(s[i]) then '-' else s[i]
    ensures forall i :: 0 <= i < |r| ==> !IsSpecial(r[i])
  {
    if s == [] then []
    else [if IsSpecial(s[0]) then '-' else s[0]] + ReplaceSpecials(s[1..])
  }

  /**
   * Reference reading of the regular expression `-+` replaced by `-`, one
   * position at a time from the right end: `s[i]` is kept unless it is a
   * hyphen directly after another hyphen, so each run keeps exactly its
   * first hyphen.
   */
  function DropDoubled(s: string): string
  {
    if |s| <= 1 then s
    else DropDoubled(s[..|s| - 1]) + (if DoubleHyphenAt(s, |s| - 1) then [] else [s[|s| - 1]])
  }

  /** Read from the left, `DropDoubled` drops the first of two leading hyphens instead of the second. */
  lemma {:induction false} DropDoubledCons(s: string)
    requires |s| >= 2
    ensures DropDoubled(s) == (if DoubleHyphenAt(s, 1) then [] else [s[0]]) + DropDoubled(s[1..])
    decreases |s|
  {
    if |s| > 2 {
      var init := s[..|s| - 1];
      DropDoubledCons(init);
      assert init[1..] == s[1..][..|s[1..]| - 1];
      assert DoubleHyphenAt(init, 1) == DoubleHyphenAt(s, 1);
      assert DoubleHyphenAt(s[1..], |s[1..]| - 1) == DoubleHyphenAt(s, |s| - 1);
    } else {
      assert s[1..] == [s[1]];
      assert s[..1] == [s[0]];
    }
  }

  /** The regular expression `-+` replaced by `-`: every run of hyphens becomes one. */
  function CollapseHyphens(s: string): (r: string)
    ensures NoDoubleHyphen(r)
    ensures s != [] ==> r != [] && r[0] == s[0] && r[|r| - 1] == s[|s| - 1]
    ensures WithoutHyphens(r) == WithoutHyphens(s)
    ensures NoDoubleHyphen(s) ==> r == s
  {
    if |s| <= 1 then s
    else if s[0] == '-' && s[1] == '-' then
      assert DoubleHyphenAt(s, 1);
      CollapseHyphens(s[1..])
    else
      var rest := CollapseHyphens(s[1..]);
      assert ([s[0]] + rest)[1..] == rest;
      NoDoubleHyphenCons(s[0], rest);
      if NoDoubleHyphen(s) then
        NoDoubleHyphenTail(s);
        assert [s[0]] + s[1..] == s;
        [s[0]] + rest
      else
        [s[0]] + rest
  }

  /** Collapsing keeps exactly the characters the position-wise reference keeps. */
  lemma {:induction false} CollapseIsDropDoubled(s: string)
    ensures CollapseHyphens(s) == DropDoubled(s)
    decreases |s|
  {
    if |s| > 1 {
      CollapseIsDropDoubled(s[1..]);
      DropDoubledCons(s);
    }
  }

  /** `strings.TrimLeft(s, "-")`. */
  function TrimLeftHyphens(s: string): (r: string)
    ensures |r| <= |s| && r == s[|s| - |r|..]
    ensures r == [] || r[0] != '-'
    ensures forall i :: 0 <= i < |s| - |r| ==> s[i] == '-'
  {
    if s != [] && s[0] == '-' then TrimLeftHyphens(s[1..]) else s
  }

  /** `strings.TrimRight(s, "-")`. */
  function TrimRightHyphens(s: string): (r: string)
    ensures |r| <= |s| && r == s[..|r|]
    ensures r == [] || r[|r| - 1] != '-'
    ensures forall i :: |r| <= i < |s| ==> s[i] == '-'
  {
    if s != [] && s[|s| - 1] == '-' then TrimRightHyphens(s[..|s| - 1]) else s
  }

  /** `strings.Trim(s, "-")`: hyphens removed from both ends and nowhere else. */
  function TrimHyphens(s: string): (r: string)
    ensures NoEdgeHyphen(r)
    ensures NoEdgeHyphen(s) ==> r == s
    ensures NoDoubleHyphen(s) ==> NoDoubleHyphen(r)
  {
    var left := TrimLeftHyphens(s);
    var r := TrimRightHyphens(left);
    TrimBothSlice(s, left, r);
    r
  }

  /** The facts behind `TrimHyphens`, given its two halves. */
  lemma TrimBothSlice(s: string, left: string, r: string)
    requires left == TrimLeftHyphens(s) && r == TrimRightHyphens(left)
    ensures NoEdgeHyphen(r)
    ensures NoEdgeHyphen(s) ==> r == s
    ensures r == [] <==> AllHyphens(s)
    ensures NoDoubleHyphen(s) ==> NoDoubleHyphen(r)
  {
    TrimBothUntouched(s, left, r);
    TrimBothEmpty(s, left, r);
    TrimBothNoDouble(s, left, r);
  }

  /** Trimming removes a run of hyphens from each end and keeps the middle slice. */
  lemma TrimBothSpan(s: string, left: string, r: string)
    requires left == TrimLeftHyphens(s) && r == TrimRightHyphens(left)
    ensures 0 <= |s| - |left| <= |s| - |r|
    ensures r == s[|s| - |left|..|s| - |left| + |r|]
    ensures AllHyphens(s[..|s| - |left|])
    ensures AllHyphens(s[|s| - |left| + |r|..])
  {
    HyphenSpan(s, left, r);
  }

  /** A suffix of `s` after leading hyphens, cut before trailing hyphens, is a middle slice between hyphen runs. */
  lemma HyphenSpan(s: string, left: string, r: string)
    requires |left| <= |s| && left == s[|s| - |left|..]
    requires |r| <= |left| && r == left[..|r|]
    requires forall i :: 0 <= i < |s| - |left| ==> s[i] == '-'
    requires forall i :: |r| <= i < |left| ==> left[i] == '-'
    ensures r == s[|s| - |left|..|s| - |left| + |r|]
    ensures AllHyphens(s[..|s| - |left|])
    ensures AllHyphens(s[|s| - |left| + |r|..])
  {
    var k := |s| - |left|;
    var front, back := s[..k], s[k + |r|..];
    forall i | 0 <= i < |front| ensures front[i] == '-' {
      assert front[i] == s[i];
    }
    forall i | 0 <= i < |back| ensures back[i] == '-' {
      assert back[i] == left[|r| + i];
    }
  }

  /**
   * `TrimHyphens` keeps a middle slice of its input, and what it removes on
   * either side is hyphens only.
   */
  lemma TrimHyphensSpan(s: string)
    ensures exists k | 0 <= k <= |s| - |TrimHyphens(s)| ::
      TrimHyphens(s) == s[k..k + |TrimHyphens(s)|] &&
      AllHyphens(s[..k]) && AllHyphens(s[k + |TrimHyphens(s)|..])
  {
    var left := TrimLeftHyphens(s);
    TrimBothSpan(s, left, TrimHyphens(s));
  }

  lemma TrimBothUntouched(s: string, left: string, r: string)
    requires left == TrimLeftHyphens(s) && r == TrimRightHyphens(left)
    ensures NoEdgeHyphen(s) ==> r == s
  {
    if NoEdgeHyphen(s) {
      assert left == s;
    }
  }

  lemma TrimBothNoDouble(s: string, left: string, r: string)
    requires left == TrimLeftHyphens(s) && r == TrimRightHyphens(left)
    ensures NoDoubleHyphen(s) ==> NoDoubleHyphen(r)
  {
    if NoDoubleHyphen(s) {
      NoDoubleHyphenOfSlices(s, left, r);
    }
  }

  lemma NoDoubleHyphenOfSlices(s: string, left: string, r: string)
    requires |left| <= |s| && left == s[|s| - |left|..]
    requires |r| <= |left| && r == left[..|r|]
    requires NoDoubleHyphen(s)
    ensures NoDoubleHyphen(r)
  {
    NoDoubleHyphenSlice(s, |s| - |left|, |s|);
    assert s[|s| - |left|..|s|] == left;
    NoDoubleHyphenSlice(left, 0, |r|);
    assert left[0..|r|] == r;
  }

  lemma TrimBothEmpty(s: string, left: string, r: string)
    requires left == TrimLeftHyphens(s) && r == TrimRightHyphens(left)
    ensures r == [] <==> AllHyphens(s)
  {
    var k := |s| - |left|;
    if r == [] {
      assert AllHyphens(left);
      forall i | k <= i < |s| ensures s[i] == '-' {
        assert s[i] == left[i - k];
      }
    } else if AllHyphens(s) {
      assert false;
    }
  }

  /** Trimming leaves nothing exactly when the text is hyphens only. */
  lemma TrimHyphensEmpty(s: string)
    ensures TrimHyphens(s) == [] <==> AllHyphens(s)
  {
    TrimBothSlice(s, TrimLeftHyphens(s), TrimHyphens(s));
  }

  lemma NoDoubleHyphenSlice(s: string, lo: int, hi: int)
    requires 0 <= lo <= hi <= |s| && NoDoubleHyphen(s)
    ensures NoDoubleHyphen(s[lo..hi])
  {
    var t := s[lo..hi];
    forall i | 0 < i < |t| ensures !DoubleHyphenAt(t, i) {
      assert t[i - 1] == s[lo + i - 1] && t[i] == s[lo + i];
      assert !DoubleHyphenAt(s, lo + i);
    }
  }

  /** `cleanTitle` at utils/file.go:25-40: the four stages in order. */
  function CleanTitle(title: string): (r: string)
    ensures r == Tidy(title)
    ensures IsCleanTitle(r)
    ensures Kept(r) == Kept(title)
    ensures r == [] <==> Kept(title) == []
  {
    PipelineIsTidy(title);
    TrimHyphens(CollapseHyphens(ReplaceSpecials(ReplaceSpaces(title))))
  }

  // ---------------------------------------------------------------------
  // Reference reading of the cleaning
  // ---------------------------------------------------------------------

  /**
   * One left-to-right pass: separators are dropped, except that a run of
   * them between two kept characters leaves exactly one `-`.
   */
  function Tidy(s: string): (r: string)
    ensures IsCleanTitle(r)
    ensures Kept(r) == Kept(s)
    ensures r == [] <==> Kept(s) == []
  {
    if s == [] then []
    else if IsSeparator(s[0]) then Tidy(s[1..])
    else
      var rest := Tidy(s[1..]);
      CleanTitleCons(s[0], rest);
      if rest == [] then [s[0]]
      else if |s| > 1 && IsSeparator(s[1]) then [s[0], '-'] + rest
      else [s[0]] + rest
  }

  /** Two strings with the same separator positions and the same other characters tidy alike. */
  lemma {:induction false} TidySeesOnlySeparatorPositions(a: string, b: string)
    requires |a| == |b|
    requires forall i :: 0 <= i < |a| ==> IsSeparator(a[i]) == IsSeparator(b[i])
    requires forall i :: 0 <= i < |a| && !IsSeparator(a[i]) ==> a[i] == b[i]
    ensures Tidy(a) == Tidy(b)
  {
    if a != [] {
      TidySeesOnlySeparatorPositions(a[1..], b[1..]);
    }
  }

  /** How `TrimRightHyphens` treats a string with one more character in front. */
  lemma {:induction false} TrimRightCons(c: char, y: string)
    ensures TrimRightHyphens([c] + y) ==
      if c == '-' && TrimRightHyphens(y) == [] then [] else [c] + TrimRightHyphens(y)
    decreases |y|
  {
    var cy := [c] + y;
    if y == [] {
      assert cy[..0] == [];
    } else if y[|y| - 1] == '-' {
      var init := y[..|y| - 1];
      assert cy[..|cy| - 1] == [c] + init;
      TrimRightCons(c, init);
    }
  }

  lemma TrimLeftOfHyphenCons(y: string)
    ensures TrimLeftHyphens(['-'] + y) == TrimLeftHyphens(y)
  {
    assert (['-'] + y)[1..] == y;
  }

  /** After spaces and specials have become hyphens, collapsing and trimming is `Tidy`. */
  lemma {:induction false} CollapseTrimIsTidy(u: string)
    requires forall i :: 0 <= i < |u| ==> u[i] != ' ' && !IsSpecial(u[i])
    ensures TrimHyphens(CollapseHyphens(u)) == Tidy(u)
    decreases |u|
  {
    if |u| > 1 {
      CollapseTrimIsTidy(u[1..]);
      if u[0] == '-' {
        CollapseTrimHyphenHead(u);
      } else {
        CollapseTrimKeptHead(u);
      }
    }
  }

  /** The step of `CollapseTrimIsTidy` for a leading hyphen: it is absorbed or trimmed away. */
  lemma {:induction false} CollapseTrimHyphenHead(u: string)
    requires |u| > 1 && u[0] == '-'
    requires TrimHyphens(CollapseHyphens(u[1..])) == Tidy(u[1..])
    ensures TrimHyphens(CollapseHyphens(u)) == Tidy(u)
  {
    if u[1] != '-' {
      var y := CollapseHyphens(u[1..]);
      assert CollapseHyphens(u) == ['-'] + y;
      TrimLeftOfHyphenCons(y);
    }
  }

  /** The step of `CollapseTrimIsTidy` for a kept first character. */
  lemma {:induction false} CollapseTrimKeptHead(u: string)
    requires |u| > 1 && !IsSeparator(u[0])
    requires u[1] != ' ' && !IsSpecial(u[1])
    requires TrimHyphens(CollapseHyphens(u[1..])) == Tidy(u[1..])
    ensures TrimHyphens(CollapseHyphens(u)) == Tidy(u)
  {
    var y := CollapseHyphens(u[1..]);
    assert CollapseHyphens(u) == [u[0]] + y;
    if u[1] == '-' {
      TrimKeptThenHyphen(u[0], y);
      TidyKeptThenSeparator(u);
    } else {
      TrimKeptThenKept(u[0], y);
      TidyKeptThenKept(u);
    }
  }

  lemma TidyKeptThenSeparator(u: string)
    requires |u| > 1 && !IsSeparator(u[0]) && IsSeparator(u[1])
    ensures Tidy(u) == if Tidy(u[1..]) == [] then [u[0]] else [u[0], '-'] + Tidy(u[1..])
  {
  }

  lemma TidyKeptThenKept(u: string)
    requires |u| > 1 && !IsSeparator(u[0]) && !IsSeparator(u[1])
    ensures Tidy(u) == [u[0]] + Tidy(u[1..])
  {
  }

  /** Trimming a kept character followed by a collapsed text that starts with a hyphen. */
  lemma TrimKeptThenHyphen(c: char, y: string)
    requires c != '-' && y != [] && y[0] == '-' && NoDoubleHyphen(y)
    ensures TrimHyphens([c] + y) == if TrimHyphens(y) == [] then [c] else [c, '-'] + TrimHyphens(y)
  {
    KeptHeadTrim(c, y);
    HyphenHeadTrimRight(y);
    PrependToOptionalHyphen(c, TrimRightHyphens(y), TrimHyphens(y));
  }

  lemma PrependToOptionalHyphen(c: char, tr: string, t: string)
    requires tr == if t == [] then [] else ['-'] + t
    ensures [c] + tr == if t == [] then [c] else [c, '-'] + t
  {
    if t != [] {
      assert [c] + (['-'] + t) == [c, '-'] + t;
    }
  }

  /** Trimming a kept character followed by a text that does not start with a hyphen. */
  lemma TrimKeptThenKept(c: char, y: string)
    requires c != '-' && (y == [] || y[0] != '-')
    ensures TrimHyphens([c] + y) == [c] + TrimHyphens(y)
  {
    KeptHeadTrim(c, y);
    assert TrimLeftHyphens(y) == y;
  }

  /** Trimming a string whose first character is not a hyphen only trims its right end. */
  lemma KeptHeadTrim(c: char, y: string)
    requires c != '-'
    ensures TrimHyphens([c] + y) == [c] + TrimRightHyphens(y)
  {
    assert TrimLeftHyphens([c] + y) == [c] + y;
    TrimRightCons(c, y);
  }

  /** For a collapsed text that starts with a hyphen, trimming its right end keeps that hyphen only when something follows. */
  lemma HyphenHeadTrimRight(y: string)
    requires y != [] && y[0] == '-' && NoDoubleHyphen(y)
    ensures TrimRightHyphens(y) == if TrimHyphens(y) == [] then [] else ['-'] + TrimHyphens(y)
  {
    var y' := y[1..];
    assert y == ['-'] + y';
    assert y' == [] || y'[0] != '-' by {
      if y' != [] { assert !DoubleHyphenAt(y, 1); }
    }
    TrimLeftOfHyphenCons(y');
    TrimRightCons('-', y');
  }

  /** The four stages of `cleanTitle` compute `Tidy`. */
  lemma PipelineIsTidy(title: string)
    ensures TrimHyphens(CollapseHyphens(ReplaceSpecials(ReplaceSpaces(title)))) == Tidy(title)
  {
    var u := ReplaceSpecials(ReplaceSpaces(title));
    var v := ReplaceSpaces(title);
    assert forall i :: 0 <= i < |u| ==> u[i] != ' ' && !IsSpecial(u[i]) by {
      forall i | 0 <= i < |u| ensures u[i] != ' ' {
        assert v[i] in v;
      }
    }
    CollapseTrimIsTidy(u);
    TidySeesOnlySeparatorPositions(u, title);
  }

  /** A title that is already clean passes through `Tidy` unchanged. */
  lemma {:induction false} TidyKeepsCleanTitle(s: string)
    requires IsCleanTitle(s)
    ensures Tidy(s) == s
    decreases |s|
  {
    if s != [] {
      assert !IsSeparator(s[0]);
      if |s| == 1 {
      } else if s[1] == '-' {
        assert !DoubleHyphenAt(s, 2);
        var t := s[2..];
        NoDoubleHyphenTail(s);
        NoDoubleHyphenTail(s[1..]);
        assert s[1..][1..] == t;
        TidyKeepsCleanTitle(t);
        assert s[1..][1..] == t;
        assert [s[0], '-'] + t == s;
      } else {
        var t := s[1..];
        NoDoubleHyphenTail(s);
        TidyKeepsCleanTitle(t);
        assert [s[0]] + t == s;
      }
    }
  }

  /** `cleanTitle` leaves a title alone exactly when it is already clean. */
  lemma CleanTitleFixpoint(title: string)
    ensures CleanTitle(title) == title <==> IsCleanTitle(title)
  {
    if IsCleanTitle(title) {
      TidyKeepsCleanTitle(title);
    }
  }

  /** Cleaning a cleaned title changes nothing. */
  lemma CleanTitleIdempotent(title: string)
    ensures CleanTitle(CleanTitle(title)) == CleanTitle(title)
  {
    CleanTitleFixpoint(CleanTitle(title));
  }

  // ---------------------------------------------------------------------
  // GenerateFileName (utils/file.go:11-22)
  // ---------------------------------------------------------------------

  /**
   * `GenerateFileName`: the formatted timestamp, then `_` and the cleaned
   * title when the title is non-empty, then `.md`. Only emptiness is tested
   * before cleaning, so a title of separators alone still adds `_`.
   */
  function GenerateFileName(title: string, t: Timestamp): (name: string)
    requires ValidTimestamp(t)
    ensures |name| >= 20 && name[..17] == FormatTimestamp(t) && name[|name| - 3..] == ".md"
    ensures title == "" <==> |name| == 20
    ensures title != "" ==> name[17] == '_' && name[18..|name| - 3] == CleanTitle(title)
  {
    var timestamp := FormatTimestamp(t);
    if title == "" then
      TitledLayout(timestamp, "");
      timestamp + ".md"
    else
      var clean := CleanTitle(title);
      TitledLayout(timestamp, clean);
      timestamp + "_" + clean + ".md"
  }

  /** Where the parts of a name sit, for a 17-character timestamp. */
  lemma TitledLayout(stamp: string, clean: string)
    requires |stamp| == 17
    ensures |stamp + ".md"| == 20 && (stamp + ".md")[..17] == stamp && (stamp + ".md")[17..] == ".md"
    ensures var name := stamp + "_" + clean + ".md";
      |name| == 21 + |clean| && name[..17] == stamp && name[17] == '_' &&
      name[18..|name| - 3] == clean && name[|name| - 3..] == ".md" && name[17..] == "_" + clean + ".md"
  {
    var name := stamp + "_" + clean + ".md";
    assert name[..17] == stamp;
    assert name[18..|name| - 3] == clean;
    assert name[|name| - 3..] == ".md";
    assert name[17..] == "_" + clean + ".md";
    assert (stamp + ".md")[..17] == stamp;
  }

  /** What a note file name says: the second it was created and, if any, its cleaned title. */
  datatype NoteName = NoteName(stamp: Timestamp, title: Option<string>)

  /** Reads a note file name back into its timestamp and title part. */
  function ParseFileName(name: string): Option<NoteName>
  {
    if |name| < 20 || name[|name| - 3..] != ".md" then None
    else match ParseTimestamp(name[..17])
      case None => None
      case Some(t) =>
        if |name| == 20 then Some(NoteName(t, None))
        else if name[17] == '_' then Some(NoteName(t, Some(name[18..|name| - 3])))
        else None
  }

  /** A generated name reads back as its timestamp and the cleaned title. */
  lemma {:induction false} FileNameRoundTrip(title: string, t: Timestamp)
    requires ValidTimestamp(t)
    ensures ParseFileName(GenerateFileName(title, t)) ==
      Some(NoteName(t, if title == "" then None else Some(CleanTitle(title))))
  {
    ParseFormatted(t);
  }

  /**
   * Every name that reads back with a clean (or no) title is the name
   * generated from that title and timestamp: generation reaches exactly
   * the well-formed names.
   */
  lemma {:induction false} FileNameFromParsed(name: string, n: NoteName)
    requires ParseFileName(name) == Some(n)
    requires n.title.Some? ==> n.title.value != "" && IsCleanTitle(n.title.value)
    ensures ValidTimestamp(n.stamp)
    ensures name == GenerateFileName(if n.title.None? then "" else n.title.value, n.stamp)
  {
    var stamp := name[..17];
    assert ParseTimestamp(stamp) == Some(n.stamp);
    FormatParsed(stamp, n.stamp);
    if n.title.Some? {
      var title := n.title.value;
      assert title == name[18..|name| - 3];
      CleanTitleFixpoint(title);
      TitledFileName(title, n.stamp);
      SplitTitledName(name, stamp, title);
    } else {
      assert |name| == 20;
      assert name == stamp + name[17..];
    }
  }

  lemma SplitTitledName(name: string, stamp: string, title: string)
    requires |name| > 20 && stamp == name[..17] && name[17] == '_'
    requires title == name[18..|name| - 3] && name[|name| - 3..] == ".md"
    ensures name == stamp + "_" + title + ".md"
  {
    assert name == name[..17] + [name[17]] + name[18..|name| - 3] + name[|name| - 3..];
  }

  /**
   * A non-empty title with no kept character cleans to nothing, so the
   * name is 21 characters long and ends in `_.md`.
   */
  lemma SeparatorsOnlyTitle(title: string, t: Timestamp)
    requires ValidTimestamp(t)
    requires title != "" && Kept(title) == ""
    ensures |GenerateFileName(title, t)| == 21
    ensures GenerateFileName(title, t)[17..] == "_.md"
  {
    var stamp, clean := FormatTimestamp(t), CleanTitle(title);
    assert clean == [];
    TitledFileName(title, t);
    TitledLayout(stamp, clean);
    assert "_" + clean + ".md" == "_.md";
  }

  /** A generated name is a plain, non-empty file name: it holds no path separator. */
  lemma FileNameIsPlain(title: string, t: Timestamp)
    requires ValidTimestamp(t)
    ensures GenerateFileName(title, t) != "" && '/' !in GenerateFileName(title, t)
  {
    var stamp := FormatTimestamp(t);
    assert '/' !in stamp by {
      forall i | 0 <= i < |stamp| ensures stamp[i] != '/' {
        assert i == 4 || i == 7 || i == 10 || IsDigit(stamp[i]);
      }
    }
    if title != "" {
      var clean := CleanTitle(title);
      assert '/' !in clean by {
        forall i | 0 <= i < |clean| ensures clean[i] != '/' {
          assert !IsSpecial(clean[i]);
        }
      }
      TitledFileName(title, t);
    }
  }

  /** An empty title yields exactly the formatted timestamp followed by `.md`. */
  lemma UntitledFileName(t: Timestamp)
    requires ValidTimestamp(t)
    ensures GenerateFileName("", t) == FormatTimestamp(t) + ".md"
  {
    var name := GenerateFileName("", t);
    assert name == name[..17] + name[17..];
  }

  /** The layout of a name generated from a non-empty title. */
  lemma TitledFileName(title: string, t: Timestamp)
    requires ValidTimestamp(t) && title != ""
    ensures GenerateFileName(title, t) == FormatTimestamp(t) + "_" + CleanTitle(title) + ".md"
  {
  }

  // ---------------------------------------------------------------------
  // The cases of utils/file_test.go and integration_test.go
  // ---------------------------------------------------------------------

  /** Every field is zero-padded and the hour is on a 24-hour clock. */
  lemma PaddedFieldsExample()
    ensures FormatTimestamp(Timestamp(2025, 12, 25, 9, 5, 30)) == "2025-12-25_090530"
  {
  }

  lemma UntitledExample()
    ensures GenerateFileName("", Timestamp(2025, 8, 16, 14, 30, 45)) == "2025-08-16_143045.md"
  {
  }

  /** A title that is already clean is kept as it is. */
  lemma HyphenatedTitleExample(title: string)
    requires title == "shopping-list"
    ensures CleanTitle(title) == "shopping-list"
  {
    assert IsCleanTitle("shopping-list");
    CleanTitleFixpoint(title);
  }

  /** Spaces become single hyphens. */
  lemma SpacedTitleExample(title: string)
    requires title == "my daily notes"
    ensures CleanTitle(title) == "my-daily-notes"
  {
    CleanLiteral(title, "my-daily-notes");
  }

  /** Each special character becomes a hyphen. */
  lemma SpecialCharactersExample(title: string)
    requires title == "notes/with\\special:chars"
    ensures CleanTitle(title) == "notes-with-special-chars"
  {
    CleanLiteral(title, "notes-with-special-chars");
  }

  /** `cleanTitle(title) == clean` for a clean `clean` laid out like `title`. */
  lemma CleanLiteral(title: string, clean: string)
    requires IsCleanTitle(clean) && |title| == |clean|
    requires forall i :: 0 <= i < |title| ==> title[i] == clean[i] || (IsSeparator(title[i]) && IsSeparator(clean[i]))
    ensures CleanTitle(title) == clean
  {
    TidySeesOnlySeparatorPositions(title, clean);
    TidyKeepsCleanTitle(clean);
  }
}
