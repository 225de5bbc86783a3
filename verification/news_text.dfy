/** The backend's article-text filters: the quality test `is_meaningful` and the line
    cleaner `clean_article_text` (the second definition in backend/app.py, which is the
    one bound at module load). */
module NewsText {
  import opened Text
  import opened Seqs

  /** Phrases that mark a low-quality article; compared case-insensitively. */
  const MeaningFilters: seq<string> :=
    ["submit your best", "photo gallery", "CNN.com will feature", "click here", "snapshots"]

  /** `is_meaningful(text)`: no filter phrase occurs in the lower-cased text, and the
      stripped text is longer than 100 characters. */
  predicate IsMeaningful(text: string) {
    && (forall k :: 0 <= k < |MeaningFilters| ==> !Occurs(Lower(MeaningFilters[k]), Lower(text)))
    && |Strip(text)| > 100
  }

  /** The window of `text` at `i` spells `phrase` up to letter case. */
  predicate MatchesAt(phrase: string, text: string, i: int) {
    0 <= i && i + |phrase| <= |text| && Lower(text[i..i + |phrase|]) == Lower(phrase)
  }

  /** Positions `i <= j` of `text` both hold a non-whitespace character. */
  predicate NonSpaceSpan(text: string, i: int, j: int) {
    0 <= i <= j < |text| && !IsSpace(text[i]) && !IsSpace(text[j])
  }

  /** The stripped text is longer than `m` exactly when two non-whitespace characters
      lie at least `m` positions apart. */
  lemma StripLongerIff(text: string, m: nat)
    ensures |Strip(text)| > m <==> exists i, j :: NonSpaceSpan(text, i, j) && j - i >= m
  {
    var r := Strip(text);
    var o := StripOffset(text);
    if |r| > m {
      assert r[0] == text[o] && r[|r| - 1] == text[o + |r| - 1];
      assert NonSpaceSpan(text, o, o + |r| - 1);
    }
    assert forall x :: 0 <= x < o ==> text[x] == text[..o][x];
    assert forall x :: o + |r| <= x < |text| ==> text[x] == text[o + |r|..][x - o - |r|];
  }

  /** A phrase occurs in the lower-cased text exactly when some window of the original
      text equals it up to letter case. */
  lemma PhraseOccursIff(p: string, text: string)
    ensures Occurs(Lower(p), Lower(text)) <==> exists i :: MatchesAt(p, text, i)
  {
    OccursIff(Lower(p), Lower(text));
    forall i
      ensures OccursAt(Lower(p), Lower(text), i) <==> MatchesAt(p, text, i)
    {
      if 0 <= i && i + |p| <= |text| {
        LowerSlice(text, i, i + |p|);
      }
    }
  }

  /** `is_meaningful` in terms of the original text: no window equals a filter phrase
      ignoring case, and the non-whitespace content spans more than 100 characters. */
  lemma IsMeaningfulIff(text: string)
    ensures IsMeaningful(text) <==>
      && (forall k, i :: 0 <= k < |MeaningFilters| ==> !MatchesAt(MeaningFilters[k], text, i))
      && (exists i, j :: NonSpaceSpan(text, i, j) && j - i >= 100)
  {
    StripLongerIff(text, 100);
    forall k | 0 <= k < |MeaningFilters|
      ensures Occurs(Lower(MeaningFilters[k]), Lower(text)) <==> exists i :: MatchesAt(MeaningFilters[k], text, i)
    {
      PhraseOccursIff(MeaningFilters[k], text);
    }
  }

  /** The line boundaries recognised by Python's `str.splitlines`. */
  predicate IsLineBreak(c: char) {
    || c == '\n' || c == '\r' || c == '\U{0B}' || c == '\U{0C}' || c == '\U{1C}'
    || c == '\U{1D}' || c == '\U{1E}' || c == '\U{85}' || c == '\U{2028}' || c == '\U{2029}'
  }

  predicate NoLineBreak(s: string) {
    forall i :: 0 <= i < |s| ==> !IsLineBreak(s[i])
  }

  /** Index of the first line boundary in `s`, or `|s|` when there is none. */
  function BreakIndex(s: string): (i: nat)
    ensures i <= |s|
    ensures NoLineBreak(s[..i])
    ensures i < |s| ==> IsLineBreak(s[i])
  {
    if s == [] || IsLineBreak(s[0]) then 0
    else
      var i := 1 + BreakIndex(s[1..]);
      assert s[..i] == [s[0]] + s[1..][..i - 1];
      i
  }

  /** Python `s.splitlines()`: the text between line boundaries, with `\r\n` counted as
      one boundary and no empty line after a final boundary. */
  function SplitLines(s: string): (lines: seq<string>)
    ensures forall k :: 0 <= k < |lines| ==> NoLineBreak(lines[k])
    ensures TotalLength(lines) + |lines| <= |s| + 1
    decreases |s|
  {
    if s == [] then []
    else
      var i := BreakIndex(s);
      if i == |s| then
        assert TotalLength([s]) == |s|;
        [s]
      else
        var n := if s[i] == '\r' && i + 1 < |s| && s[i + 1] == '\n' then 2 else 1;
        var rest := SplitLines(s[i + n..]);
        assert ([s[..i]] + rest)[1..] == rest;
        [s[..i]] + rest
  }

  /** Length of the boundary at `s[n]`: `\r\n` counts as one boundary of two characters. */
  function BoundaryLength(s: string, n: nat): (b: nat)
    requires n < |s|
    ensures 1 <= b <= 2 && n + b <= |s|
  {
    if s[n] == '\r' && n + 1 < |s| && s[n + 1] == '\n' then 2 else 1
  }

  /** `lines` rebuild `s`: each line is followed in `s` by one boundary, either `\r\n`
      or a single line-break character, except that the last line may end the text; a
      non-empty text has at least one line. */
  predicate Rebuilds(s: string, lines: seq<string>)
    decreases |lines|
  {
    if lines == [] then s == []
    else
      var n := |lines[0]|;
      && s != []
      && n <= |s| && s[..n] == lines[0]
      && if n == |s| then |lines| == 1
         else IsLineBreak(s[n]) && Rebuilds(s[n + BoundaryLength(s, n)..], lines[1..])
  }

  /** The lines of `splitlines` rebuild the text. */
  lemma {:induction false} SplitLinesRebuilds(s: string)
    ensures Rebuilds(s, SplitLines(s))
    decreases |s|
  {
    if s != [] {
      var i := BreakIndex(s);
      if i < |s| {
        SplitLinesRebuilds(s[i + BoundaryLength(s, i)..]);
      }
    }
  }

  /** A break-free prefix of `s` that ends at a line break or at the end of `s` runs up
      to the first line break. */
  lemma {:induction false} FirstLineEnd(s: string, line: string)
    requires |line| <= |s| && s[..|line|] == line && NoLineBreak(line)
    requires |line| == |s| || IsLineBreak(s[|line|])
    ensures |line| == BreakIndex(s)
  {
  }

  /** `splitlines` is the only way to cut the text into break-free lines that rebuild
      it. */
  lemma {:induction false} SplitLinesUnique(s: string, lines: seq<string>)
    requires Rebuilds(s, lines)
    requires forall k :: 0 <= k < |lines| ==> NoLineBreak(lines[k])
    ensures lines == SplitLines(s)
    decreases |s|
  {
    if lines != [] {
      var n := |lines[0]|;
      FirstLineEnd(s, lines[0]);
      if n < |s| {
        var rest := s[n + BoundaryLength(s, n)..];
        assert forall k :: 0 <= k < |lines[1..]| ==> NoLineBreak(lines[1..][k]) by {
          forall k | 0 <= k < |lines[1..]| ensures NoLineBreak(lines[1..][k]) {
            assert lines[1..][k] == lines[k + 1];
          }
        }
        SplitLinesUnique(rest, lines[1..]);
        assert lines == [lines[0]] + lines[1..];
      } else {
        assert |lines| == 1;
        assert lines[0] == s[..n] == s;
        assert lines == [s];
      }
    }
  }

  /** Lines containing any of these, after lower-casing, are dropped. */
  const CleanPhrases: seq<string> :=
    ["submit your", "click here", "gallery", "best shots", "next week", "cnn.com", "reporter", "travel snapshots"]

  /** A stripped line survives cleaning: longer than 30 characters and free of every
      promotional phrase. */
  predicate KeepLine(line: string) {
    |line| > 30 && forall k :: 0 <= k < |CleanPhrases| ==> !Occurs(CleanPhrases[k], Lower(line))
  }

  /** The stripped lines of `text`, one per line of `splitlines`. */
  function StrippedLines(text: string): seq<string> {
    Map(Strip, SplitLines(text))
  }

  /** `clean_article_text(text)`: the surviving stripped lines joined by single spaces. */
  function CleanArticleText(text: string): string {
    Join(" ", Filter(KeepLine, StrippedLines(text)))
  }

  /** Keeping a subset of the lines never adds length: the kept lines together with one
      separator each fit within the lines they came from. */
  lemma {:induction false} FilterLength(p: string -> bool, xs: seq<string>)
    ensures TotalLength(Filter(p, xs)) + |Filter(p, xs)| <= TotalLength(xs) + |xs|
    decreases |xs|
  {
    if xs != [] {
      FilterLength(p, xs[1..]);
      var rest := Filter(p, xs[1..]);
      if p(xs[0]) {
        assert Filter(p, xs) == [xs[0]] + rest;
        assert ([xs[0]] + rest)[1..] == rest;
        assert TotalLength(Filter(p, xs)) == |xs[0]| + TotalLength(rest);
      } else {
        assert Filter(p, xs) == rest;
      }
    }
  }

  /** Stripping every line never makes the lines longer. */
  lemma {:induction false} StrippedNoLonger(lines: seq<string>)
    ensures TotalLength(Map(Strip, lines)) <= TotalLength(lines)
    decreases |lines|
  {
    if lines != [] {
      StrippedNoLonger(lines[1..]);
      assert Map(Strip, lines)[1..] == Map(Strip, lines[1..]);
    }
  }

  /** Each line of the cleaned text: survivors are exactly the stripped lines that pass
      `KeepLine`, every occurrence kept, in their original order. */
  lemma CleanArticleTextSelects(text: string)
    ensures var kept := Filter(KeepLine, StrippedLines(text));
      && CleanArticleText(text) == Join(" ", kept)
      && IsSubsequence(kept, StrippedLines(text))
      && (forall x :: multiset(kept)[x] == if KeepLine(x) then multiset(StrippedLines(text))[x] else 0)
      && (forall k :: 0 <= k < |kept| ==> KeepLine(kept[k]) && Strip(kept[k]) == kept[k])
  {
    var kept := Filter(KeepLine, StrippedLines(text));
    FilterSpec(KeepLine, StrippedLines(text));
    forall k | 0 <= k < |kept|
      ensures KeepLine(kept[k]) && Strip(kept[k]) == kept[k]
    {
      FilterMembers(KeepLine, StrippedLines(text), kept[k]);
      var j :| 0 <= j < |StrippedLines(text)| && StrippedLines(text)[j] == kept[k];
      StripNoOp(kept[k]);
    }
  }

  /** Cleaning never lengthens the text. */
  lemma CleanArticleTextShorter(text: string)
    ensures |CleanArticleText(text)| <= |text|
  {
    var lines := SplitLines(text);
    var stripped := Map(Strip, lines);
    var kept := Filter(KeepLine, stripped);
    FilterLength(KeepLine, stripped);
    StrippedNoLonger(lines);
    assert TotalLength(kept) + |kept| <= |text| + 1;
    if kept != [] {
      JoinLength(" ", kept);
    }
    assert CleanArticleText(text) == Join(" ", kept);
  }
}
