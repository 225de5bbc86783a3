/** `extract_buzzwords(text, limit)`: the most frequent non-stopword words of at least
    four ASCII letters, most frequent first, ties in order of first occurrence. */
module Buzzwords {
  import opened Text
  import opened Seqs

  const Stopwords: set<string> := {
    "the", "and", "is", "in", "of", "to", "a", "for", "on", "that",
    "with", "as", "by", "at", "it", "from", "this", "an", "be", "are",
    "gemini", "google", "check", "delete", "access", "deepai", "chatgpt", "chatbot",
    "sign", "connection", "history", "your", "more", "text"
  }

  predicate IsAsciiLetter(c: char) {
    'a' <= c <= 'z' || 'A' <= c <= 'Z'
  }

  /** `\w` restricted to ASCII: letters, digits and underscore. */
  predicate IsWordChar(c: char) {
    IsAsciiLetter(c) || IsDigit(c) || c == '_'
  }

  predicate NoUpper(s: string) {
    forall i :: 0 <= i < |s| ==> !('A' <= s[i] <= 'Z')
  }

  /** What `\b[a-zA-Z]{4,}\b` can match: four or more ASCII letters. */
  predicate IsToken(w: string) {
    |w| >= 4 && forall i :: 0 <= i < |w| ==> IsAsciiLetter(w[i])
  }

  /** A key of the result: four or more lower-case ASCII letters, not a stopword. */
  predicate IsBuzzword(w: string) {
    && |w| >= 4
    && (forall i :: 0 <= i < |w| ==> 'a' <= w[i] <= 'z')
    && w !in Stopwords
  }

  /** The `n` characters of `s` at `i` are a maximal run of word characters: the regex
      word boundaries `\b` hold on both sides. */
  predicate IsMaximalRun(s: string, i: int, n: int) {
    && 0 <= i && 0 < n && i + n <= |s|
    && (forall k :: i <= k < i + n ==> IsWordChar(s[k]))
    && (i == 0 || !IsWordChar(s[i - 1]))
    && (i + n == |s| || !IsWordChar(s[i + n]))
  }

  /** `w` is the maximal run of `s` at `i`. */
  predicate RunIs(s: string, i: int, w: string) {
    IsMaximalRun(s, i, |w|) && s[i..i + |w|] == w
  }

  /** Index just past the run of word characters at `i`. */
  function RunEnd(s: string, i: nat): (j: nat)
    requires i <= |s|
    ensures i <= j <= |s|
    ensures forall k :: i <= k < j ==> IsWordChar(s[k])
    ensures j < |s| ==> !IsWordChar(s[j])
    decreases |s| - i
  {
    if i == |s| || !IsWordChar(s[i]) then i else RunEnd(s, i + 1)
  }

  /** One match of the regex: where it starts and the word matched. */
  datatype Match = Match(start: nat, word: string)

  /** A scan may resume at `i`: a word boundary lies before it. */
  predicate ScanPoint(s: string, i: nat) {
    i <= |s| && (i == 0 || !IsWordChar(s[i - 1]))
  }

  /** `re.finditer(r'\b[a-zA-Z]{4,}\b', s)` from position `i` on: every match is a
      maximal run of four or more ASCII letters, at or after `i`, and the matches
      come in strictly increasing position order. */
  function Matches(s: string, i: nat): (ms: seq<Match>)
    requires ScanPoint(s, i)
    ensures forall k :: 0 <= k < |ms| ==> i <= ms[k].start && RunIs(s, ms[k].start, ms[k].word) && IsToken(ms[k].word)
    ensures forall j, k :: 0 <= j < k < |ms| ==> ms[j].start < ms[k].start
    decreases |s| - i
  {
    if i == |s| then []
    else if !IsWordChar(s[i]) then Matches(s, i + 1)
    else
      var j := RunEnd(s, i);
      var rest := if j < |s| then Matches(s, j + 1) else [];
      if IsToken(s[i..j]) then
        assert RunIs(s, i, s[i..j]);
        [Match(i, s[i..j])] + rest
      else rest
  }

  /** Every maximal run of four or more ASCII letters at or after a scan point is
      matched. */
  lemma {:induction false} MatchesComplete(s: string, i: nat, a: int, n: int)
    requires ScanPoint(s, i) && i <= a
    requires IsMaximalRun(s, a, n) && IsToken(s[a..a + n])
    ensures Match(a, s[a..a + n]) in Matches(s, i)
    decreases |s| - i
  {
    if !IsWordChar(s[i]) {
      assert a != i by {
        assert IsWordChar(s[a]);
      }
      MatchesComplete(s, i + 1, a, n);
    } else {
      var j := RunEnd(s, i);
      if a == i {
        assert j == a + n;
      } else {
        assert a > j by {
          assert !IsWordChar(s[a - 1]);
        }
        MatchesComplete(s, j + 1, a, n);
      }
    }
  }

  /** `re.findall(r'\b[a-zA-Z]{4,}\b', s)`: the words of the matches, in order. */
  function Tokens(s: string): (ws: seq<string>)
    ensures |ws| == |Matches(s, 0)|
    ensures forall k :: 0 <= k < |ws| ==> ws[k] == Matches(s, 0)[k].word && IsToken(ws[k])
    ensures NoUpper(s) ==> forall k :: 0 <= k < |ws| ==> NoUpper(ws[k])
  {
    var ms := Matches(s, 0);
    var ws := Map((m: Match) => m.word, ms);
    forall k | 0 <= k < |ws| && NoUpper(s) ensures NoUpper(ws[k]) {
      assert ws[k] == s[ms[k].start..ms[k].start + |ws[k]|];
    }
    ws
  }

  /** Where each token starts. */
  function TokenStarts(s: string): (p: seq<nat>)
    ensures |p| == |Tokens(s)|
    ensures forall k :: 0 <= k < |p| ==> p[k] == Matches(s, 0)[k].start
  {
    Map((m: Match) => m.start, Matches(s, 0))
  }

  /** The k-th token is the maximal run of four or more ASCII letters at the k-th start,
      and the starts increase strictly: one token per run, from left to right. */
  lemma TokensSound(s: string)
    ensures forall k :: 0 <= k < |Tokens(s)| ==> RunIs(s, TokenStarts(s)[k], Tokens(s)[k]) && IsToken(Tokens(s)[k])
    ensures forall j, k :: 0 <= j < k < |Tokens(s)| ==> TokenStarts(s)[j] < TokenStarts(s)[k]
  {
  }

  /** Every maximal run of four or more ASCII letters is a token, reported at its start. */
  lemma TokensComplete(s: string, i: int, n: int)
    requires IsMaximalRun(s, i, n) && IsToken(s[i..i + n])
    ensures exists k :: 0 <= k < |Tokens(s)| && TokenStarts(s)[k] == i && Tokens(s)[k] == s[i..i + n]
  {
    MatchesComplete(s, 0, i, n);
    var k :| 0 <= k < |Matches(s, 0)| && Matches(s, 0)[k] == Match(i, s[i..i + n]);
    assert TokenStarts(s)[k] == i && Tokens(s)[k] == s[i..i + n];
  }

  predicate NotStopword(w: string) {
    w !in Stopwords
  }

  /** The words `Counter` sees: tokens of the lower-cased text, stopwords removed. */
  function FilteredTokens(text: string): (ws: seq<string>)
    ensures forall k :: 0 <= k < |ws| ==> IsBuzzword(ws[k])
  {
    LowerNoUpper(text);
    var all := Tokens(Lower(text));
    KeptTokensAreBuzzwords(all);
    Filter(NotStopword, all)
  }

  /** Lower-cased text has no capitals. */
  lemma LowerNoUpper(text: string)
    ensures NoUpper(Lower(text))
  {
  }

  /** Dropping the stopwords from lower-case tokens leaves only buzzwords. */
  lemma KeptTokensAreBuzzwords(all: seq<string>)
    requires forall k :: 0 <= k < |all| ==> IsToken(all[k]) && NoUpper(all[k])
    ensures forall k :: 0 <= k < |Filter(NotStopword, all)| ==> IsBuzzword(Filter(NotStopword, all)[k])
  {
  }

  /** Index of the first occurrence of `w` in `s`. */
  function FirstIndex(w: string, s: seq<string>): (i: nat)
    requires w in s
    ensures i < |s| && s[i] == w
    ensures forall j :: 0 <= j < i ==> s[j] != w
  {
    if s[0] == w then 0 else 1 + FirstIndex(w, s[1..])
  }

  /** A counter entry: the word, its number of occurrences and the index of its first
      occurrence, which is where `Counter` inserted it. */
  datatype Entry = Entry(word: string, count: nat, first: nat)

  function Words(es: seq<Entry>): (r: seq<string>)
    ensures |r| == |es|
    ensures forall k :: 0 <= k < |es| ==> r[k] == es[k].word
  {
    seq(|es|, k requires 0 <= k < |es| => es[k].word)
  }

  /** `e` is the counter entry of `e.word` over `ws`. */
  predicate EntryOf(ws: seq<string>, e: Entry) {
    && e.count == multiset(ws)[e.word]
    && e.first < |ws| && ws[e.first] == e.word
    && forall j :: 0 <= j < e.first ==> ws[j] != e.word
  }

  /** `es` is a complete tally of `ws`: one entry per distinct word. */
  predicate Tally(ws: seq<string>, es: seq<Entry>) {
    && NoDuplicates(Words(es))
    && (forall k :: 0 <= k < |es| ==> EntryOf(ws, es[k]))
    && (forall j :: 0 <= j < |ws| ==> ws[j] in Words(es))
  }

  /** Position of the entry for `w`, or `|es|` when there is none. */
  function FindWord(es: seq<Entry>, w: string): (k: nat)
    ensures k <= |es|
    ensures k < |es| ==> es[k].word == w
    ensures k == |es| ==> w !in Words(es)
  {
    if es == [] then 0
    else if es[0].word == w then 0
    else
      assert Words(es) == [es[0].word] + Words(es[1..]);
      1 + FindWord(es[1..], w)
  }

  /** One step of `Counter`: count the word at position `pos`. */
  function Bump(es: seq<Entry>, w: string, pos: nat): seq<Entry> {
    var k := FindWord(es, w);
    if k < |es| then es[k := Entry(w, es[k].count + 1, es[k].first)]
    else es + [Entry(w, 1, pos)]
  }

  /** Counting a word already in the tally bumps its entry and keeps the tally complete. */
  lemma BumpSeen(ws: seq<string>, w: string, es: seq<Entry>, k: nat)
    requires Tally(ws, es) && k < |es| && es[k].word == w
    ensures Tally(ws + [w], es[k := Entry(w, es[k].count + 1, es[k].first)])
  {
    var ws' := ws + [w];
    var es' := es[k := Entry(w, es[k].count + 1, es[k].first)];
    assert multiset(ws') == multiset(ws) + multiset{w};
    assert forall j :: 0 <= j < |ws| ==> ws'[j] == ws[j];
    assert Words(es') == Words(es);
    forall j | 0 <= j < |es'|
      ensures EntryOf(ws', es'[j])
    {
      if j != k {
        assert Words(es)[j] != Words(es)[k];
      }
    }
  }

  /** Counting a new word appends its entry and keeps the tally complete. */
  lemma BumpUnseen(ws: seq<string>, w: string, es: seq<Entry>)
    requires Tally(ws, es) && w !in Words(es)
    ensures Tally(ws + [w], es + [Entry(w, 1, |ws|)])
  {
    var ws' := ws + [w];
    var es' := es + [Entry(w, 1, |ws|)];
    assert multiset(ws') == multiset(ws) + multiset{w};
    assert forall j :: 0 <= j < |ws| ==> ws'[j] == ws[j];
    assert w !in ws;
    assert Words(es') == Words(es) + [w];
    forall j | 0 <= j < |es'|
      ensures EntryOf(ws', es'[j])
    {
      if j < |es| {
        assert es'[j] == es[j];
        assert Words(es)[j] != w;
      }
    }
  }

  /** Counting one more word keeps the tally complete. */
  lemma BumpTally(ws: seq<string>, w: string, es: seq<Entry>)
    requires Tally(ws, es)
    ensures Tally(ws + [w], Bump(es, w, |ws|))
  {
    var k := FindWord(es, w);
    if k < |es| {
      BumpSeen(ws, w, es, k);
    } else {
      BumpUnseen(ws, w, es);
    }
  }

  /** `Counter(ws)`: one pass over the words, incrementing a word's entry or appending a
      new one at its first occurrence. */
  method CountWords(ws: seq<string>) returns (es: seq<Entry>)
    ensures Tally(ws, es)
  {
    es := [];
    var i := 0;
    while i < |ws|
      invariant 0 <= i <= |ws|
      invariant Tally(ws[..i], es)
    {
      BumpTally(ws[..i], ws[i], es);
      assert ws[..i + 1] == ws[..i] + [ws[i]];
      es := Bump(es, ws[i], i);
      i := i + 1;
    }
    assert ws[..i] == ws;
  }

  /** Rank order of `most_common`: higher count first, then earlier first occurrence. */
  predicate Before(a: Entry, b: Entry) {
    a.count > b.count || (a.count == b.count && a.first < b.first)
  }

  predicate Ranked(es: seq<Entry>) {
    forall i, j :: 0 <= i < j < |es| ==> Before(es[i], es[j])
  }

  predicate FirstsDistinct(es: seq<Entry>) {
    forall i, j :: 0 <= i < j < |es| ==> es[i].first != es[j].first
  }

  /** Inserts `e` into a ranked sequence at its rank. */
  function Insert(e: Entry, es: seq<Entry>): (r: seq<Entry>)
    ensures multiset(r) == multiset(es) + multiset{e}
  {
    if es == [] then [e]
    else if Before(e, es[0]) then [e] + es
    else
      assert es == [es[0]] + es[1..];
      [es[0]] + Insert(e, es[1..])
  }

  /** Insertion sort into rank order. */
  function SortByRank(es: seq<Entry>): (r: seq<Entry>)
    ensures multiset(r) == multiset(es)
  {
    if es == [] then []
    else
      assert es == [es[0]] + es[1..];
      Insert(es[0], SortByRank(es[1..]))
  }

  /** Inserting an entry whose first occurrence differs from all others keeps the
      sequence ranked. */
  lemma {:induction false} InsertRanked(e: Entry, es: seq<Entry>)
    requires Ranked(es) && forall k :: 0 <= k < |es| ==> es[k].first != e.first
    ensures Ranked(Insert(e, es))
    decreases |es|
  {
    if es != [] && !Before(e, es[0]) {
      InsertRanked(e, es[1..]);
      var rest := Insert(e, es[1..]);
      assert Before(es[0], e);
      forall j | 0 <= j < |rest|
        ensures Before(es[0], rest[j])
      {
        assert rest[j] in multiset(es[1..]) + multiset{e};
        if rest[j] != e {
          var m :| 0 <= m < |es[1..]| && es[1..][m] == rest[j];
          assert es[m + 1] == rest[j];
        }
      }
    }
  }

  /** Entries with distinct first occurrences come out strictly ranked; since the rank
      order is then total, the sorted result is unique. */
  lemma {:induction false} SortRanked(es: seq<Entry>)
    requires FirstsDistinct(es)
    ensures Ranked(SortByRank(es))
    decreases |es|
  {
    if es != [] {
      SortRanked(es[1..]);
      var rest := SortByRank(es[1..]);
      forall k | 0 <= k < |rest|
        ensures rest[k].first != es[0].first
      {
        assert rest[k] in multiset(es[1..]);
        var m :| 0 <= m < |es[1..]| && es[1..][m] == rest[k];
        assert es[m + 1] == rest[k];
      }
      InsertRanked(es[0], rest);
    }
  }

  /** Entries of a tally have distinct first occurrences. */
  lemma TallyFirstsDistinct(ws: seq<string>, es: seq<Entry>)
    requires Tally(ws, es)
    ensures FirstsDistinct(es)
  {
    forall i, j | 0 <= i < j < |es|
      ensures es[i].first != es[j].first
    {
      assert Words(es)[i] != Words(es)[j];
    }
  }

  /** Reordering a tally into rank order keeps it a tally. */
  lemma RankedTally(ws: seq<string>, es: seq<Entry>, r: seq<Entry>)
    requires Tally(ws, es) && multiset(r) == multiset(es) && Ranked(r)
    ensures Tally(ws, r)
  {
    forall k | 0 <= k < |r|
      ensures EntryOf(ws, r[k])
    {
      assert r[k] in multiset(es);
    }
    forall i, j | 0 <= i < j < |r|
      ensures Words(r)[i] != Words(r)[j]
    {
      assert Before(r[i], r[j]);
      assert EntryOf(ws, r[i]) && EntryOf(ws, r[j]);
    }
    forall j | 0 <= j < |ws|
      ensures ws[j] in Words(r)
    {
      var m :| 0 <= m < |es| && Words(es)[m] == ws[j];
      assert es[m] in multiset(r);
      var m' :| 0 <= m' < |r| && r[m'] == es[m];
      assert Words(r)[m'] == ws[j];
    }
  }

  /** The result is what `dict(Counter(ws).most_common(limit))` promises: each key is a
      word of `ws` with its exact count, keys are distinct, entries run from most to
      least frequent with ties in order of first occurrence, and any word left out is
      outranked by every key of a result that is full. */
  predicate MostCommon(ws: seq<string>, r: seq<(string, nat)>, limit: int) {
    && (forall k :: 0 <= k < |r| ==> r[k].0 in ws && r[k].1 == multiset(ws)[r[k].0])
    && (forall i, j :: 0 <= i < j < |r| ==> r[i].0 != r[j].0)
    && (forall i, j :: 0 <= i < j < |r| ==>
          r[i].1 > r[j].1 || (r[i].1 == r[j].1 && FirstIndex(r[i].0, ws) < FirstIndex(r[j].0, ws)))
    && (forall w :: w in ws && (forall k :: 0 <= k < |r| ==> r[k].0 != w) ==>
          |r| == limit && forall k :: 0 <= k < |r| ==>
            r[k].1 > multiset(ws)[w] || (r[k].1 == multiset(ws)[w] && FirstIndex(r[k].0, ws) < FirstIndex(w, ws)))
  }

  /** The (word, count) pairs of the first `n` ranked entries. */
  function TopPairs(ranked: seq<Entry>, n: nat): (r: seq<(string, nat)>)
    requires n <= |ranked|
    ensures |r| == n
    ensures forall k :: 0 <= k < n ==> r[k] == (ranked[k].word, ranked[k].count)
  {
    seq(n, k requires 0 <= k < n => (ranked[k].word, ranked[k].count))
  }

  /** In a ranked tally every entry's `first` is the word's first index. */
  lemma RankedFirsts(ws: seq<string>, ranked: seq<Entry>)
    requires Tally(ws, ranked)
    ensures forall k :: 0 <= k < |ranked| ==> ranked[k].word in ws && FirstIndex(ranked[k].word, ws) == ranked[k].first
  {
    forall k | 0 <= k < |ranked|
      ensures ranked[k].word in ws && FirstIndex(ranked[k].word, ws) == ranked[k].first
    {
      assert EntryOf(ws, ranked[k]);
      FirstIndexUnique(ranked[k].word, ws, ranked[k].first);
    }
  }

  /** The kept pairs carry exact counts, distinct words and the rank order. */
  lemma TopPairsOrdered(ws: seq<string>, ranked: seq<Entry>, n: nat)
    requires Tally(ws, ranked) && Ranked(ranked) && n <= |ranked|
    ensures var r := TopPairs(ranked, n);
      && (forall k :: 0 <= k < |r| ==> r[k].0 in ws && r[k].1 == multiset(ws)[r[k].0])
      && (forall i, j :: 0 <= i < j < |r| ==> r[i].0 != r[j].0)
      && (forall i, j :: 0 <= i < j < |r| ==>
            r[i].1 > r[j].1 || (r[i].1 == r[j].1 && FirstIndex(r[i].0, ws) < FirstIndex(r[j].0, ws)))
  {
    var r := TopPairs(ranked, n);
    RankedFirsts(ws, ranked);
    forall i, j | 0 <= i < j < |r|
      ensures r[i].0 != r[j].0
    {
      assert Words(ranked)[i] != Words(ranked)[j];
    }
    forall i, j | 0 <= i < j < |r|
      ensures r[i].1 > r[j].1 || (r[i].1 == r[j].1 && FirstIndex(r[i].0, ws) < FirstIndex(r[j].0, ws))
    {
      assert Before(ranked[i], ranked[j]);
    }
  }

  /** A word that did not make the cut is outranked by every kept word. */
  lemma TopPairsOutrank(ws: seq<string>, ranked: seq<Entry>, n: nat, limit: int, w: string)
    requires Tally(ws, ranked) && Ranked(ranked)
    requires n <= |ranked| && (n == limit || n == |ranked|)
    requires w in ws && forall k :: 0 <= k < n ==> TopPairs(ranked, n)[k].0 != w
    ensures n == limit
    ensures var r := TopPairs(ranked, n);
      forall k :: 0 <= k < |r| ==>
        r[k].1 > multiset(ws)[w] || (r[k].1 == multiset(ws)[w] && FirstIndex(r[k].0, ws) < FirstIndex(w, ws))
  {
    var r := TopPairs(ranked, n);
    RankedFirsts(ws, ranked);
    var j :| 0 <= j < |ws| && ws[j] == w;
    var m :| 0 <= m < |ranked| && Words(ranked)[m] == w;
    assert ranked[m].word == w;
    assert m >= n;
    forall k | 0 <= k < |r|
      ensures r[k].1 > multiset(ws)[w] || (r[k].1 == multiset(ws)[w] && FirstIndex(r[k].0, ws) < FirstIndex(w, ws))
    {
      assert Before(ranked[k], ranked[m]);
    }
  }

  /** A prefix of a ranked tally is a most-common selection. */
  lemma TopPairsMostCommon(ws: seq<string>, ranked: seq<Entry>, n: nat, limit: int)
    requires Tally(ws, ranked) && Ranked(ranked)
    requires n <= |ranked| && (n == limit || n == |ranked|)
    ensures MostCommon(ws, TopPairs(ranked, n), limit)
  {
    var r := TopPairs(ranked, n);
    TopPairsOrdered(ws, ranked, n);
    forall w | w in ws && (forall k :: 0 <= k < |r| ==> r[k].0 != w)
      ensures |r| == limit
      ensures forall k :: 0 <= k < |r| ==>
        r[k].1 > multiset(ws)[w] || (r[k].1 == multiset(ws)[w] && FirstIndex(r[k].0, ws) < FirstIndex(w, ws))
    {
      TopPairsOutrank(ws, ranked, n, limit, w);
    }
  }

  /** The first occurrence is unique. */
  lemma FirstIndexUnique(w: string, s: seq<string>, f: nat)
    requires f < |s| && s[f] == w && forall j :: 0 <= j < f ==> s[j] != w
    ensures FirstIndex(w, s) == f
  {
  }

  /** `extract_buzzwords(text, limit)`: `dict(Counter(words).most_common(limit))` as an
      ordered list of (word, count) pairs. A `limit` of zero or less gives nothing. */
  method ExtractBuzzwords(text: string, limit: int) returns (r: seq<(string, nat)>)
    ensures limit <= 0 ==> r == []
    ensures limit > 0 ==> |r| <= limit
    ensures forall k :: 0 <= k < |r| ==> IsBuzzword(r[k].0) && r[k].1 > 0
    ensures MostCommon(FilteredTokens(text), r, if limit <= 0 then 0 else limit)
  {
    var ws := FilteredTokens(text);
    var es := CountWords(ws);
    TallyFirstsDistinct(ws, es);
    var ranked := SortByRank(es);
    SortRanked(es);
    RankedTally(ws, es, ranked);
    var n := if limit <= 0 then 0 else if limit < |ranked| then limit else |ranked|;
    r := TopPairs(ranked, n);
    TopPairsMostCommon(ws, ranked, n, if limit <= 0 then 0 else limit);
    forall k | 0 <= k < |r|
      ensures IsBuzzword(r[k].0) && r[k].1 > 0
    {
      assert EntryOf(ws, ranked[k]);
      assert ws[ranked[k].first] == r[k].0;
    }
  }

  /** The default `limit` of `extract_buzzwords`, which the `/buzzwords` route relies on
      when it calls `extract_buzzwords(combined_text)`. */
  const DefaultLimit := 20

  /** `extract_buzzwords(text)`: the twenty most common buzzwords. */
  method ExtractBuzzwordsDefault(text: string) returns (r: seq<(string, nat)>)
    ensures |r| <= DefaultLimit
    ensures MostCommon(FilteredTokens(text), r, DefaultLimit)
  {
    r := ExtractBuzzwords(text, DefaultLimit);
  }
}
