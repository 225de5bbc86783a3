/** The `/news-summary` route of backend/app.py: for each source URL the article text is
    fetched, short texts are skipped, an optional context line describing the reader is
    put in front, and the summarizer is called on the first 1024 characters. Article
    download and the summarization pipeline are inputs. */
module NewsSummary {
  import opened Wrappers
  import opened Text
  import opened Seqs

  /** The request fields the route reads (`ReferenceFeatures`). */
  datatype SummaryQuery = SummaryQuery(
    topic: string,
    prompt: Option<string>,
    age: Option<int>,
    gender: Option<string>,
    location: Option<string>)

  /** Outcome of `Article(url)`, `download()` and `parse()`: the article text, or the
      message of the exception raised. */
  datatype ArticleResult = Fetched(text: string) | FetchRaised(message: string)

  /** Outcome of the summarizer call: the `summary_text` it produced, or the message of
      the exception raised. */
  datatype SummarizerResult = Summarized(summary: string) | SummarizerRaised(message: string)

  /** Articles whose stripped text is shorter than this are skipped. */
  const MinArticleLength := 100

  /** The summarizer is given at most this many characters. */
  const SummarizerInputCap := 1024

  /** Python truthiness of an optional string or integer field. */
  predicate StrTruthy(o: Option<string>) {
    o.Some? && o.value != ""
  }

  predicate IntTruthy(o: Option<int>) {
    o.Some? && o.value != 0
  }

  /** The reader is described at all: one of prompt, age, gender, location is truthy. */
  predicate HasContext(q: SummaryQuery) {
    StrTruthy(q.prompt) || IntTruthy(q.age) || StrTruthy(q.gender) || StrTruthy(q.location)
  }

  /** The audience clause is present: one of age, gender, location is truthy. */
  predicate HasAudience(q: SummaryQuery) {
    IntTruthy(q.age) || StrTruthy(q.gender) || StrTruthy(q.location)
  }

  /** `f"{query.age}"`: Python renders an absent age as `None`. */
  function AgeText(age: Option<int>): string {
    match age
    case None => "None"
    case Some(n) => IntToString(n)
  }

  const ContextHead := "Summarize this article"
  const FocusHead := " with a focus on "

  /** `query.location or 'an unspecified location'`. */
  function PlaceText(location: Option<string>): string {
    if StrTruthy(location) then location.value else "an unspecified location"
  }

  /** The ` for a {age}yo {gender} from {place}` clause. */
  function AudienceClause(q: SummaryQuery): string {
    " for a " + AgeText(q.age) + "yo " + q.gender.GetOr("") + " from " + PlaceText(q.location)
  }

  /** The context line the route builds before the `:` separator. */
  function Context(q: SummaryQuery): string {
    ContextHead
      + (if StrTruthy(q.prompt) then FocusHead + q.prompt.value else "")
      + (if HasAudience(q) then AudienceClause(q) else "")
  }

  /** The text passed on after the optional context is put in front. */
  function SummaryInput(q: SummaryQuery, text: string): string {
    if HasContext(q) then Context(q) + ":\n\n" + text else text
  }

  /** `s[:n]`. */
  function Truncate(s: string, n: nat): (r: string)
    ensures |r| <= n && r <= s
    ensures |s| <= n ==> r == s
    ensures |s| > n ==> |r| == n && r == s[..n]
  {
    if |s| <= n then s else s[..n]
  }

  /** The article text always ends the summarizer input; it is passed unchanged exactly
      when no reader field is truthy, and otherwise follows the context line and a blank
      line. */
  lemma SummaryInputShape(q: SummaryQuery, text: string)
    ensures var input := SummaryInput(q, text);
      && |input| >= |text| && input[|input| - |text|..] == text
      && (input == text <==> !HasContext(q))
      && (HasContext(q) ==> input[..|input| - |text|] == Context(q) + ":\n\n")
  {
    var input := SummaryInput(q, text);
    if HasContext(q) {
      assert input == (Context(q) + ":\n\n") + text;
      assert |input| > |text|;
    }
  }

  /** The context line opens with the fixed head; a truthy prompt follows it directly
      after ` with a focus on `, and with any audience field set the line ends in the
      location, or in `an unspecified location` when there is none. */
  lemma ContextShape(q: SummaryQuery)
    ensures Context(q)[..|ContextHead|] == ContextHead
    ensures StrTruthy(q.prompt) ==>
      Context(q)[|ContextHead|..|ContextHead| + |FocusHead| + |q.prompt.value|] == FocusHead + q.prompt.value
    ensures !StrTruthy(q.prompt) && !HasAudience(q) ==> Context(q) == ContextHead
    ensures HasAudience(q) ==>
      var c, p := Context(q), PlaceText(q.location);
      |c| >= |p| && c[|c| - |p|..] == p
  {
    var focus := if StrTruthy(q.prompt) then FocusHead + q.prompt.value else "";
    var aud := if HasAudience(q) then AudienceClause(q) else "";
    assert Context(q) == ContextHead + focus + aud;
    ConcatParts(ContextHead, focus, aud);
    if HasAudience(q) {
      var front := " for a " + AgeText(q.age) + "yo " + q.gender.GetOr("") + " from ";
      assert aud == front + PlaceText(q.location);
      ConcatParts(ContextHead + focus, front, PlaceText(q.location));
    }
  }

  /** Where the parts of a three-part concatenation sit. */
  lemma ConcatParts(a: string, b: string, d: string)
    ensures (a + b + d)[..|a|] == a
    ensures (a + b + d)[|a|..|a| + |b|] == b
    ensures (a + b + d)[|a + b| + |d| - |d|..] == d
    ensures a + b + d == a + (b + d)
  {
  }

  /** What one source URL contributes: nothing when the article is too short, otherwise
      its summary or a failure message naming the URL. */
  function SummaryFor(q: SummaryQuery, url: string, article: ArticleResult, summarize: string -> SummarizerResult): (r: Option<string>)
    ensures article.FetchRaised? ==> r == Some("Failed to summarize " + url + ": " + article.message)
    ensures article.Fetched? ==> (r.None? <==> |Strip(article.text)| < MinArticleLength)
    ensures article.Fetched? && r.Some? ==>
      var sent := Truncate(SummaryInput(q, Strip(article.text)), SummarizerInputCap);
      r.value == match summarize(sent)
        case Summarized(s) => s
        case SummarizerRaised(msg) => "Failed to summarize " + url + ": " + msg
  {
    match article
    case FetchRaised(msg) => Some("Failed to summarize " + url + ": " + msg)
    case Fetched(raw) =>
      var text := Strip(raw);
      if |text| < MinArticleLength then None
      else
        match summarize(Truncate(SummaryInput(q, text), SummarizerInputCap))
        case Summarized(s) => Some(s)
        case SummarizerRaised(msg) => Some("Failed to summarize " + url + ": " + msg)
  }

  /** The route's reply on success. */
  datatype SummaryResponse = SummaryResponse(topic: string, summaries: seq<string>, sources: seq<string>)

  /** Each source URL paired with the outcome of its own download: `articles(i)` is
      what `Article(url)`, `download()` and `parse()` gave for the i-th URL, so a URL
      listed twice is fetched twice. */
  function Fetches(urls: seq<string>, articles: nat -> ArticleResult): (fs: seq<(string, ArticleResult)>)
    ensures |fs| == |urls|
    ensures forall i :: 0 <= i < |urls| ==> fs[i] == (urls[i], articles(i))
  {
    seq(|urls|, i requires 0 <= i < |urls| => (urls[i], articles(i)))
  }

  /** The summary of one fetched URL, or nothing when the article is skipped. */
  function SummaryOf(q: SummaryQuery, summarize: string -> SummarizerResult): ((string, ArticleResult)) -> Option<string> {
    (f: (string, ArticleResult)) => SummaryFor(q, f.0, f.1, summarize)
  }

  /** The loop over the source URLs, in order. */
  function Summaries(q: SummaryQuery, urls: seq<string>, articles: nat -> ArticleResult, summarize: string -> SummarizerResult): seq<string> {
    FilterMap(SummaryOf(q, summarize), Fetches(urls, articles))
  }

  /** `/news-summary` for the URLs `fetch_news_links` returned. */
  function NewsSummary(q: SummaryQuery, urls: seq<string>, articles: nat -> ArticleResult, summarize: string -> SummarizerResult): (r: SummaryResponse)
    ensures r.topic == q.topic && r.sources == urls
  {
    SummaryResponse(q.topic, Summaries(q, urls, articles, summarize), urls)
  }

  /** The fetched URL is not skipped. */
  predicate Contributes(q: SummaryQuery, summarize: string -> SummarizerResult, f: (string, ArticleResult)) {
    SummaryFor(q, f.0, f.1, summarize).Some?
  }

  /** Exactly one summary per fetched URL that is not skipped, in URL order: the k-th
      summary belongs to the k-th contributing URL and its own download. */
  lemma {:induction false} SummariesSpec(q: SummaryQuery, urls: seq<string>, articles: nat -> ArticleResult, summarize: string -> SummarizerResult)
    ensures var kept := Filter((f: (string, ArticleResult)) => Contributes(q, summarize, f), Fetches(urls, articles));
      var ss := Summaries(q, urls, articles, summarize);
      && |ss| == |kept|
      && forall k :: 0 <= k < |ss| ==> Some(ss[k]) == SummaryFor(q, kept[k].0, kept[k].1, summarize)
  {
    FilterMapSpec(SummaryOf(q, summarize), (f: (string, ArticleResult)) => Contributes(q, summarize, f), Fetches(urls, articles));
  }
}
