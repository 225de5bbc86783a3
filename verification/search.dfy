/** The two consumers of the web-search response in backend/app.py: the URL list of
    `fetch_news_links` and the `/trends` route (query assembly, title de-duplication and
    rank scoring). The HTTP exchange itself is an input: its decoded body, or a failure. */
module Search {
  import opened Wrappers
  import opened Json
  import opened Text
  import opened Seqs

  /** What the POST to the search service followed by `json.loads` produced. */
  datatype Response = Received(body: Json) | Failed

  /** `fetch_news_links` reads this many organic results. */
  const LinkCap := 5

  /** `/trends` reads this many organic results. */
  const TrendCap := 10

  /** `body["organic"][:cap]` as a list of items: `Ok([])` when `"organic" in body` is
      false, `Err` when Python raises. */
  function OrganicHead(body: Json, cap: nat): (r: Result<seq<Json>>)
    ensures r.Ok? ==> |r.value| <= cap
    ensures body.JObj? && "organic" !in body.fields ==> r == Ok([])
    ensures body.JObj? && "organic" in body.fields && body.fields["organic"].JArr? ==>
      var xs := body.fields["organic"].items;
      r == Ok(if |xs| <= cap then xs else xs[..cap])
    ensures body.JObj? && "organic" in body.fields && !body.fields["organic"].JArr? ==>
      (r.Ok? <==> body.fields["organic"].JStr?)
    ensures !body.JObj? ==> r == (if HasKey(body, "organic") == Ok(false) then Ok([]) else Err)
  {
    match HasKey(body, "organic")
    case Err => Err
    case Ok(present) =>
      if !present then Ok([])
      else
        match Index(body, "organic")
        case Err => Err
        case Ok(v) => Head(v, cap)
  }

  /** The item is a dict with a `link` key. */
  predicate HasLink(item: Json) {
    item.JObj? && "link" in item.fields
  }

  /** Evaluating `if "link" in item: urls.append(item["link"])` raises. */
  predicate LinkRaises(item: Json) {
    match HasKey(item, "link")
    case Err => true
    case Ok(b) => b && !HasLink(item)
  }

  /** The loop of `fetch_news_links` over the organic items. */
  function LinksOf(items: seq<Json>): Result<seq<Json>>
    decreases |items|
  {
    if items == [] then Ok([])
    else if LinkRaises(items[0]) then Err
    else
      match LinksOf(items[1..])
      case Err => Err
      case Ok(rest) => Ok(if HasLink(items[0]) then [items[0].fields["link"]] + rest else rest)
  }

  /** `us` holds the links of exactly the items at the increasing positions `idx`, and
      those are all the items that have a link. */
  ghost predicate SelectsLinks(items: seq<Json>, idx: seq<int>, us: seq<Json>) {
    && |idx| == |us|
    && (forall k :: 0 <= k < |idx| ==> 0 <= idx[k] < |items| && HasLink(items[idx[k]]) && items[idx[k]].fields["link"] == us[k])
    && (forall k, l :: 0 <= k < l < |idx| ==> idx[k] < idx[l])
    && (forall i :: 0 <= i < |items| && HasLink(items[i]) ==> i in idx)
  }

  /** The loop fails exactly when some item makes Python raise. */
  lemma {:induction false} LinksOfErrIff(items: seq<Json>)
    ensures LinksOf(items).Err? <==> exists i :: 0 <= i < |items| && LinkRaises(items[i])
    decreases |items|
  {
    if items != [] && !LinkRaises(items[0]) {
      LinksOfErrIff(items[1..]);
      assert forall i :: 1 <= i < |items| ==> items[i] == items[1..][i - 1];
      if LinksOf(items[1..]).Err? {
        var i :| 0 <= i < |items[1..]| && LinkRaises(items[1..][i]);
        assert LinkRaises(items[i + 1]);
      }
    }
  }

  /** The positions of the link-carrying items of `items`, given those of its tail. */
  function ConsIndex(head: bool, idx: seq<int>): (r: seq<int>)
    ensures |r| == |idx| + (if head then 1 else 0)
  {
    (if head then [0] else []) + Map((x: int) => x + 1, idx)
  }

  /** The links the loop returns for `items` when its tail returned `rest`. */
  function ConsLink(items: seq<Json>, rest: seq<Json>): seq<Json>
    requires items != []
  {
    if HasLink(items[0]) then [items[0].fields["link"]] + rest else rest
  }

  /** One step of the selection, positions and values: prepending an item keeps every
      selected position pointing at the link it lists. */
  lemma ConsLinksAt(items: seq<Json>, idx: seq<int>, rest: seq<Json>)
    requires items != [] && |idx| == |rest|
    requires forall k :: 0 <= k < |idx| ==> 0 <= idx[k] < |items| - 1 && HasLink(items[idx[k] + 1]) && items[idx[k] + 1].fields["link"] == rest[k]
    ensures var idx', us := ConsIndex(HasLink(items[0]), idx), ConsLink(items, rest);
      |idx'| == |us| &&
      forall k :: 0 <= k < |idx'| ==> 0 <= idx'[k] < |items| && HasLink(items[idx'[k]]) && items[idx'[k]].fields["link"] == us[k]
  {
    var idx', us := ConsIndex(HasLink(items[0]), idx), ConsLink(items, rest);
    var d := if HasLink(items[0]) then 1 else 0;
    forall k | 0 <= k < |idx'|
      ensures 0 <= idx'[k] < |items| && HasLink(items[idx'[k]]) && items[idx'[k]].fields["link"] == us[k]
    {
      if k >= d {
        assert idx'[k] == idx[k - d] + 1 && us[k] == rest[k - d];
      }
    }
  }

  /** One step of the selection, order and coverage. */
  lemma ConsLinksCover(items: seq<Json>, idx: seq<int>)
    requires items != []
    requires forall k :: 0 <= k < |idx| ==> 0 <= idx[k]
    requires forall k, l :: 0 <= k < l < |idx| ==> idx[k] < idx[l]
    requires forall i :: 0 <= i < |items| - 1 && HasLink(items[i + 1]) ==> i in idx
    ensures var idx' := ConsIndex(HasLink(items[0]), idx);
      && (forall k, l :: 0 <= k < l < |idx'| ==> idx'[k] < idx'[l])
      && (forall i :: 0 <= i < |items| && HasLink(items[i]) ==> i in idx')
  {
    var idx' := ConsIndex(HasLink(items[0]), idx);
    var d := if HasLink(items[0]) then 1 else 0;
    assert forall k :: 0 <= k < |idx| ==> idx'[k + d] == idx[k] + 1;
    forall i | 0 <= i < |items| && HasLink(items[i])
      ensures i in idx'
    {
      if i > 0 {
        assert HasLink(items[(i - 1) + 1]);
        assert i - 1 in idx;
        var k :| 0 <= k < |idx| && idx[k] == i - 1;
        assert idx'[k + d] == i;
      }
    }
  }

  /** One step of the selection: prepending an item that does not raise. */
  lemma ConsLinks(items: seq<Json>, idx: seq<int>, rest: seq<Json>)
    requires items != [] && !LinkRaises(items[0])
    requires SelectsLinks(items[1..], idx, rest)
    ensures SelectsLinks(items, ConsIndex(HasLink(items[0]), idx), ConsLink(items, rest))
  {
    assert forall i :: 1 <= i < |items| ==> items[i] == items[1..][i - 1];
    ConsLinksAt(items, idx, rest);
    ConsLinksCover(items, idx);
  }

  /** When the loop succeeds it returns the links of the items that have one, in item
      order. */
  lemma {:induction false} LinksOfSelects(items: seq<Json>)
    requires LinksOf(items).Ok?
    ensures exists idx :: SelectsLinks(items, idx, LinksOf(items).value)
    decreases |items|
  {
    if items == [] {
      assert SelectsLinks(items, [], []);
    } else {
      LinksOfSelects(items[1..]);
      var idx :| SelectsLinks(items[1..], idx, LinksOf(items[1..]).value);
      ConsLinks(items, idx, LinksOf(items[1..]).value);
      assert LinksOf(items).value == ConsLink(items, LinksOf(items[1..]).value);
    }
  }

  /** `fetch_news_links`: the links of the first five organic results, or `[]` when the
      request, the decoding or any lookup raises. */
  function FetchNewsLinks(resp: Response): (urls: seq<Json>)
    ensures |urls| <= LinkCap
  {
    match resp
    case Failed => []
    case Received(body) =>
      match OrganicHead(body, LinkCap)
      case Err => []
      case Ok(items) =>
        LinksLength(items);
        match LinksOf(items)
        case Err => []
        case Ok(us) => us
  }

  lemma {:induction false} LinksLength(items: seq<Json>)
    ensures LinksOf(items).Ok? ==> |LinksOf(items).value| <= |items|
    decreases |items|
  {
    if items != [] {
      LinksLength(items[1..]);
    }
  }

  /** The URL list is exactly the links, in order, of the first five organic items when
      none of them raises, and empty otherwise. */
  lemma FetchNewsLinksSpec(body: Json, items: seq<Json>)
    requires OrganicHead(body, LinkCap) == Ok(items)
    ensures (exists i :: 0 <= i < |items| && LinkRaises(items[i])) ==> FetchNewsLinks(Received(body)) == []
    ensures (forall i :: 0 <= i < |items| ==> !LinkRaises(items[i])) ==>
      exists idx :: SelectsLinks(items, idx, FetchNewsLinks(Received(body)))
  {
    LinksOfErrIff(items);
    if LinksOf(items).Ok? {
      LinksOfSelects(items);
    }
    LinksLength(items);
    assert LinksOf(items).Ok? ==> FetchNewsLinks(Received(body)) == LinksOf(items).value;
  }

  /** Only a dict body whose `organic` entry is a list can yield URLs. */
  lemma FetchNewsLinksNeedsList(body: Json)
    requires FetchNewsLinks(Received(body)) != []
    ensures body.JObj? && "organic" in body.fields && body.fields["organic"].JArr?
  {
    var r := OrganicHead(body, LinkCap);
    if body.JObj? && "organic" in body.fields && body.fields["organic"].JStr? {
      var items := r.value;
      assert forall i :: 0 <= i < |items| ==> items[i].JStr? && |items[i].s| == 1;
      NoLinksInChars(items);
    }
  }

  /** One-character strings never contain `"link"`, so they contribute nothing. */
  lemma {:induction false} NoLinksInChars(items: seq<Json>)
    requires forall i :: 0 <= i < |items| ==> items[i].JStr? && |items[i].s| == 1
    ensures LinksOf(items) == Ok([])
    decreases |items|
  {
    if items != [] {
      OccursIff("link", items[0].s);
      NoLinksInChars(items[1..]);
    }
  }

  /** The optional fields of the `/trends` request body. */
  datatype TrendQuery = TrendQuery(
    interest: Option<string>,
    prompt: Option<string>,
    age: Option<int>,
    gender: Option<string>,
    location: Option<string>)

  /** `str(query.age or "")`: an absent or zero age contributes the empty string. */
  function AgeTerm(age: Option<int>): string {
    match age
    case None => ""
    case Some(n) => if n == 0 then "" else IntToString(n)
  }

  /** `[interest or "", prompt or "", location or "", gender or "", str(age or "")]`. */
  function SearchTerms(q: TrendQuery): seq<string> {
    [q.interest.GetOr(""), q.prompt.GetOr(""), q.location.GetOr(""), q.gender.GetOr(""), AgeTerm(q.age)]
  }

  predicate NonEmpty(s: string) {
    s != ""
  }

  /** `" ".join([term for term in search_terms if term]).strip()`. */
  function SearchBasis(q: TrendQuery): string {
    Strip(Join(" ", Filter(NonEmpty, SearchTerms(q))))
  }

  /** The search basis is empty exactly when every term is empty or whitespace only; an
      age other than zero always makes it non-empty. */
  lemma SearchBasisEmptyIff(q: TrendQuery)
    ensures SearchBasis(q) == "" <==> forall k :: 0 <= k < |SearchTerms(q)| ==> AllSpace(SearchTerms(q)[k])
    ensures (q.age.Some? && q.age.value != 0) ==> SearchBasis(q) != ""
  {
    var terms := SearchTerms(q);
    JoinAllSpace(Filter(NonEmpty, terms));
    KeptAllSpaceIff(terms);
    if q.age.Some? && q.age.value != 0 {
      assert !AllSpace(terms[4]);
    }
  }

  /** Dropping empty strings does not change whether every string is whitespace only. */
  lemma KeptAllSpaceIff(terms: seq<string>)
    ensures (forall k :: 0 <= k < |Filter(NonEmpty, terms)| ==> AllSpace(Filter(NonEmpty, terms)[k]))
        <==> (forall k :: 0 <= k < |terms| ==> AllSpace(terms[k]))
  {
    var kept := Filter(NonEmpty, terms);
    if forall k :: 0 <= k < |terms| ==> AllSpace(terms[k]) {
      forall k | 0 <= k < |kept|
        ensures AllSpace(kept[k])
      {
        FilterMembers(NonEmpty, terms, kept[k]);
        var j :| 0 <= j < |terms| && terms[j] == kept[k];
      }
    }
    if forall k :: 0 <= k < |kept| ==> AllSpace(kept[k]) {
      forall j | 0 <= j < |terms|
        ensures AllSpace(terms[j])
      {
        if terms[j] != "" {
          FilterMembers(NonEmpty, terms, terms[j]);
          var k :| 0 <= k < |kept| && kept[k] == terms[j];
        }
      }
    }
  }

  /** One entry of `trending_topics`. */
  datatype TrendItem = TrendItem(title: Json, snippet: Json, link: Json, score: int)

  /** Response of `/trends`: status 400, a trend list, or status 500. */
  datatype TrendsResponse =
    | BadRequest(error: string)
    | TrendsOk(basis: string, topics: seq<TrendItem>)
    | ServerError

  /** `item.get("title")` for an item that is a dict. */
  function TitleOf(item: Json): Json
    requires item.JObj?
  {
    if "title" in item.fields then item.fields["title"] else JNull
  }

  /** Evaluating the loop body of `/trends` on this item raises: it is not a dict, or its
      title is a truthy list or dict, which cannot go into `seen_titles`. */
  predicate TrendRaises(item: Json) {
    !item.JObj? || (Truthy(TitleOf(item)) && !Hashable(TitleOf(item)))
  }

  /** The trend the loop builds from a dict item at `enumerate` index `idx`. */
  function TrendOf(item: Json, idx: nat): (t: TrendItem)
    requires item.JObj?
    ensures t.title == TitleOf(item) && t.score == 100 - 10 * idx
  {
    TrendItem(TitleOf(item), Get(item, "snippet", JStr("")).value, Get(item, "link", JStr("")).value, 100 - 10 * idx)
  }

  /** The `/trends` loop over organic items, `start` being the `enumerate` index of the
      first one and `seen` the titles already taken. */
  function CollectTrends(items: seq<Json>, start: nat, seen: set<Json>): Result<seq<TrendItem>>
    decreases |items|
  {
    if items == [] then Ok([])
    else
      var item := items[0];
      if TrendRaises(item) then Err
      else
        var title := TitleOf(item);
        if !Truthy(title) || title in seen then CollectTrends(items[1..], start + 1, seen)
        else
          match CollectTrends(items[1..], start + 1, seen + {title})
          case Err => Err
          case Ok(ts) => Ok([TrendOf(item, start)] + ts)
  }

  /** `t` is the trend built from `items[i]`, the first item carrying that title. */
  predicate TrendFrom(items: seq<Json>, start: nat, i: int, t: TrendItem) {
    && 0 <= i < |items| && items[i].JObj?
    && t.title == TitleOf(items[i])
    && t.snippet == Get(items[i], "snippet", JStr("")).value
    && t.link == Get(items[i], "link", JStr("")).value
    && t.score == 100 - 10 * (start + i)
    && forall j :: 0 <= j < i ==> items[j].JObj? ==> TitleOf(items[j]) != t.title
  }

  /** The item position a trend's score encodes, counted from `start`. */
  function PositionOf(start: nat, t: TrendItem): int {
    (100 - t.score) / 10 - start
  }

  /** What the `/trends` loop guarantees of a trend list it returns. */
  ghost predicate TrendsWellFormed(items: seq<Json>, start: nat, seen: set<Json>, ts: seq<TrendItem>) {
    && |ts| <= |items|
    && (forall k :: 0 <= k < |ts| ==> Truthy(ts[k].title) && ts[k].title !in seen)
    && (forall k :: 0 <= k < |ts| ==> TrendFrom(items, start, PositionOf(start, ts[k]), ts[k]))
    && (forall k, l :: 0 <= k < l < |ts| ==> ts[k].title != ts[l].title && ts[k].score > ts[l].score)
    && (forall i :: 0 <= i < |items| && items[i].JObj? && Truthy(TitleOf(items[i])) && TitleOf(items[i]) !in seen ==>
          exists k :: 0 <= k < |ts| && ts[k].title == TitleOf(items[i]))
  }

  /** The loop fails exactly when some item raises; otherwise its trends have truthy,
      distinct titles, each taken from the first item carrying it and scored by that
      item's position, in decreasing score order, and no truthy title is missed. */
  lemma {:induction false} CollectTrendsSpec(items: seq<Json>, start: nat, seen: set<Json>)
    ensures CollectTrends(items, start, seen).Err? <==> exists i :: 0 <= i < |items| && TrendRaises(items[i])
    ensures CollectTrends(items, start, seen).Ok? ==> TrendsWellFormed(items, start, seen, CollectTrends(items, start, seen).value)
    decreases |items|
  {
    if items != [] && !TrendRaises(items[0]) {
      var item := items[0];
      var title := TitleOf(item);
      var tail := items[1..];
      assert forall i :: 1 <= i < |items| ==> items[i] == tail[i - 1];
      if !Truthy(title) || title in seen {
        CollectTrendsSpec(tail, start + 1, seen);
        if CollectTrends(tail, start + 1, seen).Ok? {
          SkipTrend(items, start, seen, CollectTrends(tail, start + 1, seen).value);
        }
      } else {
        CollectTrendsSpec(tail, start + 1, seen + {title});
        if CollectTrends(tail, start + 1, seen + {title}).Ok? {
          ConsTrend(items, start, seen, CollectTrends(tail, start + 1, seen + {title}).value);
        }
      }
    }
  }

  /** The trend built from item `i` of the tail is the trend built from item `i + 1`,
      provided the head item carries a different title. */
  lemma ShiftTrendFrom(items: seq<Json>, start: nat, i: int, t: TrendItem)
    requires items != [] && items[0].JObj? && TitleOf(items[0]) != t.title
    requires TrendFrom(items[1..], start + 1, i, t)
    ensures TrendFrom(items, start, i + 1, t)
    ensures PositionOf(start, t) == i + 1 && PositionOf(start + 1, t) == i
  {
    assert forall j :: 1 <= j < |items| ==> items[j] == items[1..][j - 1];
  }

  /** Step of `CollectTrendsSpec` where the first item is skipped: its title is falsy or
      already taken. */
  lemma SkipTrend(items: seq<Json>, start: nat, seen: set<Json>, ts: seq<TrendItem>)
    requires items != [] && !TrendRaises(items[0])
    requires !Truthy(TitleOf(items[0])) || TitleOf(items[0]) in seen
    requires TrendsWellFormed(items[1..], start + 1, seen, ts)
    ensures TrendsWellFormed(items, start, seen, ts)
  {
    var tail := items[1..];
    forall k | 0 <= k < |ts|
      ensures TrendFrom(items, start, PositionOf(start, ts[k]), ts[k])
    {
      ShiftTrendFrom(items, start, PositionOf(start + 1, ts[k]), ts[k]);
    }
    forall i | 0 <= i < |items| && items[i].JObj? && Truthy(TitleOf(items[i])) && TitleOf(items[i]) !in seen
      ensures exists k :: 0 <= k < |ts| && ts[k].title == TitleOf(items[i])
    {
      assert i > 0 && items[i] == tail[i - 1];
    }
  }

  /** Step of `CollectTrendsSpec`, provenance: the new trend comes from position 0 and
      every older one from a later position. */
  lemma ConsTrendFrom(items: seq<Json>, start: nat, ts: seq<TrendItem>)
    requires items != [] && items[0].JObj?
    requires forall k :: 0 <= k < |ts| ==>
      TrendFrom(items[1..], start + 1, PositionOf(start + 1, ts[k]), ts[k]) && TitleOf(items[0]) != ts[k].title
    ensures var r := [TrendOf(items[0], start)] + ts;
      forall k :: 0 <= k < |r| ==> TrendFrom(items, start, PositionOf(start, r[k]), r[k])
  {
    var r := [TrendOf(items[0], start)] + ts;
    assert PositionOf(start, r[0]) == 0;
    forall k | 0 <= k < |r|
      ensures TrendFrom(items, start, PositionOf(start, r[k]), r[k])
    {
      if k > 0 {
        ShiftTrendFrom(items, start, PositionOf(start + 1, ts[k - 1]), ts[k - 1]);
        assert r[k] == ts[k - 1];
      }
    }
  }

  /** Step of `CollectTrendsSpec`, order: the new trend outscores every older one and
      carries a title none of them has. */
  lemma ConsTrendOrdered(t: TrendItem, ts: seq<TrendItem>)
    requires forall k :: 0 <= k < |ts| ==> ts[k].title != t.title && ts[k].score < t.score
    requires forall k, l :: 0 <= k < l < |ts| ==> ts[k].title != ts[l].title && ts[k].score > ts[l].score
    ensures var r := [t] + ts;
      forall k, l :: 0 <= k < l < |r| ==> r[k].title != r[l].title && r[k].score > r[l].score
  {
    var r := [t] + ts;
    assert forall k :: 1 <= k < |r| ==> r[k] == ts[k - 1];
  }

  /** Step of `CollectTrendsSpec`, completeness: every unseen truthy title is listed. */
  lemma ConsTrendComplete(items: seq<Json>, start: nat, seen: set<Json>, ts: seq<TrendItem>)
    requires items != [] && items[0].JObj?
    requires forall i :: (0 <= i < |items[1..]| && items[1..][i].JObj? && Truthy(TitleOf(items[1..][i]))
      && TitleOf(items[1..][i]) !in seen + {TitleOf(items[0])}) ==>
        exists k :: 0 <= k < |ts| && ts[k].title == TitleOf(items[1..][i])
    ensures var r := [TrendOf(items[0], start)] + ts;
      forall i :: 0 <= i < |items| && items[i].JObj? && Truthy(TitleOf(items[i])) && TitleOf(items[i]) !in seen ==>
        exists k :: 0 <= k < |r| && r[k].title == TitleOf(items[i])
  {
    var r := [TrendOf(items[0], start)] + ts;
    var title := TitleOf(items[0]);
    forall i | 0 <= i < |items| && items[i].JObj? && Truthy(TitleOf(items[i])) && TitleOf(items[i]) !in seen
      ensures exists k :: 0 <= k < |r| && r[k].title == TitleOf(items[i])
    {
      if TitleOf(items[i]) == title {
        assert r[0].title == title;
      } else {
        assert items[i] == items[1..][i - 1];
        var k :| 0 <= k < |ts| && ts[k].title == TitleOf(items[i]);
        assert r[k + 1] == ts[k];
      }
    }
  }

  /** Step of `CollectTrendsSpec` where the first item yields a trend. */
  lemma ConsTrend(items: seq<Json>, start: nat, seen: set<Json>, ts: seq<TrendItem>)
    requires items != [] && !TrendRaises(items[0])
    requires Truthy(TitleOf(items[0])) && TitleOf(items[0]) !in seen
    requires TrendsWellFormed(items[1..], start + 1, seen + {TitleOf(items[0])}, ts)
    ensures TrendsWellFormed(items, start, seen, [TrendOf(items[0], start)] + ts)
  {
    var t := TrendOf(items[0], start);
    forall k | 0 <= k < |ts|
      ensures ts[k].title != t.title && ts[k].score < t.score
    {
      assert TrendFrom(items[1..], start + 1, PositionOf(start + 1, ts[k]), ts[k]);
    }
    ConsTrendFrom(items, start, ts);
    ConsTrendOrdered(t, ts);
    ConsTrendComplete(items, start, seen, ts);
  }

  /** The `/trends` handler; `search` is the request to the search service, called with
      the search basis. */
  function GetTrends(q: TrendQuery, search: string -> Response): TrendsResponse {
    var basis := SearchBasis(q);
    if basis == "" then BadRequest("No query parameters provided.")
    else
      match search(basis)
      case Failed => ServerError
      case Received(body) =>
        match OrganicHead(body, TrendCap)
        case Err => ServerError
        case Ok(items) =>
          match CollectTrends(items, 0, {})
          case Err => ServerError
          case Ok(ts) => TrendsOk(basis, ts)
  }

  /** `/trends` end to end: a request without usable fields is answered 400 whatever the
      search service would say; a failed search is answered 500; a trend list names the
      search basis, holds at most ten trends with truthy distinct titles, scores between
      10 and 100 in strictly decreasing order, each taken from the first organic item
      carrying its title. */
  lemma GetTrendsSpec(q: TrendQuery, search: string -> Response)
    ensures GetTrends(q, search).BadRequest? <==> SearchBasis(q) == ""
    ensures SearchBasis(q) == "" ==> GetTrends(q, search) == BadRequest("No query parameters provided.")
    ensures SearchBasis(q) != "" && search(SearchBasis(q)).Failed? ==> GetTrends(q, search).ServerError?
    ensures GetTrends(q, search).TrendsOk? ==>
      var ts := GetTrends(q, search).topics;
      && GetTrends(q, search).basis == SearchBasis(q) != ""
      && |ts| <= TrendCap
      && (forall k :: 0 <= k < |ts| ==> Truthy(ts[k].title) && 10 <= ts[k].score <= 100)
      && (forall k, l :: 0 <= k < l < |ts| ==> ts[k].title != ts[l].title && ts[k].score > ts[l].score)
      && search(SearchBasis(q)).Received?
      && OrganicHead(search(SearchBasis(q)).body, TrendCap).Ok?
      && TrendsWellFormed(OrganicHead(search(SearchBasis(q)).body, TrendCap).value, 0, {}, ts)
  {
    var basis := SearchBasis(q);
    if basis != "" && search(basis).Received? && OrganicHead(search(basis).body, TrendCap).Ok? {
      var items := OrganicHead(search(basis).body, TrendCap).value;
      CollectTrendsSpec(items, 0, {});
      if CollectTrends(items, 0, {}).Ok? {
        var ts := CollectTrends(items, 0, {}).value;
        assert forall k :: 0 <= k < |ts| ==> TrendFrom(items, 0, PositionOf(0, ts[k]), ts[k]);
      }
    }
  }
}
