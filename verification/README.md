# BlindSpot core, modelled in Dafny

BlindSpot is a personalised news front end (Next.js pages over a Supabase auth
service) with a FastAPI backend that fetches web-search results and articles and
summarises them. This project models the parts of it that carry real logic, as pure
functions over immutable data, and proves what they promise:

- **Backend text and result processing** (`backend/app.py`):
  - the article-quality test `is_meaningful` (module `NewsText`);
  - the line cleaner `clean_article_text`, meaning the second definition, which is the one bound at module load (`NewsText`);
  - buzzword extraction `extract_buzzwords`, i.e. a regex tokenizer, a stop-word filter and `Counter.most_common` (`Buzzwords`);
  - URL extraction in `fetch_news_links` (`Search`);
  - query assembly, title de-duplication and rank scoring in `/trends` (`Search`);
  - the contextual prompt of `/news-summary` (`NewsSummary`).
- **Topic and interest lists** of the Dashboard and Profile pages (`Topics`).
- **Auth-state handling** of the Dashboard, Profile, Chat and BlindSpot surfaces (`Auth`), plus the upsert row built by the Profile form (`ProfileForm`).
- **The avatar dropdown** of the Dashboard (`Dropdown`).
- **The OAuth callback handler** and its `302 Found` redirects, per section 15.4.3 of RFC 9110 (`Callback`).

Shared pieces:

- `Text` defines Python/JavaScript string operations: `strip`/`trim`, `lower`, substring `in`, `join` and `str(int)`.
- `Seqs` defines order-preserving filtering.
- `Json` defines decoded JSON values, with the Python semantics of `in`, `[]`, slicing, `.get` and truthiness. Each operation that raises in Python returns `Err`.

Network calls, the article downloader, the summarizer and the auth service are not modelled. Their answers are parameters of the functions that use them, so every answer those services can give is an input.

The Dashboard's `addTopic` appends the input as typed (blind-spot/src/pages/Dashboard.tsx lines 99-100), and `Topics.AddTopic` does the same. The Profile page's `addInterest` checks membership on the raw input and appends the trimmed input (blind-spot/src/pages/Profile.tsx lines 65-66), which admits duplicates (see Findings). `/news-summary` renders an absent age as `None` when gender or location is given (`NewsSummary.AgeText`). The model keeps that behaviour.

## Model

| member | source | states |
|---|---|---|
| Text.Strip | backend/app.py:60 | `str.strip()` returns the slice of the text between its leading and trailing whitespace runs; the result starts and ends with non-whitespace and is empty exactly when the text is all whitespace |
| Text.OccursIff | backend/app.py:60 | Python `phrase in text` holds exactly when some window of the text equals the phrase |
| Text.JoinLength | backend/app.py:457 | `" ".join(parts)` is as long as the parts together plus one separator between each neighbouring pair |
| Text.JoinAllSpace | backend/app.py:314 | a space-joined string is all whitespace exactly when every part is |
| Text.IntToString | backend/app.py:313 | `str(n)` is non-empty and not blank; for `n >= 0` it is digits without a leading zero (just `0` for zero) that read back as `n`; otherwise a minus sign followed by digits without a leading zero that read back as `-n` |
| Text.NatToStringRoundTrip | backend/app.py:313 | reading back the decimal digits `str(n)` writes gives `n` |
| Seqs.FilterSpec | backend/app.py:111 | a list comprehension with a condition keeps every occurrence of each element that passes, in order, and nothing else |
| Seqs.FilterMembers | blind-spot/src/pages/Dashboard.tsx:106 | an element is in a filtered list exactly when it is in the list and passes the test |
| NewsText.IsMeaningfulIff | backend/app.py:58-60 | `NewsText.IsMeaningful`, the model of `is_meaningful`, holds exactly when no window of the text equals a filter phrase up to letter case and two non-whitespace characters lie at least 100 positions apart, i.e. the stripped text is longer than 100 |
| NewsText.StripLongerIff | backend/app.py:60 | the stripped text is longer than m exactly when two non-whitespace characters lie at least m positions apart |
| NewsText.PhraseOccursIff | backend/app.py:60 | a lower-cased phrase occurs in the lower-cased text exactly when some window of the original text matches it ignoring case |
| NewsText.SplitLines | backend/app.py:446 | `splitlines()` yields lines free of line boundaries whose lengths plus one boundary each fit in the text |
| NewsText.SplitLinesRebuilds | backend/app.py:446 | the lines, each followed by its own line boundary (`\r\n` counted as one) except possibly the last, spell the text again: `splitlines()` drops only the boundaries |
| NewsText.SplitLinesUnique | backend/app.py:446 | any boundary-free lines that rebuild the text that way are exactly the result of `splitlines()` |
| NewsText.CleanArticleTextSelects | backend/app.py:445-457 | `NewsText.CleanArticleText`, the model of `clean_article_text`, joins with single spaces exactly the stripped lines longer than 30 characters whose lower-cased form contains no listed phrase, each kept line as often as it occurs and in original order |
| NewsText.CleanArticleTextShorter | backend/app.py:445-457 | cleaning never makes the text longer |
| Buzzwords.Matches | backend/app.py:110 | scanning from a run boundary, every match is a maximal run of four or more ASCII letters at or after the scan point, and match start positions strictly increase |
| Buzzwords.MatchesComplete | backend/app.py:110 | every maximal run of four or more ASCII letters at or after the scan point is among the matches, with its start position |
| Buzzwords.Tokens | backend/app.py:110 | `re.findall` gives one token per match of the scan, in the same order: each token is the matched run, has at least four ASCII letters, and has no capitals when the text has none |
| Buzzwords.TokensSound | backend/app.py:110 | each token is the maximal run of word characters at its start position and consists of four or more ASCII letters; the start positions strictly increase, so no run is reported twice and tokens come in text order |
| Buzzwords.TokensComplete | backend/app.py:110 | every maximal word-character run of four or more ASCII letters is a token, reported at its own start position |
| Buzzwords.FilteredTokens | backend/app.py:110-111 | every token kept after the stop-word filter is lower-case, at least four ASCII letters and not a stop word |
| Buzzwords.BumpTally | backend/app.py:112 | counting one more word keeps an exact tally of the words seen so far, with each word's first position |
| Buzzwords.BumpSeen | backend/app.py:112 | counting a word already in the tally increments its entry only, and the tally stays exact |
| Buzzwords.BumpUnseen | backend/app.py:112 | counting a new word appends its entry with count 1 at its position, and the tally stays exact |
| Buzzwords.CountWords | backend/app.py:112 | `Counter` gives each distinct word exactly its number of occurrences, one entry per word, each with its first position |
| Buzzwords.SortRanked | backend/app.py:113 | the entries are ordered by count descending, ties by first occurrence |
| Buzzwords.TopPairsMostCommon | backend/app.py:113 | the first `limit` ranked entries are `most_common(limit)`: exact counts, distinct keys, count order with first-occurrence ties, and every omitted word is outranked by all listed ones |
| Buzzwords.ExtractBuzzwords | backend/app.py:102-113 | at most `limit` entries (none when `limit <= 0`), every key a lower-case non-stop-word of four or more ASCII letters with a positive count, and the entries are `most_common(limit)` of the filtered tokens |
| Buzzwords.ExtractBuzzwordsDefault | backend/app.py:109 | with the default `limit` of 20, which the `/buzzwords` route uses, the result is `most_common(20)` of the filtered tokens and has at most 20 entries |
| Search.OrganicHead | backend/app.py:91-92 | `result["organic"][:n]`: a dict without `organic` gives no items; a list under `organic` gives its first n items, or all of them when there are fewer; a string there also slices and any other value raises; a non-dict body gives no items only when `"organic" in body` is false, and raises otherwise; never more than n items |
| Search.LinksOfErrIff | backend/app.py:92-98 | the link loop `Search.LinksOf` raises exactly when some item makes `"link" in item` or `item["link"]` raise |
| Search.LinksOfSelects | backend/app.py:90-95 | when `Search.LinksOf` succeeds it returns the links of exactly the items that carry one, at increasing item positions |
| Search.FetchNewsLinks | backend/app.py:78-98 | at most five URLs come back |
| Search.FetchNewsLinksSpec | backend/app.py:90-98 | the URLs are the links of the first five organic items in order when none raises, and `[]` otherwise |
| Search.FetchNewsLinksNeedsList | backend/app.py:91-94 | only a dict body whose `organic` entry is a list can yield URLs |
| Search.SearchBasisEmptyIff | backend/app.py:313-314 | `Search.SearchBasis`, the stripped join of the non-empty query terms, is empty exactly when every term is empty or whitespace, and a non-zero age always makes it non-empty |
| Search.TrendOf | backend/app.py:340-349 | a trend takes its item's title and scores `100 - 10 * idx` |
| Search.CollectTrendsSpec | backend/app.py:330-349 | the trend loop `Search.CollectTrends` raises exactly when some item is not a dict or has a truthy unhashable title; otherwise its trends have truthy distinct titles, each from the first item carrying it and scored by that item's position, in strictly decreasing score order, and no unseen truthy title is missed |
| Search.GetTrendsSpec | backend/app.py:309-357 | `/trends` (`Search.GetTrends`) answers 400 exactly when the search basis is empty, whatever the search service would say; a failed search gives 500; a trend list names the basis and holds at most ten trends with truthy distinct titles and scores in 10..100, strictly decreasing |
| NewsSummary.SummaryInputShape | backend/app.py:177-184 | the summarizer input `NewsSummary.SummaryInput` always ends with the article text; it is the text unchanged exactly when prompt, age, gender and location are all falsy, and otherwise follows the context line and `:\n\n` |
| NewsSummary.ContextShape | backend/app.py:178-183 | the context line `NewsSummary.Context` opens with `Summarize this article`, a truthy prompt follows directly after ` with a focus on `, and with an audience field set it ends in the location or `an unspecified location` |
| NewsSummary.Truncate | backend/app.py:187 | `text[:1024]` is the whole text when it has at most 1024 characters, and otherwise exactly its first 1024 characters |
| NewsSummary.SummaryFor | backend/app.py:168-191 | a failed fetch yields `Failed to summarize {url}: {msg}`; a fetched article is skipped exactly when its stripped text is under 100 characters; otherwise the summary or the failure message for the truncated input |
| NewsSummary.SummariesSpec | backend/app.py:166-191 | the loop `NewsSummary.Summaries` gives one summary per URL that is not skipped, in URL order, each from that URL's own download, so a URL listed twice is fetched twice |
| NewsSummary.NewsSummary | backend/app.py:162-193 | the reply echoes the topic and lists the URLs as sources |
| Topics.AddTopic | blind-spot/src/pages/Dashboard.tsx:98-103 | a blank input or one already listed changes nothing; otherwise the input is appended as typed, earlier entries stay, and the field is cleared |
| Topics.RemoveSpec | blind-spot/src/pages/Dashboard.tsx:105-107 | removal (`Topics.Remove`) drops every equal entry, keeps every occurrence of the others in order, and is a no-op for an absent topic |
| Topics.AppendNoDuplicates | blind-spot/src/pages/Dashboard.tsx:99-100 | appending a value not yet listed keeps the list duplicate-free |
| Topics.FilterNoDuplicates | blind-spot/src/pages/Profile.tsx:71-73 | removing entries keeps the list duplicate-free |
| Topics.TopicStepNoDuplicates | blind-spot/src/pages/Dashboard.tsx:98-107 | typing, adding and removing, the actions of `Topics.TopicStep`, each keep the topic list duplicate-free |
| Topics.TopicRunNoDuplicates | blind-spot/src/pages/Dashboard.tsx:98-107 | any sequence of those actions keeps the topic list duplicate-free |
| Topics.DashboardTopicsDistinct | blind-spot/src/pages/Dashboard.tsx:20 | from the initial `['Technology', 'Books']`, every reachable topic list is duplicate-free |
| Topics.AddInterestAsWritten | blind-spot/src/pages/Profile.tsx:64-69 | as written: blank input or raw input already listed changes nothing; otherwise the trimmed input is appended and the field cleared |
| Topics.AddInterestAsWrittenDuplicates | blind-spot/src/pages/Profile.tsx:65-66 | with `AI` listed, adding ` AI` lists `AI` twice, breaking the keyed rendering's assumption |
| Topics.AddInterest | blind-spot/src/pages/Profile.tsx:64-69 | corrected: a blank input or one whose trimmed form is listed changes nothing; otherwise the trimmed input is appended and the field cleared |
| Topics.StripIdempotent | blind-spot/src/pages/Profile.tsx:66 | trimming an already trimmed value changes nothing |
| Topics.AppendTrimmed | blind-spot/src/pages/Profile.tsx:66 | appending a trimmed non-empty value keeps every entry trimmed and non-empty |
| Topics.RemoveTrimmed | blind-spot/src/pages/Profile.tsx:71-73 | removing entries keeps every remaining entry trimmed and non-empty |
| Topics.InterestStepInvariant | blind-spot/src/pages/Profile.tsx:64-73 | with the corrected add, each action of `Topics.InterestStep` keeps the interests duplicate-free, non-empty and trimmed |
| Topics.InterestRunInvariant | blind-spot/src/pages/Profile.tsx:64-73 | any sequence of those actions keeps that invariant |
| Topics.ProfileInterestsClean | blind-spot/src/pages/Profile.tsx:64-73 | with the corrected `addInterest` (`Topics.AddInterest`), every interest list reachable from the initial empty list is distinct and trimmed, so the keyed rendering at Profile.tsx lines 240-242 holds; the handler as written does not keep this (see Findings) |
| Auth.ToRecord | blind-spot/src/pages/Dashboard.tsx:49-53 | the stored record has the user's id, the email or `''`, and the metadata or `{}` |
| Auth.PageProbe | blind-spot/src/pages/Dashboard.tsx:44-58 | the mount probe never clears the user: a session user replaces it, a missing user or a throw leaves it |
| Auth.PageEvent | blind-spot/src/pages/Dashboard.tsx:65-75 | whatever the event, a session user becomes the record and anything else clears the state |
| Auth.PageSignOut | blind-spot/src/pages/Profile.tsx:75-83 | only a resolved sign-out clears the user and goes to `/`; a throw leaves the user and does not navigate |
| Auth.SignOutUser | blind-spot/src/pages/components/Chat.tsx:66-73 | Chat's `handleSignOut` clears the user only when sign-out resolves, and a rejected sign-out leaves it as it was. Dashboard's `handleLogout` (Dashboard.tsx lines 82-85) behaves the same but nothing calls it; the Logout button (line 179) is wired to `handleSignOut` (lines 109-117), which `Auth.PageSignOut` models |
| Auth.PageUserProvenance | blind-spot/src/pages/Profile.tsx:28-57 | after any inputs to `Auth.PageStep` (mount probe, auth event, sign-out), the page's user is empty, the initial one, or the record of a session user some input delivered |
| Auth.ChatProbe | blind-spot/src/pages/components/Chat.tsx:12-31 | no session or a throw clears the user; an error or missing user from `getUser` clears it; otherwise it is exactly the fetched user |
| Auth.ChatProbeSkipsGetUser | blind-spot/src/pages/components/Chat.tsx:14-18 | without a session the outcome does not depend on `getUser` |
| Auth.ChatEvent | blind-spot/src/pages/components/Chat.tsx:36-42 | an event sets the session user, or clears the state |
| Auth.ChatSignIn | blind-spot/src/pages/components/Chat.tsx:49-64 | `isLoading` is raised first and false at the end on every outcome; an error is logged exactly when sign-in did not succeed |
| Auth.EventsAgree | blind-spot/src/pages/components/Chat.tsx:36-42 | after at least one event, Dashboard's user is the record of Chat's user, determined by the last event alone |
| Auth.ProbeDisagreement | blind-spot/src/pages/components/Chat.tsx:27-30 | a throwing probe keeps the Dashboard's user but clears Chat's |
| Auth.CheckSession | blind-spot/src/pages/components/BlindSpot.tsx:11-16 | navigation to `/Dashboard` happens exactly when the probed session has a user |
| Auth.BlindSpotEvent | blind-spot/src/pages/components/BlindSpot.tsx:21-25 | an event navigates to `/Dashboard` exactly when it is `SIGNED_IN` with a session user |
| Auth.BlindSpotSignIn | blind-spot/src/pages/components/BlindSpot.tsx:32-47 | sign-in changes no state; a line is logged exactly when it fails |
| Auth.NavigationImpliesUser | blind-spot/src/pages/components/BlindSpot.tsx:21-25 | a BlindSpot navigation on an event always coincides with the Dashboard holding a user, and non-`SIGNED_IN` events never navigate even with a user |
| Dropdown.HandleMouseDown | blind-spot/src/pages/Dashboard.tsx:87-91 | a press closes the dropdown only when it lands outside a non-null region; otherwise nothing changes |
| Dropdown.Toggle | blind-spot/src/pages/Dashboard.tsx:149 | the avatar button flips the open flag |
| Dropdown.AvatarClickToggles | blind-spot/src/pages/Dashboard.tsx:140-149 | a click on the avatar, pressed inside the region, toggles the dropdown |
| Dropdown.RunParity | blind-spot/src/pages/Dashboard.tsx:87-96 | after any events fed to `Dropdown.Step` the dropdown is open exactly when its state at the last outside press (closed) or at the start was flipped an odd number of times by avatar toggles since |
| Callback.Handle | blind-spot/src/pages/api/auth/callback.ts:5-32 | a non-string code redirects to the invalid-callback target without an exchange; a single code is the one exchanged |
| Callback.HandleSpec | blind-spot/src/pages/api/auth/callback.ts:10-32 | every path through the handler's own response calls sets exactly one `Location`, then status 302, and ends; the target is `/` exactly for a single code whose exchange succeeded, and each failure kind has its own target |
| Callback.LocationsDistinct | blind-spot/src/pages/api/auth/callback.ts:12-30 | the four redirect targets are pairwise different |
| ProfileForm.UpsertRow | blind-spot/src/pages/Profile.tsx:101-108 | the row's id is present exactly when a user is signed in and is that user's id |
| ProfileForm.UpsertRowRoundTrip | blind-spot/src/pages/Profile.tsx:103-108 | the row passes name, age category and interests through unchanged |
| ProfileForm.Submit | blind-spot/src/pages/Profile.tsx:89-118 | submitting never changes the form and sends the form with the user's id; it logs `Submitting Profile:` and then exactly one line naming the outcome: saved, upsert error or throw |
| ProfileForm.SubmitLogIdentifiesOutcome | blind-spot/src/pages/Profile.tsx:110-116 | the two logged lines tell the three upsert outcomes apart, while the row sent is the same whatever the outcome |

## Left out

- The HTTPS request to the search service, newspaper `Article` download and parsing, the Playwright fallback (`fetch_fallback_text`) and the summarization pipeline are not modelled. These are network I/O and foreign ML calls. Their results are inputs: `Search.Response`, `NewsSummary.ArticleResult` and `NewsSummary.SummarizerResult`.
- The TF-IDF and FAISS nearest-neighbour selection (backend/app.py:503-517) is not modelled. It is floating-point numerics over external libraries.
- The first `clean_article_text` (backend/app.py:62-75), both `summarize_article` definitions and the commented-out routes are not modelled. The first two are rebound or only feed the network pipeline.
- The `/buzzwords` route (backend/app.py:197-238) and `/debate-news-summary` are not modelled. They are network pipelines around the modelled functions.
- The Supabase client and server factories are not modelled (blind-spot/src/lib/superbase). They are thin wrappers over the SDK.
- The two `route.ts` callbacks are not modelled. They redirect to `/` whatever happens.
- Static pages, the layout, dark-mode persistence, router mechanics and rendering are not modelled. They are presentation.
- React effect scheduling and asynchronous interleavings are not modelled. Every handler is one atomic transition.
- A profile-completeness verdict, an onboarding gate and supersession of stale profile reads are not modelled. No source file implements them.
- Whitespace is the six ASCII whitespace characters. Lower-casing and regex word characters are ASCII only. Non-ASCII whitespace, case mapping and Unicode word characters are not modelled.
- Text.Strip: Python's `str.strip` also removes the ASCII separators `\x1c` to `\x1f`, which JavaScript's `trim` keeps. The model treats them as non-whitespace in both languages, so for the backend it is weaker for text containing them.
- Search.GetTrends: the 500 answer carries `{"error": str(e)}` (backend/app.py lines 355-356). The model's `ServerError` carries no message, because exception texts are not modelled.
- Callback.HandleSpec: covers the calls the handler itself makes on the response. `createClient(req, res)` (callback.ts line 6) runs before the `try`, so a throw there escapes the handler; that path is not modelled. The `Set-Cookie` headers the client's cookie adapter writes during the exchange are not modelled either.
- JSON numbers are integers. Python's equality of `True` with `1` in `seen_titles` is not modelled.
- NewsSummary.NewsSummary: takes the URLs as strings. A non-string `link` value in the search result would reach `Article(url)` and end in the failure message. That case is not modelled.
- NewsSummary.SummaryFor: exception messages are opaque input strings; how Python renders them with `str(ex)` is not modelled.
- ProfileForm.Submit: the logged objects (the profile data, the upsert data and the error) and the choice between `console.log` and `console.error` are not modelled; only the line prefixes are.
- Auth.BlindSpotSignIn: for a throw, the logged line is the fixed prefix only. The logged error object is not modelled.
- Auth.ToRecord: user metadata is reduced to the full name and avatar URL the pages read.

## Findings

| source | as written | input that shows it | evidently intended | confidence | as-written member | corrected member |
|---|---|---|---|---|---|---|
| blind-spot/src/pages/Profile.tsx:65-66 | `addInterest` tests `interests.includes(inputInterest)` on the raw input but appends `inputInterest.trim()` | interests `["AI"]`, input `" AI"`, press Add: interests become `["AI", "AI"]`, and the list is rendered with `key={interest}` | test membership of the trimmed value, so the interests stay duplicate-free, non-empty and trimmed | not executed; high | Topics.AddInterestAsWrittenDuplicates | Topics.InterestRunInvariant |
