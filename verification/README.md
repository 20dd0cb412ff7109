# AI Daily Pulse — a Dafny model

AI Daily Pulse is a browser application that asks a generative-AI backend,
with Google Search grounding, for the day's most significant AI news. It
normalises the backend's JSON reply into scored articles and shows them as a
feed. A signed-in user can archive articles into a personal repository and
keep their own topic and source lists. Accounts, the session, repositories
and settings all live in the browser's key-value storage.

This project models the application's logic as pure Dafny functions over
immutable datatypes:

- **Fetch pipeline** (`services/geminiService.ts`):
  - the bounded retry wrapper with exponential backoff (`retry.dfy`);
  - extraction of the fenced JSON block from the reply (`extract.dfy`);
  - normalisation of each returned item (`normalize.dfy`);
  - the stable sort by score (`scoresort.dfy`);
  - the whole `fetchAiNews`, including its error-message mapping (`gemini.dfy`).
- **Storage service** (`services/storageService.ts`, `storage.dfy`): keys, registration, login, logout, the session, the per-user repository and the per-user settings.
- **Sidebar edits** (`components/Sidebar.tsx`, `sidebar.dfy`): toggle a topic, add a topic, change the view.
- **Screen handlers** (`App.tsx`, `app.dfy`): login, logout, settings updates, fetching, archiving, dismissing, removing from the repository, and adding or removing a source. These handlers keep the screen in step with the storage.

Shared pieces:

| file | contents |
|---|---|
| `wrappers.dfy` | `Option` and `Result` |
| `text.dfy` | substring search and `String.prototype.trim` |
| `js.dfy` | a JSON value type, JavaScript truthiness and `||`, and error objects |
| `seqs.dfy` | `filter`, `find`, and a `map` whose callback may throw |
| `model.dfy` | the records and their defaults |

Everything the program cannot compute by itself is a parameter:

- the backend's reply to attempt *i*, which either returns text or throws;
- `JSON.parse`;
- `new URL(...).hostname`, which may throw;
- `btoa`, which may throw;
- the random ids;
- the clock.

The model performs no real waiting: it returns the list of delays the wrapper would wait.

Where the code disagrees with the intent stated in its own comments and types, the model follows the code:

- **Scores are not clamped.** `types.ts:5` calls the score a "0-100 importance score", but the code copies any numeric score unchanged (`Normalize.ScoreNotClamped`).
- **Only some server errors are retried.** The comment at `services/geminiService.ts:25` calls "Server errors (5xx)" retryable, but the code retries only messages containing 500, 502, 503 or Overloaded, and not 504 (`Retry.GatewayTimeoutIsNotRetryable`).
- **Article text fields are not coerced.** `types.ts` types them as strings, but the code keeps whatever truthy JSON value the backend sent. For example, `title` may be a number. The model keeps them as `Json`.

## Model

| member | source | states |
|---|---|---|
| Retry.RetryWithBackoff | services/geminiService.ts:11-41 | never more calls than `retries`; with no allowed call it rejects with the undefined `lastError` and no wait |
| Retry.RetryFrom | services/geminiService.ts:18-39 | from iteration `i` the loop makes between `i` and `retries` calls, never more waits than calls; no call means the last error is thrown |
| Retry.RetryFromWaitCount | services/geminiService.ts:18-39 | the loop waits exactly once fewer than it calls |
| Retry.RetryFromWaits | services/geminiService.ts:33-37 | the waits are `baseDelay·2^i`, `baseDelay·2^(i+1)`, … in order |
| Retry.RetryFromOutcome | services/geminiService.ts:18-40 | every call before the last failed retryably; the last call's value or non-retryable error is the result; otherwise all calls were made and the last error is thrown |
| Retry.RetrySpec | services/geminiService.ts:11-41 | with `IsRetryable` deciding retries: at most `retries` calls, the first returned value ends the loop, waits only between calls, last error rethrown after `retries` retryable failures |
| Retry.FirstSuccessIsReturned | services/geminiService.ts:18-20 | a first call that returns is the only call and its value is the result, with no wait |
| Retry.NonRetryableRethrownAtOnce | services/geminiService.ts:23-31 | an error without a network or server marker is rethrown after one call and no wait |
| Retry.ThreeRetryableFailures | services/geminiService.ts:33-40 | three retryable failures give waits 1000 and 2000 and the third error |
| Retry.ServiceUnavailableIsRetryable | services/geminiService.ts:27 | an error "503" is retryable |
| Retry.GatewayTimeoutIsNotRetryable | services/geminiService.ts:26-27 | an error "504" is not retryable |
| Retry.TwoServerErrorsThenValue | services/geminiService.ts:18-37 | two 503 failures then a value: the value, after waits 1000 and 2000 and three calls |
| Retry.BadRequestFailsAtOnce | services/geminiService.ts:29-31 | a 400 failure is rethrown after one call and no wait |
| Text.Trim | services/geminiService.ts:124 | the result is a slice of the input cut only at whitespace and neither starts nor ends with whitespace |
| Text.TrimIdempotent | services/geminiService.ts:124 | trimming twice is trimming once |
| Extract.CloseFrom | services/geminiService.ts:125 | the first closing fence at or after a position, or none exactly when there is none |
| Extract.MatchFrom | services/geminiService.ts:125 | the leftmost opener from a position that has a closing fence after it, with the first such fence |
| Extract.FirstBlock | services/geminiService.ts:125-132 | no block exactly when no opener has a closing fence after it; otherwise the text between the leftmost such opener and the first fence after it |
| Extract.ExtractJsonText | services/geminiService.ts:124-133 | the trimmed reply's first ```` ```json ```` block, else its first ```` ``` ```` block, else the whole trimmed reply |
| Extract.FirstMatchExists | services/geminiService.ts:125 | if any opener has a closing fence after it, a leftmost match exists |
| Extract.SingleJsonBlock | services/geminiService.ts:124-127 | a trimmed reply whose only backticks are one ```` ```json ```` block yields that block's body |
| Extract.ProseAroundJsonBlock | services/geminiService.ts:124-127 | prose without backticks around one json block yields the block's body |
| Extract.NoFenceMeansTrimmed | services/geminiService.ts:124-133 | a reply without backticks yields the trimmed reply |
| Extract.PrefixSuffixExample | services/geminiService.ts:124-127 | `prefix ```json\n[{"title":"T"}]\n``` suffix` yields `\n[{"title":"T"}]\n` |
| Normalize.SourceUri | services/geminiService.ts:152-155 | a kept entry's URI is a non-empty string |
| Normalize.KeptSources | services/geminiService.ts:146-152 | every kept entry is truthy with a truthy string `uri` |
| Normalize.KeptSourcesInOrder | services/geminiService.ts:146-152 | a non-array `sources` keeps nothing; otherwise exactly the passing entries are kept, in their original order |
| Normalize.CleanSources | services/geminiService.ts:151-156 | one cleaned source per kept entry |
| Normalize.CleanSourcesSpec | services/geminiService.ts:151-156 | each cleaned source has its entry's URI, and its title, or the URI's host name when the title is falsy |
| Normalize.TitledSourcesNeverThrow | services/geminiService.ts:153-156 | when every kept entry has a truthy title, no URL is parsed and the item cannot fail |
| Normalize.NormalizeItem | services/geminiService.ts:144-168 | a null item throws the engine's TypeError; an article always carries the given id and the requested date |
| Normalize.NormalizeItemFields | services/geminiService.ts:158-167 | numeric score kept, else 50; array tags kept, else none; falsy title, summary and reason replaced by their fallbacks; the item fails exactly when a URL fails |
| Normalize.NormalizeAll | services/geminiService.ts:144-168 | one article per element on success |
| Normalize.NormalizeAllSpec | services/geminiService.ts:144-168 | success exactly when every element normalises; the k-th article is the k-th element's, with id k and the requested date; otherwise the first failing element's error |
| Normalize.NormalizedDates | services/geminiService.ts:163 | every normalised article carries the requested date |
| Normalize.TitleOnlyElement | services/geminiService.ts:158-167 | `{"title":"T"}` becomes an article with the fallbacks, score 50, and no sources or tags |
| Normalize.ScoreNotClamped | services/geminiService.ts:162 | scores 150 and -3 are kept as they are |
| Normalize.StringScoreDefaults | services/geminiService.ts:162 | a string score "90" becomes 50 |
| ScoreSort.Insert | services/geminiService.ts:170 | one more element, the same elements plus the inserted one |
| ScoreSort.SortByScore | services/geminiService.ts:170 | same length and same articles as the input |
| ScoreSort.InsertSorted | services/geminiService.ts:170 | inserting into a sorted list keeps it sorted |
| ScoreSort.InsertTies | services/geminiService.ts:170 | insertion puts the new article first among its equal scores |
| ScoreSort.SortSorted | services/geminiService.ts:170 | the result is non-increasing by score |
| ScoreSort.SortTiesAt | services/geminiService.ts:170 | articles of one score keep their original relative order |
| ScoreSort.SortSpec | services/geminiService.ts:170 | non-increasing, a permutation of the input, every tie group in input order |
| ScoreSort.StableSortIsUnique | services/geminiService.ts:170 | any non-increasing list with the input's tie groups in input order is the sort's result |
| ScoreSort.SortedTiesUnique | services/geminiService.ts:170 | two non-increasing lists with the same tie groups are equal |
| ScoreSort.HeadIsMax | services/geminiService.ts:170 | the first article of a sorted list has the highest score |
| Gemini.Surface | services/geminiService.ts:172-199 | the thrown message is one of the three fixed messages or starts with "Gemini API Failed: ", and is never empty |
| Gemini.SurfaceDecodes | services/geminiService.ts:175-198 | `Classify` and `Surface`: from the thrown message one recovers the error's class, and for an unclassified error the original message |
| Gemini.NetworkWins | services/geminiService.ts:178-184 | a network marker yields the network message whatever other markers the message holds |
| Gemini.NoMarkerIsWrapped | services/geminiService.ts:198 | a message lacking a character of every marker is prefixed with "Gemini API Failed: " |
| Gemini.Excluded | services/geminiService.ts:59-61 | at most 50 titles, a prefix of the titles, empty exactly when there are no titles |
| Gemini.FetchAiNews | services/geminiService.ts:43-199 | a missing key throws its own message with no call; otherwise the prompt carries date, topics, sources and exclusions, 1 to 3 calls with the backoff waits, calls, waits and result are those of the retried backend call: a thrown error is surfaced through the catch block's mapping, and a success is the reply's parsed array normalised and stably sorted by score, every article dated with the request's date |
| Gemini.SuccessfulFetch | services/geminiService.ts:137-170 | `Conclude` and `ProcessReply`: a success means the reply parsed to an array whose every element normalised, and the articles are those, one per element, stably sorted by score |
| Gemini.UnparseableReply | services/geminiService.ts:135-141 | through `ProcessReply` and `Conclude`: an unparseable first reply gives "Gemini API Failed: AI response was not valid JSON. Please try again." after one call |
| Gemini.EmptyReply | services/geminiService.ts:117-121 | an empty first reply gives "Gemini API Failed: No text content returned from the model." |
| Gemini.OfflineFetch | services/geminiService.ts:106-115 | three "Failed to fetch" errors give the network message after waits 1000 and 2000 |
| Seqs.Filter | services/storageService.ts:87 | no longer than the input; exactly the elements that pass; the input itself when all pass |
| Seqs.FilterKeepsOrder | services/storageService.ts:87 | the result is the passing elements at increasing positions of the input |
| Seqs.Find | services/storageService.ts:60 | none exactly when no element passes; otherwise the first passing element |
| Seqs.MapSpec | services/geminiService.ts:144 | a mapping succeeds exactly when every call does, element by element; otherwise it fails with the first failing call's error |
| Model.WithoutId | App.tsx:105 | no remaining article has the id |
| Model.WithoutIdKeepsOrder | App.tsx:112 | exactly the articles with other ids remain, in their order |
| Storage.KeysDistinct | services/storageService.ts:3-8 | repository and settings keys never collide with each other or with the two global keys, and each is injective in the user id |
| Storage.RegisterUser | services/storageService.ts:21-37 | a taken username fails with "Username already exists"; otherwise one account with the `btoa` hash is appended and only the account list changes; usernames stay unique |
| Storage.FindLoginSpec | services/storageService.ts:41 | `btoa` throws out of the search only when some account has the username; otherwise the first matching account is found |
| Storage.LoginSpec | services/storageService.ts:39-50 | `LoginUser`: login succeeds exactly when an account matches, returns the first match, and sets only the session key |
| Storage.LoginStartsSession | services/storageService.ts:48-61 | after login the session user is the logged-in account, when ids are unique and non-empty |
| Storage.RegisterThenLogin | services/storageService.ts:21-50 | a new account logs in with its password and is the account returned |
| Storage.LogoutUser | services/storageService.ts:52-54 | the session key is gone and every other key keeps its value |
| Storage.LogoutEndsSession | services/storageService.ts:52-61 | after logout there is no session user, and the accounts are unchanged |
| Storage.SessionSpec | services/storageService.ts:56-61 | `SessionUser`: a session user exists exactly when a non-empty id is remembered and an account has it; it is the first such account |
| Storage.SaveToRepository | services/storageService.ts:75-83 | a known id leaves list and storage as they were; otherwise the article is prepended and written; ids stay unique |
| Storage.RemoveFromRepository | services/storageService.ts:85-90 | every article with the id is gone, the others remain, the list is written back, an absent id changes nothing |
| Storage.SaveIdempotent | services/storageService.ts:75-83 | saving an article twice is saving it once |
| Storage.SaveThenRemove | services/storageService.ts:75-90 | removing a just-saved new article restores the earlier repository |
| Storage.SaveSettings | services/storageService.ts:92-107 | reading a user's settings after saving them gives them back |
| Storage.MissingDataDefaults | services/storageService.ts:12-73 | `AllUsers` and `Repository`: no stored data means no accounts and an empty repository |
| Storage.NewUserDefaults | services/storageService.ts:92-103 | `Settings`: a user without saved settings gets the default topics and sources |
| Storage.SaveSettingsIsolated | services/storageService.ts:105-107 | saving settings changes no other user's settings, no repository, no account and not the session |
| Storage.RepoWriteIsolated | services/storageService.ts:7-8 | writing one repository key changes no other user's repository, no settings, no account and not the session |
| Storage.SaveToRepositoryIsolated | services/storageService.ts:75-83 | saving to one repository changes no other data |
| Storage.RemoveFromRepositoryIsolated | services/storageService.ts:85-90 | removing from one repository changes no other data |
| Sidebar.ToggleTopic | components/Sidebar.tsx:28-37 | an active topic is dropped entirely, the others remain; an inactive one is appended; sources unchanged |
| Sidebar.ToggleOffKeepsOrder | components/Sidebar.tsx:32 | dropping a topic keeps the others in their order |
| Sidebar.ToggleTwiceRestores | components/Sidebar.tsx:28-36 | toggling an inactive topic twice restores the settings |
| Sidebar.ToggleKeepsDistinct | components/Sidebar.tsx:28-36 | toggling keeps the active topics free of duplicates |
| Sidebar.AddTopic | components/Sidebar.tsx:39-44 | empty or active text changes nothing and keeps the text; otherwise the topic is appended and the box cleared; sources unchanged |
| Sidebar.AddKeepsDistinct | components/Sidebar.tsx:39-44 | adding keeps the active topics free of duplicates |
| Sidebar.HandleViewChange | components/Sidebar.tsx:46-49 | the requested page is shown and the mobile menu closed |
| App.LoginSuccess | App.tsx:40-53 | the user's saved repository and settings are shown, the feed and error cleared, the storage untouched |
| App.Restore | App.tsx:30-36 | a remembered session user is logged in on mount; otherwise nothing changes |
| App.Logout | App.tsx:55-63 | the session ends; user, repository and feed are cleared; the settings stay |
| App.UpdateSettings | App.tsx:65-69 | without a user nothing changes; otherwise the settings are shown and saved |
| App.FetchNewsSpec | App.tsx:71-96 | `FetchNews`: the request uses the date, active topics, sources and repository titles; success replaces the feed; failure keeps the feed and shows the fetch's own message; loading ends |
| App.RepositoryTitles | App.tsx:75 | the titles of the repository, in order |
| App.Archive | App.tsx:98-107 | without a user nothing changes; otherwise the repository is the saved list and the id leaves the feed |
| App.Dismiss | App.tsx:109-114 | every feed entry with the id leaves, the others stay; repository and storage untouched |
| App.RemoveFromRepo | App.tsx:116-120 | without a user nothing changes; otherwise the id leaves the repository |
| App.RemoveSource | App.tsx:276-279 | every equal source is dropped and the others remain; topics unchanged |
| App.AddSource | App.tsx:294-310 | non-empty text is appended, duplicates included, and the box cleared; empty text changes nothing |
| App.SidebarToggle | App.tsx:328 | a toggled topic list reaches the settings through the update handler |
| App.SidebarAddTopic | App.tsx:323-331 | an add that is refused changes nothing and keeps the text; an accepted add clears the box and goes through the settings update handler, so with a user the topic is appended and saved |
| App.ViewChange | App.tsx:326-331 | only the navigation changes: the page is shown and the menu closed |
| App.HandlersKeepSync | App.tsx:40-120 | every handler keeps the screen's repository and settings equal to the signed-in user's stored ones |
| App.ArchiveThenRemove | App.tsx:98-120 | archiving a new article and removing it restores the repository |

## Left out

- Rendering is left out: React components, JSX, CSS, the mobile menu overlay, `components/NewsCard.tsx` and `components/AuthScreen.tsx`. They only display state or forward form fields.
- `vite.config.ts` is left out. It is build configuration.
- The prompt's natural-language wording is left out. Only the values the prompt carries are modelled, in `Gemini.Request`.
- Console logging is left out.
- Real time, `setTimeout` and async scheduling are left out. Waits are returned as a list of delays.
- Overlapping fetches are left out. A fetch is one transition from the click to the settled request.
- The SDK call, `JSON.parse`, URL parsing, `btoa`, `Math.random` and the clock are parameters. `JSON.stringify` is not modelled: the exclusion list is carried as JSON values in `Gemini.Request`, and the model assumes that `JSON.stringify` followed by `JSON.parse` returns the stored value.
- Storage quota errors are left out.
- A stored value that parses to JSON of the wrong shape (for example `null` or `{}`) reads as missing data. The code would return it, and a later `.some`, `.find`, `.filter` or `.activeTopics` read would throw. Unparseable text falls back to the defaults in both.
- JavaScript numbers are modelled as reals. NaN is left out. So are infinite scores: `JSON.parse` reads an overflowing number such as `1e400` as `Infinity`, which passes the number test and sorts first, and `JSON.stringify` would then store it as `null`, so such an article would not come back from the repository unchanged.
- Error objects carry a name and a message, and `message || toString()` is read as the message, or the name when the message is empty. Thrown values that are not errors are left out.
- The engine's error wording is taken from V8 for four errors: reading `sources` of a null item, reading `map` of a null parse result, `parsedData.map is not a function` for a parsed value that is not an array, and reading `message` of `undefined` when the retry wrapper throws its never-set `lastError`. The third names the source's own identifier, so a minified build would word it differently.
- Storage.LoginStartsSession: requires unique account ids, because the code does not enforce them. Ids come from `Math.random`.
- Gemini.NoMarkerIsWrapped: covers messages without marker characters only. Arbitrary messages are covered by Gemini.SurfaceDecodes.
- App.FetchNewsSpec: clicking "Refresh" while a fetch is pending is not modelled.
