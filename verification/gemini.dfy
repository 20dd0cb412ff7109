/**
 * `fetchAiNews` (services/geminiService.ts): the news fetch pipeline. The
 * remote model, `JSON.parse`, the URL parser and the id generator are the
 * oracles of a `Backend`; the prompt's wording is not modelled, only the
 * values it carries.
 */
module Gemini {
  import opened Wrappers
  import opened Text
  import opened Js
  import opened Model
  import opened Retry
  import opened Extract
  import opened Normalize
  import opened ScoreSort

  const MISSING_KEY_MESSAGE: string := "API Key is missing. Please check your deployment settings."
  // The long messages are written in short pieces so that the verifier can read their first characters.
  const NETWORK_MESSAGE: string :=
    "Network Error: " + "Could not connect to Google Gemini API.\n"
    + "This is often caused by unstable internet or network restrictions (e.g., firewall/VPN issues).\n"
    + "Please checks your connection and try again."
  const ACCESS_DENIED_MESSAGE: string :=
    "Access Denied (403): " + "Your API Key is valid, but the project likely lacks a linked Billing Account. "
    + "Google Search Grounding features require a billing-enabled project."
  const INVALID_KEY_MESSAGE: string := "Invalid API Key. " + "Please check your Vercel/Environment settings."
  const FAILED_PREFIX: string := "Gemini API Failed: "
  const NO_TEXT_MESSAGE: string := "No text content " + "returned from the model."
  const NOT_JSON_MESSAGE: string := "AI response " + "was not " + "valid JSON. " + "Please " + "try again."
  /** The engine's errors for `parsedData.map` on a parsed value that is not an array. */
  const NULL_MAP_MESSAGE: string := "Cannot read properties of null (reading 'map')"
  const NOT_ARRAY_MESSAGE: string := "parsedData.map is not a function"
  /** The engine's error for `error.message` when `undefined` was thrown. */
  const UNDEFINED_MESSAGE_READ: string := "Cannot read properties of undefined (reading 'message')"

  /** At most this many titles are sent in the exclusion list. */
  const MAX_EXCLUDED: nat := 50

  /** The class of a failure, decided on its message in priority order. */
  datatype ErrorKind = NetworkFailure | AccessDenied | InvalidKey | Unclassified

  function Classify(message: string): ErrorKind
  {
    if Contains(message, "Failed to fetch") || Contains(message, "NetworkError") then NetworkFailure
    else if Contains(message, "403") || Contains(message, "PERMISSION_DENIED") || Contains(message, "entitlements") then AccessDenied
    else if Contains(message, "API_KEY_INVALID") || Contains(message, "400") then InvalidKey
    else Unclassified
  }

  /** A message `fetchAiNews` can throw from inside its `try`. */
  predicate IsSurfaced(message: string)
  {
    || message == NETWORK_MESSAGE || message == ACCESS_DENIED_MESSAGE || message == INVALID_KEY_MESSAGE
    || (|FAILED_PREFIX| <= |message| && message[..|FAILED_PREFIX|] == FAILED_PREFIX)
  }

  /** The message `fetchAiNews` throws for a failure inside its `try`. */
  function Surface(message: string): (r: string)
    ensures IsSurfaced(r) && r != []
  {
    assert (FAILED_PREFIX + message)[..|FAILED_PREFIX|] == FAILED_PREFIX;
    match Classify(message)
    case NetworkFailure => NETWORK_MESSAGE
    case AccessDenied => ACCESS_DENIED_MESSAGE
    case InvalidKey => INVALID_KEY_MESSAGE
    case Unclassified => FAILED_PREFIX + message
  }

  /** Reading a surfaced message back: its class, and the original message for an unclassified one. */
  function Decode(shown: string): Option<(ErrorKind, string)>
  {
    if shown == NETWORK_MESSAGE then Some((NetworkFailure, ""))
    else if shown == ACCESS_DENIED_MESSAGE then Some((AccessDenied, ""))
    else if shown == INVALID_KEY_MESSAGE then Some((InvalidKey, ""))
    else if |FAILED_PREFIX| <= |shown| && shown[..|FAILED_PREFIX|] == FAILED_PREFIX then
      Some((Unclassified, shown[|FAILED_PREFIX|..]))
    else None
  }

  /**
   * No information is lost by the mapping beyond the class: the message
   * the user sees tells the class, and for an unclassified failure the
   * original message too.
   */
  lemma SurfaceDecodes(message: string)
    ensures Decode(Surface(message)) ==
      Some((Classify(message), if Classify(message) == Unclassified then message else ""))
  {
    assert NETWORK_MESSAGE[..|FAILED_PREFIX|] != FAILED_PREFIX by {
      assert NETWORK_MESSAGE[0] != FAILED_PREFIX[0];
    }
    assert ACCESS_DENIED_MESSAGE[..|FAILED_PREFIX|] != FAILED_PREFIX by {
      assert ACCESS_DENIED_MESSAGE[0] != FAILED_PREFIX[0];
    }
    assert INVALID_KEY_MESSAGE[..|FAILED_PREFIX|] != FAILED_PREFIX by {
      assert INVALID_KEY_MESSAGE[0] != FAILED_PREFIX[0];
    }
    if Classify(message) == Unclassified {
      var shown := FAILED_PREFIX + message;
      assert shown[0] == FAILED_PREFIX[0];
      assert shown != NETWORK_MESSAGE && shown != ACCESS_DENIED_MESSAGE && shown != INVALID_KEY_MESSAGE;
      assert shown[..|FAILED_PREFIX|] == FAILED_PREFIX;
      assert shown[|FAILED_PREFIX|..] == message;
    }
  }

  /** A network marker wins over every other marker in the same message. */
  lemma NetworkWins(message: string)
    requires Contains(message, "Failed to fetch") || Contains(message, "NetworkError")
    ensures Surface(message) == NETWORK_MESSAGE
  {
  }

  /**
   * A message lacking a character of every marker is wrapped with the
   * prefix; `c` is the character of "entitlements" it lacks.
   */
  lemma NoMarkerIsWrapped(message: string, c: char)
    requires 'F' !in message && 'k' !in message && '4' !in message && '_' !in message
    requires c in "entitlements" && c !in message
    ensures Surface(message) == FAILED_PREFIX + message
  {
    MissingCharNotContained(message, "Failed to fetch", 'F');
    MissingCharNotContained(message, "NetworkError", 'k');
    MissingCharNotContained(message, "403", '4');
    MissingCharNotContained(message, "PERMISSION_DENIED", '_');
    MissingCharNotContained(message, "entitlements", c);
    MissingCharNotContained(message, "API_KEY_INVALID", '_');
    MissingCharNotContained(message, "400", '4');
  }

  /** A text lacking one character of `sub` does not contain `sub`. */
  lemma MissingCharNotContained(s: string, sub: string, c: char)
    requires c in sub && c !in s
    ensures !Contains(s, sub)
  {
  }

  /** The oracles the pipeline consults. */
  datatype Backend = Backend(
    call: nat -> Attempt<string>,
    parse: string -> Option<Json>,
    hostname: string -> Result<string, JsError>,
    newId: nat -> string)

  /** The values the prompt carries. */
  datatype Request = Request(date: string, topics: seq<string>, sources: seq<string>, excluded: seq<Json>)

  /** What one call of `fetchAiNews` did: its result, the prompt it built, the waits and the remote calls. */
  datatype FetchRun = FetchRun(result: Result<seq<Article>, string>, request: Option<Request>, waits: seq<nat>, calls: nat)

  /** `existingTitles.slice(0, 50)`; the exclusion sentence is left out when it is empty. */
  function Excluded(titles: seq<Json>): (r: seq<Json>)
    ensures |r| <= MAX_EXCLUDED
    ensures |r| <= |titles| && r == titles[..|r|]
    ensures r == [] <==> titles == []
    ensures |titles| <= MAX_EXCLUDED ==> r == titles
  {
    if |titles| <= MAX_EXCLUDED then titles else titles[..MAX_EXCLUDED]
  }

  /** The part of the `try` after the model replied with `text`. */
  function ProcessReply(text: string, date: string, backend: Backend): Result<seq<Article>, JsError>
  {
    if text == [] then Failure(Error(NO_TEXT_MESSAGE))
    else
      match backend.parse(ExtractJsonText(text))
      case None => Failure(Error(NOT_JSON_MESSAGE))
      case Some(JArr(items)) =>
        (match NormalizeAll(items, date, backend.newId, backend.hostname)
         case Failure(e) => Failure(e)
         case Success(articles) => Success(SortByScore(articles)))
      case Some(JNull) => Failure(TypeError(NULL_MAP_MESSAGE))
      case Some(_) => Failure(TypeError(NOT_ARRAY_MESSAGE))
  }

  /** The message thrown out of `fetchAiNews`, or the sorted articles. */
  function Conclude(outcome: Outcome<string>, date: string, backend: Backend): Result<seq<Article>, string>
  {
    match outcome
    case Rejected(None) => Failure(UNDEFINED_MESSAGE_READ)
    case Rejected(Some(e)) => Failure(Surface(ErrorText(e)))
    case Resolved(text) =>
      match ProcessReply(text, date, backend)
      case Failure(e) => Failure(Surface(ErrorText(e)))
      case Success(articles) => Success(articles)
  }

  /** `fetchAiNews(date, topics, sources, existingTitles)` with `apiKey` the configured key. */
  function FetchAiNews(apiKey: string, date: string, topics: seq<string>, sources: seq<string>, existingTitles: seq<Json>, backend: Backend): (r: FetchRun)
    ensures apiKey == [] ==> r == FetchRun(Failure(MISSING_KEY_MESSAGE), None, [], 0)
    ensures apiKey != [] ==> r.request == Some(Request(date, topics, sources, Excluded(existingTitles)))
    ensures apiKey != [] ==> 1 <= r.calls <= DEFAULT_RETRIES && |r.waits| == r.calls - 1
    ensures forall j | 0 <= j < |r.waits| :: r.waits[j] == Backoff(DEFAULT_BASE_DELAY, j)
    ensures apiKey != [] && r.result.Failure? ==> IsSurfaced(r.result.error)
    ensures r.result.Failure? ==> r.result.error != []
    ensures r.result.Success? ==> SortedByScore(r.result.value)
    ensures r.result.Success? ==> forall a | a in r.result.value :: a.date == date
    // The remote calls, the waits and the result are those of the retried call to the backend.
    ensures apiKey != [] ==>
      var run := RetryWithBackoff(backend.call, DEFAULT_RETRIES, DEFAULT_BASE_DELAY);
      && r.calls == run.attempts && r.waits == run.waits
      && r.result == Conclude(run.outcome, date, backend)
      && (run.outcome.Rejected? && run.outcome.error.Some? ==> r.result == Failure(Surface(ErrorText(run.outcome.error.value))))
      && (r.result.Success? ==> FetchedFromReply(run.outcome, date, backend, r.result.value))
  {
    if apiKey == [] then FetchRun(Failure(MISSING_KEY_MESSAGE), None, [], 0)
    else
      var run := RetryWithBackoff(backend.call, DEFAULT_RETRIES, DEFAULT_BASE_DELAY);
      RetrySpec(backend.call, DEFAULT_RETRIES, DEFAULT_BASE_DELAY);
      var result := Conclude(run.outcome, date, backend);
      var request := Some(Request(date, topics, sources, Excluded(existingTitles)));
      if result.Success? then
        SuccessfulFetch(run.outcome, date, backend);
        FetchRun(result, request, run.waits, run.attempts)
      else
        FetchRun(result, request, run.waits, run.attempts)
  }

  /**
   * `articles` come from the reply: it parsed to an array whose every
   * element normalised, and they are those normalised elements, one per
   * element, sorted by score with ties in reply order, all on `date`.
   */
  ghost predicate FetchedFromReply(outcome: Outcome<string>, date: string, backend: Backend, articles: seq<Article>)
  {
    && outcome.Resolved?
    && exists items, normalised ::
         && backend.parse(ExtractJsonText(outcome.value)) == Some(JArr(items))
         && NormalizeAll(items, date, backend.newId, backend.hostname) == Success(normalised)
         && |articles| == |items|
         && articles == SortByScore(normalised)
         && SortedByScore(articles)
         && multiset(articles) == multiset(normalised)
         && SameTies(articles, normalised)
         && forall a | a in articles :: a.date == date
  }

  /** A successful conclusion is the sorted normalisation of the parsed reply. */
  lemma SuccessfulFetch(outcome: Outcome<string>, date: string, backend: Backend)
    requires Conclude(outcome, date, backend).Success?
    ensures FetchedFromReply(outcome, date, backend, Conclude(outcome, date, backend).value)
  {
    var items, normalised := ReplyParts(outcome, date, backend);
    SortSpec(normalised);
    NormalizedDates(items, date, backend.newId, backend.hostname);
    SortKeepsDates(normalised, date);
    FetchedIntro(outcome, date, backend, items, normalised);
  }

  /** The array the reply parsed to and its normalisation, behind a successful conclusion. */
  lemma ReplyParts(outcome: Outcome<string>, date: string, backend: Backend) returns (items: seq<Json>, normalised: seq<Article>)
    requires Conclude(outcome, date, backend).Success?
    ensures outcome.Resolved?
    ensures backend.parse(ExtractJsonText(outcome.value)) == Some(JArr(items))
    ensures NormalizeAll(items, date, backend.newId, backend.hostname) == Success(normalised)
    ensures Conclude(outcome, date, backend).value == SortByScore(normalised)
  {
    ConcludeSuccess(outcome, date, backend);
    items, normalised := ProcessSuccess(outcome.value, date, backend);
  }

  /** Only a reply that processes successfully concludes successfully, with the same articles. */
  lemma ConcludeSuccess(outcome: Outcome<string>, date: string, backend: Backend)
    requires Conclude(outcome, date, backend).Success?
    ensures outcome.Resolved?
    ensures ProcessReply(outcome.value, date, backend) == Success(Conclude(outcome, date, backend).value)
  {
  }

  /** A processed reply is a parsed array, normalised and sorted. */
  lemma ProcessSuccess(text: string, date: string, backend: Backend) returns (items: seq<Json>, normalised: seq<Article>)
    requires ProcessReply(text, date, backend).Success?
    ensures backend.parse(ExtractJsonText(text)) == Some(JArr(items))
    ensures NormalizeAll(items, date, backend.newId, backend.hostname) == Success(normalised)
    ensures ProcessReply(text, date, backend).value == SortByScore(normalised)
  {
    var parsed := backend.parse(ExtractJsonText(text));
    assert parsed.Some? && parsed.value.JArr?;
    items := parsed.value.items;
    normalised := NormalizeAll(items, date, backend.newId, backend.hostname).value;
  }

  lemma FetchedIntro(outcome: Outcome<string>, date: string, backend: Backend, items: seq<Json>, normalised: seq<Article>)
    requires outcome.Resolved?
    requires backend.parse(ExtractJsonText(outcome.value)) == Some(JArr(items))
    requires NormalizeAll(items, date, backend.newId, backend.hostname) == Success(normalised)
    requires SortedByScore(SortByScore(normalised)) && SameTies(SortByScore(normalised), normalised)
    requires forall a | a in SortByScore(normalised) :: a.date == date
    ensures FetchedFromReply(outcome, date, backend, SortByScore(normalised))
  {
  }

  /** Sorting keeps the articles, so it keeps a date they all share. */
  lemma SortKeepsDates(articles: seq<Article>, date: string)
    requires forall a | a in articles :: a.date == date
    ensures forall a | a in SortByScore(articles) :: a.date == date
  {
    forall a | a in SortByScore(articles)
      ensures a.date == date
    {
      assert a in multiset(SortByScore(articles));
    }
  }

  /** A first reply that does not parse is reported at once, wrapped with the prefix. */
  lemma UnparseableReply(apiKey: string, date: string, topics: seq<string>, sources: seq<string>, titles: seq<Json>, backend: Backend, text: string)
    requires apiKey != [] && text != []
    requires backend.call(0) == Returned(text)
    requires backend.parse(ExtractJsonText(text)) == None
    ensures var r := FetchAiNews(apiKey, date, topics, sources, titles, backend);
      r.result == Failure(FAILED_PREFIX + NOT_JSON_MESSAGE) && r.calls == 1 && r.waits == []
  {
    FirstSuccessIsReturned(backend.call, DEFAULT_RETRIES, DEFAULT_BASE_DELAY);
    NotJsonIsWrapped();
    assert ProcessReply(text, date, backend) == Failure(Error(NOT_JSON_MESSAGE));
  }

  lemma NotJsonIsWrapped()
    ensures Surface(NOT_JSON_MESSAGE) == FAILED_PREFIX + NOT_JSON_MESSAGE
  {
    NotJsonLacks('F');
    NotJsonLacks('k');
    NotJsonLacks('4');
    NotJsonLacks('_');
    NotJsonLacks('m');
    NoMarkerIsWrapped(NOT_JSON_MESSAGE, 'm');
  }

  lemma NotJsonLacks(c: char)
    requires c in "Fk4_m"
    ensures c !in NOT_JSON_MESSAGE
  {
  }

  lemma NoTextIsWrapped()
    ensures Surface(NO_TEXT_MESSAGE) == FAILED_PREFIX + NO_TEXT_MESSAGE
  {
    NoTextLacks('F');
    NoTextLacks('k');
    NoTextLacks('4');
    NoTextLacks('_');
    NoTextLacks('i');
    NoMarkerIsWrapped(NO_TEXT_MESSAGE, 'i');
  }

  lemma NoTextLacks(c: char)
    requires c in "Fk4_i"
    ensures c !in NO_TEXT_MESSAGE
  {
  }

  /** An empty first reply is reported as missing text. */
  lemma EmptyReply(apiKey: string, date: string, topics: seq<string>, sources: seq<string>, titles: seq<Json>, backend: Backend)
    requires apiKey != []
    requires backend.call(0) == Returned([])
    ensures FetchAiNews(apiKey, date, topics, sources, titles, backend).result == Failure(FAILED_PREFIX + NO_TEXT_MESSAGE)
  {
    FirstSuccessIsReturned(backend.call, DEFAULT_RETRIES, DEFAULT_BASE_DELAY);
    NoTextIsWrapped();
    assert ProcessReply([], date, backend) == Failure(Error(NO_TEXT_MESSAGE));
  }

  /** Three failed fetches are retried after 1 s and 2 s, then reported as a network error. */
  lemma OfflineFetch(apiKey: string, date: string, topics: seq<string>, sources: seq<string>, titles: seq<Json>, backend: Backend)
    requires apiKey != []
    requires forall i: nat | i < 3 :: backend.call(i) == Threw(TypeError("Failed to fetch"))
    ensures var r := FetchAiNews(apiKey, date, topics, sources, titles, backend);
      r.result == Failure(NETWORK_MESSAGE) && r.calls == 3 && r.waits == [1000, 2000]
  {
    var e := TypeError("Failed to fetch");
    assert IsRetryable(e) by {
      assert OccursAt(ErrorText(e), "Failed to fetch", 0);
    }
    ThreeRetryableFailures(backend.call);
    assert Contains(ErrorText(e), "Failed to fetch") by {
      assert OccursAt(ErrorText(e), "Failed to fetch", 0);
    }
  }
}
