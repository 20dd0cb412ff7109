/**
 * Turning the parsed reply into articles (services/geminiService.ts): each
 * element of the parsed array gets a fresh id, the requested date, default
 * text fields, a number score (50 when it is not a number), its tags when
 * they form an array, and the entries of its `sources` array that carry a
 * non-empty string `uri`, each reduced to a title and that URI.
 *
 * `new URL(uri).hostname` is a parameter: it yields the host name or the
 * error the URL constructor throws. Ids are a parameter too: `newId(i)` is
 * the id generated for the `i`-th element.
 */
module Normalize {
  import opened Wrappers
  import opened Js
  import opened Seqs
  import opened Model

  const UNTITLED: Json := JStr("Untitled News")
  const NO_SUMMARY: Json := JStr("No summary provided.")
  const NO_REASON: Json := JStr("")
  const DEFAULT_SCORE: real := 50.0

  /** The engine's error for reading a property of a `null` element. */
  const NULL_ITEM_MESSAGE: string := "Cannot read properties of null (reading 'sources')"

  /** A source entry is kept when it is truthy and its `uri` is a truthy string. */
  predicate KeepSource(s: Json)
  {
    Truthy(s) && TruthyOpt(Get(s, "uri")) && Get(s, "uri").value.JStr?
  }

  /** `s.uri` as a string; a kept entry's URI is non-empty. */
  function SourceUri(s: Json): (u: string)
    ensures KeepSource(s) ==> u != [] && Get(s, "uri") == Some(JStr(u))
  {
    match Get(s, "uri")
    case Some(JStr(u)) => u
    case _ => []
  }

  /** `item.sources`, or no entries when it is not an array. */
  function RawSources(item: Json): seq<Json>
  {
    match Get(item, "sources")
    case Some(JArr(xs)) => xs
    case _ => []
  }

  /** `itemSources.filter(...)`: the entries that are kept, in order. */
  function KeptSources(item: Json): (r: seq<Json>)
    ensures forall s | s in r :: KeepSource(s)
  {
    Filter(RawSources(item), KeepSource)
  }

  /**
   * The kept entries are exactly the entries that pass the test, at
   * increasing positions of `item.sources`; a non-array `sources` keeps
   * nothing.
   */
  lemma KeptSourcesInOrder(item: Json)
    ensures !(Get(item, "sources").Some? && Get(item, "sources").value.JArr?) ==> KeptSources(item) == []
    ensures var raw := RawSources(item);
      exists idx: seq<nat> ::
        && ElementsAt(KeptSources(item), raw, idx, 0)
        && Increasing(idx)
        && (forall i | 0 <= i < |raw| :: KeepSource(raw[i]) <==> i in idx)
  {
    FilterKeepsOrder(RawSources(item), KeepSource);
  }

  /** A kept entry keeps its URI; its title, when falsy, becomes the URI's host name, whose parsing may throw. */
  function CleanSource(s: Json, hostname: string -> Result<string, JsError>): (r: Result<SourceRef, JsError>)
  {
    var uri := SourceUri(s);
    if TruthyOpt(Get(s, "title")) then Success(SourceRef(Get(s, "title").value, uri))
    else
      match hostname(uri)
      case Success(h) => Success(SourceRef(JStr(h), uri))
      case Failure(e) => Failure(e)
  }

  /** The `.map(...)` over the kept entries: it stops at the first entry whose URL cannot be parsed. */
  function CleanSources(kept: seq<Json>, hostname: string -> Result<string, JsError>): (r: Result<seq<SourceRef>, JsError>)
    ensures r.Success? ==> |r.value| == |kept|
  {
    Map(kept, (k: nat, s: Json) => CleanSource(s, hostname))
  }

  /** A numeric score is kept as it is, with no clamping; any other value gives the default 50. */
  function Score(item: Json): real
  {
    match Get(item, "score")
    case Some(JNum(n)) => n
    case _ => DEFAULT_SCORE
  }

  /** The tags when they are an array, and none otherwise. */
  function Tags(item: Json): seq<Json>
  {
    match Get(item, "tags")
    case Some(JArr(xs)) => xs
    case _ => []
  }

  /** The article built from one parsed element, or the error its mapping throws. */
  function NormalizeItem(item: Json, date: string, id: string, hostname: string -> Result<string, JsError>): (r: Result<Article, JsError>)
    ensures item == JNull ==> r == Failure(TypeError(NULL_ITEM_MESSAGE))
    ensures r.Success? ==> r.value.id == id && r.value.date == date
  {
    if item == JNull then Failure(TypeError(NULL_ITEM_MESSAGE))
    else
      match CleanSources(KeptSources(item), hostname)
      case Failure(e) => Failure(e)
      case Success(sources) =>
        Success(Article(
          id,
          OrElse(Get(item, "title"), UNTITLED),
          OrElse(Get(item, "summary"), NO_SUMMARY),
          Score(item),
          date,
          sources,
          Tags(item),
          OrElse(Get(item, "reason"), NO_REASON)))
  }

  /**
   * The field rules of one element: the score is the element's number
   * score or 50 (never clamped), the text fields fall back to their
   * placeholders when falsy, the tags are kept only when they form an
   * array, and the sources are the kept entries, each cleaned. The mapping
   * throws only for a `null` element or a kept entry whose URL cannot be
   * parsed when it needs the host name.
   */
  lemma NormalizeItemFields(item: Json, date: string, id: string, hostname: string -> Result<string, JsError>)
    ensures var r := NormalizeItem(item, date, id, hostname);
      && (r.Success? && Get(item, "score").Some? && Get(item, "score").value.JNum? ==> r.value.score == Get(item, "score").value.n)
      && (r.Success? && !(Get(item, "score").Some? && Get(item, "score").value.JNum?) ==> r.value.score == DEFAULT_SCORE)
      && (r.Success? && Get(item, "tags").Some? && Get(item, "tags").value.JArr? ==> r.value.tags == Get(item, "tags").value.items)
      && (r.Success? && !(Get(item, "tags").Some? && Get(item, "tags").value.JArr?) ==> r.value.tags == [])
      && (r.Success? ==> r.value.title == OrElse(Get(item, "title"), UNTITLED))
      && (r.Success? ==> r.value.summary == OrElse(Get(item, "summary"), NO_SUMMARY))
      && (r.Success? ==> r.value.reason == OrElse(Get(item, "reason"), NO_REASON))
      && (r.Success? ==> CleanSources(KeptSources(item), hostname) == Success(r.value.sources))
      && (item != JNull ==> (r.Success? <==> CleanSources(KeptSources(item), hostname).Success?))
  {
  }

  /** `parsedData.map(...)`: the `k`-th element gets the `k`-th generated id. */
  function NormalizeAll(items: seq<Json>, date: string, newId: nat -> string, hostname: string -> Result<string, JsError>): (r: Result<seq<Article>, JsError>)
    ensures r.Success? ==> |r.value| == |items|
  {
    Map(items, (k: nat, item: Json) => NormalizeItem(item, date, newId(k), hostname))
  }

  /**
   * Normalising the whole array: it succeeds exactly when every element
   * does; then the `k`-th article is the `k`-th element's, so every
   * article carries the requested date and its own generated id;
   * otherwise it throws the error of the first element that fails.
   */
  lemma NormalizeAllSpec(items: seq<Json>, date: string, newId: nat -> string, hostname: string -> Result<string, JsError>)
    ensures var r := NormalizeAll(items, date, newId, hostname);
      && (r.Success? <==> forall k | 0 <= k < |items| :: NormalizeItem(items[k], date, newId(k), hostname).Success?)
      && (r.Success? ==> forall k | 0 <= k < |items| :: NormalizeItem(items[k], date, newId(k), hostname) == Success(r.value[k]))
      && (r.Success? ==> forall k | 0 <= k < |items| :: r.value[k].date == date && r.value[k].id == newId(k))
      && (r.Failure? ==> exists k | 0 <= k < |items| ::
            && NormalizeItem(items[k], date, newId(k), hostname) == Failure(r.error)
            && forall j | 0 <= j < k :: NormalizeItem(items[j], date, newId(j), hostname).Success?)
  {
    var f := (k: nat, item: Json) => NormalizeItem(item, date, newId(k), hostname);
    MapSpec(items, f);
    assert forall k | 0 <= k < |items| :: CallOk(items, f, k) == NormalizeItem(items[k], date, newId(k), hostname).Success?;
  }

  /** Every article of a successful normalisation carries the requested date. */
  lemma NormalizedDates(items: seq<Json>, date: string, newId: nat -> string, hostname: string -> Result<string, JsError>)
    requires NormalizeAll(items, date, newId, hostname).Success?
    ensures forall a | a in NormalizeAll(items, date, newId, hostname).value :: a.date == date
  {
    NormalizeAllSpec(items, date, newId, hostname);
  }

  /**
   * The sources of a normalised article: one per kept entry, in order,
   * each with the entry's URI and its title, or the URI's host name when
   * the title is falsy.
   */
  lemma CleanSourcesSpec(item: Json, date: string, id: string, hostname: string -> Result<string, JsError>)
    requires NormalizeItem(item, date, id, hostname).Success?
    ensures var a := NormalizeItem(item, date, id, hostname).value;
      var kept := KeptSources(item);
      && |a.sources| == |kept|
      && forall k | 0 <= k < |kept| ::
           && a.sources[k].uri == SourceUri(kept[k]) && a.sources[k].uri != []
           && (TruthyOpt(Get(kept[k], "title")) ==> a.sources[k].title == Get(kept[k], "title").value)
           && (!TruthyOpt(Get(kept[k], "title")) ==> exists h :: hostname(a.sources[k].uri) == Success(h) && a.sources[k].title == JStr(h))
  {
    var a := NormalizeItem(item, date, id, hostname).value;
    var kept := KeptSources(item);
    var f := (k: nat, s: Json) => CleanSource(s, hostname);
    NormalizeItemFields(item, date, id, hostname);
    MapSpec(kept, f);
    forall k | 0 <= k < |kept|
      ensures a.sources[k].uri == SourceUri(kept[k]) && a.sources[k].uri != []
      ensures TruthyOpt(Get(kept[k], "title")) ==> a.sources[k].title == Get(kept[k], "title").value
      ensures !TruthyOpt(Get(kept[k], "title")) ==> exists h :: hostname(a.sources[k].uri) == Success(h) && a.sources[k].title == JStr(h)
    {
      assert f(k, kept[k]) == Success(a.sources[k]);
      assert kept[k] in kept;
    }
  }

  /**
   * When every kept source entry has a title, the host name is never
   * needed, and any element but `null` normalises without throwing.
   */
  lemma TitledSourcesNeverThrow(item: Json, date: string, id: string, hostname: string -> Result<string, JsError>)
    requires item != JNull
    requires forall s | s in KeptSources(item) :: TruthyOpt(Get(s, "title"))
    ensures NormalizeItem(item, date, id, hostname).Success?
  {
    var kept := KeptSources(item);
    var f := (k: nat, s: Json) => CleanSource(s, hostname);
    MapSpec(kept, f);
    assert forall k | 0 <= k < |kept| :: kept[k] in kept && CallOk(kept, f, k);
    NormalizeItemFields(item, date, id, hostname);
  }

  /** An element holding only a title gets every default: summary, score 50, no sources, no tags, empty reason. */
  lemma TitleOnlyElement(date: string, id: string, hostname: string -> Result<string, JsError>)
    ensures NormalizeItem(JObj(map["title" := JStr("T")]), date, id, hostname)
         == Success(Article(id, JStr("T"), NO_SUMMARY, 50.0, date, [], [], NO_REASON))
  {
    var item := JObj(map["title" := JStr("T")]);
    assert KeptSources(item) == [];
    NormalizeItemFields(item, date, id, hostname);
  }

  /** Scores are copied as given: a score of 150 stays 150, and a negative one stays negative. */
  lemma ScoreNotClamped(date: string, id: string, hostname: string -> Result<string, JsError>)
    ensures var a := NormalizeItem(JObj(map["score" := JNum(150.0)]), date, id, hostname);
      a.Success? && a.value.score == 150.0
    ensures var b := NormalizeItem(JObj(map["score" := JNum(-3.0)]), date, id, hostname);
      b.Success? && b.value.score == -3.0
  {
    assert KeptSources(JObj(map["score" := JNum(150.0)])) == [];
    assert KeptSources(JObj(map["score" := JNum(-3.0)])) == [];
    NormalizeItemFields(JObj(map["score" := JNum(150.0)]), date, id, hostname);
    NormalizeItemFields(JObj(map["score" := JNum(-3.0)]), date, id, hostname);
  }

  /** A score sent as a string is not a number: the default 50 is used. */
  lemma StringScoreDefaults(date: string, id: string, hostname: string -> Result<string, JsError>)
    ensures var a := NormalizeItem(JObj(map["score" := JStr("90")]), date, id, hostname);
      a.Success? && a.value.score == DEFAULT_SCORE
  {
    assert KeptSources(JObj(map["score" := JStr("90")])) == [];
    NormalizeItemFields(JObj(map["score" := JStr("90")]), date, id, hostname);
  }
}
