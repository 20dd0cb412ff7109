/** The records the application stores and displays, with their defaults. */
module Model {
  import opened Wrappers
  import opened Js
  import opened Seqs

  /** One corroborating document of an article. `title` is whatever the backend sent, or a host name. */
  datatype SourceRef = SourceRef(title: Json, uri: string)

  /**
   * A news article. The text fields hold the values the backend returned
   * (or their fallbacks) without conversion, exactly as the normaliser
   * copies them.
   */
  datatype Article = Article(
    id: string,
    title: Json,
    summary: Json,
    score: real,
    date: string,
    sources: seq<SourceRef>,
    tags: seq<Json>,
    reason: Json)

  /** A registered account. `passwordHash` is the Base64 encoding of the password. */
  datatype User = User(id: string, username: string, passwordHash: string, createdAt: string)

  /** A user's topic and source lists. */
  datatype FilterSettings = FilterSettings(activeTopics: seq<string>, customSources: seq<string>)

  /** The application state record. */
  datatype AppState = AppState(
    user: Option<User>,
    generatedNews: seq<Article>,
    repository: seq<Article>,
    isLoading: bool,
    selectedDate: string,
    error: Option<string>)

  const DEFAULT_TOPICS: seq<string> := [
    "LLM (Large Language Models)",
    "Generative Video/Image",
    "AI Hardware (GPUs/TPUs)",
    "Open Source Models",
    "AI Policy & Regulation",
    "Robotics"
  ]

  const DEFAULT_SOURCES: seq<string> := [
    "TechCrunch",
    "Hacker News",
    "X (Twitter)",
    "Reddit (r/LocalLLaMA, r/MachineLearning)",
    "XinZhiYuan (\U{65B0}\U{667A}\U{5143})",
    "JiQiZhiXin (\U{673A}\U{5668}\U{4E4B}\U{5FC3})",
    "Linux Do",
    "Hugging Face"
  ]

  /** The settings a user has before saving any. */
  const DEFAULT_SETTINGS: FilterSettings := FilterSettings(DEFAULT_TOPICS, DEFAULT_SOURCES)

  /** Some article of the list has the id. */
  predicate HasId(articles: seq<Article>, id: string)
  {
    exists k | 0 <= k < |articles| :: articles[k].id == id
  }

  /** No two articles of the list share an id. */
  predicate UniqueIds(articles: seq<Article>)
  {
    forall i, j | 0 <= i < j < |articles| :: articles[i].id != articles[j].id
  }

  /** The articles whose id differs from `id`, in their order. */
  function WithoutId(articles: seq<Article>, id: string): (r: seq<Article>)
    ensures forall a | a in r :: a.id != id
  {
    Filter(articles, (a: Article) => a.id != id)
  }

  /**
   * `WithoutId` keeps order: the result is the articles at increasing
   * positions, exactly those whose id differs.
   */
  lemma WithoutIdKeepsOrder(articles: seq<Article>, id: string)
    ensures exists idx: seq<nat> ::
      && ElementsAt(WithoutId(articles, id), articles, idx, 0)
      && Increasing(idx)
      && (forall i | 0 <= i < |articles| :: articles[i].id != id <==> i in idx)
  {
    FilterKeepsOrder(articles, (a: Article) => a.id != id);
  }
}
