/**
 * The state transitions of App.tsx: each handler maps the screen state and
 * the storage to their next values. React's batched state updates are
 * applied in order; a fetch is one transition from the click to the
 * settled request.
 */
module App {
  import opened Wrappers
  import opened Js
  import opened Seqs
  import opened Model
  import opened Storage
  import opened Sidebar
  import opened Gemini
  import opened ScoreSort

  /** Shown when a failed fetch carries no message. */
  const FETCH_FALLBACK_MESSAGE: string := "Failed to fetch news. Please check your API Key or try again."

  /** Everything the screen holds: the application record, the settings being edited and the navigation. */
  datatype Screen = Screen(state: AppState, settings: FilterSettings, nav: Navigation)

  /** A screen and the storage behind it. */
  datatype World = World(screen: Screen, store: Store)

  /**
   * The screen agrees with the storage: while someone is logged in, the
   * repository and settings shown are that user's saved ones.
   */
  predicate Synced(w: World)
  {
    w.screen.state.user.Some? ==>
      && w.screen.state.repository == Repository(w.store, w.screen.state.user.value.id)
      && w.screen.settings == Settings(w.store, w.screen.state.user.value.id)
  }

  /** `handleLoginSuccess(user)`: load the user's data and start with an empty feed and no error. */
  function LoginSuccess(w: World, user: User): (r: World)
    ensures r.store == w.store && r.screen.nav == w.screen.nav
    ensures r.screen.state == w.screen.state.(user := Some(user), repository := Repository(w.store, user.id), generatedNews := [], error := None)
    ensures r.screen.settings == Settings(w.store, user.id)
    ensures Synced(r)
  {
    var state := w.screen.state.(user := Some(user), repository := Repository(w.store, user.id), generatedNews := [], error := None);
    World(Screen(state, Settings(w.store, user.id), w.screen.nav), w.store)
  }

  /** The effect on mount: resume the remembered session, if any. */
  function Restore(w: World): (r: World)
    ensures SessionUser(w.store).None? ==> r == w
    ensures SessionUser(w.store).Some? ==> r.screen.state.user == SessionUser(w.store) && Synced(r)
  {
    match SessionUser(w.store)
    case None => w
    case Some(user) => LoginSuccess(w, user)
  }

  /** `handleLogout()`: end the session and clear the user's data from the screen; the settings stay. */
  function Logout(w: World): (r: World)
    ensures r.store == LogoutUser(w.store) && SessionUser(r.store) == None
    ensures r.screen.state == w.screen.state.(user := None, repository := [], generatedNews := [])
    ensures r.screen.settings == w.screen.settings && r.screen.nav == w.screen.nav
    ensures Synced(r)
  {
    LogoutEndsSession(w.store);
    var state := w.screen.state.(user := None, repository := [], generatedNews := []);
    World(w.screen.(state := state), LogoutUser(w.store))
  }

  /** `handleUpdateSettings(settings)`: show and save the settings, if someone is logged in. */
  function UpdateSettings(w: World, settings: FilterSettings): (r: World)
    ensures w.screen.state.user.None? ==> r == w
    ensures w.screen.state.user.Some? ==>
      && r.screen == w.screen.(settings := settings)
      && r.store == SaveSettings(w.store, w.screen.state.user.value.id, settings)
      && Settings(r.store, w.screen.state.user.value.id) == settings
    ensures Synced(w) ==> Synced(r)
  {
    match w.screen.state.user
    case None => w
    case Some(user) =>
      SettingsKeepRepository(w.store, user.id, settings);
      World(w.screen.(settings := settings), SaveSettings(w.store, user.id, settings))
  }

  /** The titles of the saved articles, in repository order, as the exclusion list. */
  function RepositoryTitles(repository: seq<Article>): (r: seq<Json>)
    ensures |r| == |repository|
    ensures forall k | 0 <= k < |r| :: r[k] == repository[k].title
  {
    seq(|repository|, (k: int) requires 0 <= k < |repository| => repository[k].title)
  }

  /**
   * `handleFetchNews()`, from the click to the settled request: the feed
   * is replaced by the fetched articles, or the error is shown and the
   * feed kept. Loading is over either way.
   */
  function FetchNews(w: World, apiKey: string, backend: Backend): (r: World)
  {
    var state := w.screen.state.(isLoading := true, error := None);
    var run := FetchAiNews(apiKey, w.screen.state.selectedDate, w.screen.settings.activeTopics,
                           w.screen.settings.customSources, RepositoryTitles(w.screen.state.repository), backend);
    var state' :=
      match run.result
      case Success(news) => state.(generatedNews := news, isLoading := false)
      case Failure(message) =>
        state.(isLoading := false, error := Some(if message == [] then FETCH_FALLBACK_MESSAGE else message));
    World(w.screen.(state := state'), w.store)
  }

  /**
   * What a fetch does to the screen: only the feed, the loading flag and
   * the error change; the request names the chosen date, the active topics
   * and sources and the saved titles; the fallback message never shows,
   * because every failure carries a message.
   */
  lemma FetchNewsSpec(w: World, apiKey: string, backend: Backend)
    ensures var r := FetchNews(w, apiKey, backend);
      var run := FetchAiNews(apiKey, w.screen.state.selectedDate, w.screen.settings.activeTopics,
                             w.screen.settings.customSources, RepositoryTitles(w.screen.state.repository), backend);
      && r.store == w.store && r.screen.settings == w.screen.settings && r.screen.nav == w.screen.nav
      && !r.screen.state.isLoading
      && r.screen.state.user == w.screen.state.user
      && r.screen.state.repository == w.screen.state.repository
      && r.screen.state.selectedDate == w.screen.state.selectedDate
      && (apiKey != [] ==> run.request.value.excluded == Excluded(RepositoryTitles(w.screen.state.repository)))
      && (run.result.Success? ==>
            && r.screen.state.generatedNews == run.result.value
            && r.screen.state.error == None
            && SortedByScore(r.screen.state.generatedNews)
            && forall a | a in r.screen.state.generatedNews :: a.date == w.screen.state.selectedDate)
      && (run.result.Failure? ==>
            && r.screen.state.generatedNews == w.screen.state.generatedNews
            && r.screen.state.error == Some(run.result.error))
  {
  }

  /** `handleArchive(article)`: save it and take its id off the feed, if someone is logged in. */
  function Archive(w: World, article: Article): (r: World)
    ensures w.screen.state.user.None? ==> r == w
    ensures w.screen.state.user.Some? ==>
      var (store', saved) := SaveToRepository(w.store, w.screen.state.user.value.id, article);
      && r.store == store'
      && r.screen.state == w.screen.state.(repository := saved, generatedNews := WithoutId(w.screen.state.generatedNews, article.id))
      && HasId(r.screen.state.repository, article.id)
      && !HasId(r.screen.state.generatedNews, article.id)
      && r.screen.settings == w.screen.settings
    ensures Synced(w) ==> Synced(r)
  {
    match w.screen.state.user
    case None => w
    case Some(user) =>
      SaveKeepsSettings(w.store, user.id, article);
      var (store', saved) := SaveToRepository(w.store, user.id, article);
      var news := WithoutId(w.screen.state.generatedNews, article.id);
      World(w.screen.(state := w.screen.state.(repository := saved, generatedNews := news)), store')
  }

  /** `handleDismiss(id)`: every feed entry with the id leaves the feed; the others stay in order. */
  function Dismiss(w: World, id: string): (r: World)
    ensures r.store == w.store && r.screen.settings == w.screen.settings
    ensures r.screen.state == w.screen.state.(generatedNews := WithoutId(w.screen.state.generatedNews, id))
    ensures !HasId(r.screen.state.generatedNews, id)
    ensures forall a | a in w.screen.state.generatedNews && a.id != id :: a in r.screen.state.generatedNews
  {
    World(w.screen.(state := w.screen.state.(generatedNews := WithoutId(w.screen.state.generatedNews, id))), w.store)
  }

  /** `handleRemoveFromRepo(id)`: drop the id from the saved articles, if someone is logged in. */
  function RemoveFromRepo(w: World, id: string): (r: World)
    ensures w.screen.state.user.None? ==> r == w
    ensures w.screen.state.user.Some? ==>
      var (store', kept) := RemoveFromRepository(w.store, w.screen.state.user.value.id, id);
      && r.store == store'
      && r.screen.state == w.screen.state.(repository := kept)
      && !HasId(r.screen.state.repository, id)
      && r.screen.settings == w.screen.settings
    ensures Synced(w) ==> Synced(r)
  {
    match w.screen.state.user
    case None => w
    case Some(user) =>
      RemoveKeepsSettings(w.store, user.id, id);
      var (store', kept) := RemoveFromRepository(w.store, user.id, id);
      World(w.screen.(state := w.screen.state.(repository := kept)), store')
  }

  /** The remove button of a source: every equal entry goes, the others stay in order. */
  function RemoveSource(w: World, source: string): (r: World)
    ensures w.screen.state.user.Some? ==>
      && source !in r.screen.settings.customSources
      && (forall s | s in w.screen.settings.customSources && s != source :: s in r.screen.settings.customSources)
      && r.screen.settings.activeTopics == w.screen.settings.activeTopics
  {
    var sources := Filter(w.screen.settings.customSources, (s: string) => s != source);
    UpdateSettings(w, w.screen.settings.(customSources := sources))
  }

  /**
   * The source input box (Enter key or Add button) holding `input`: any
   * non-empty text is appended, duplicates included, and the box is
   * cleared even when nobody is logged in; empty text does nothing.
   */
  function AddSource(w: World, input: string): (r: (World, string))
    ensures input == [] ==> r == (w, input)
    ensures input != [] ==> r.1 == [] && r.0 == UpdateSettings(w, w.screen.settings.(customSources := w.screen.settings.customSources + [input]))
    ensures input != [] && w.screen.state.user.Some? ==>
      r.0.screen.settings.customSources == w.screen.settings.customSources + [input]
  {
    if input == [] then (w, input)
    else (UpdateSettings(w, w.screen.settings.(customSources := w.screen.settings.customSources + [input])), [])
  }

  /** A topic chip in the sidebar. */
  function SidebarToggle(w: World, topic: string): (r: World)
    ensures w.screen.state.user.Some? ==> r.screen.settings == ToggleTopic(w.screen.settings, topic)
  {
    UpdateSettings(w, ToggleTopic(w.screen.settings, topic))
  }

  /** The sidebar's topic box holding `newTopic`. */
  function SidebarAddTopic(w: World, newTopic: string): (r: (World, string))
    ensures AddTopic(w.screen.settings, newTopic).0.None? ==> r == (w, newTopic)
    ensures AddTopic(w.screen.settings, newTopic).0.Some? ==>
      && r.1 == []
      && r.0 == UpdateSettings(w, w.screen.settings.(activeTopics := w.screen.settings.activeTopics + [newTopic]))
    ensures AddTopic(w.screen.settings, newTopic).0.Some? && w.screen.state.user.Some? ==>
      && r.0.screen.settings.activeTopics == w.screen.settings.activeTopics + [newTopic]
      && Settings(r.0.store, w.screen.state.user.value.id) == r.0.screen.settings
  {
    match AddTopic(w.screen.settings, newTopic)
    case (None, text) => (w, text)
    case (Some(settings), text) => (UpdateSettings(w, settings), text)
  }

  /** A sidebar navigation link. */
  function ViewChange(w: World, view: View): (r: World)
    ensures r.screen.nav == Navigation(view, false)
    ensures r.screen.state == w.screen.state && r.store == w.store && r.screen.settings == w.screen.settings
  {
    World(w.screen.(nav := HandleViewChange(w.screen.nav, view)), w.store)
  }

  /** Every handler keeps the screen in agreement with the storage. */
  lemma HandlersKeepSync(w: World, settings: FilterSettings, article: Article, id: string, text: string,
                         apiKey: string, backend: Backend, view: View)
    requires Synced(w)
    ensures Synced(Logout(w)) && Synced(Restore(w))
    ensures Synced(UpdateSettings(w, settings))
    ensures Synced(FetchNews(w, apiKey, backend))
    ensures Synced(Archive(w, article)) && Synced(Dismiss(w, id)) && Synced(RemoveFromRepo(w, id))
    ensures Synced(RemoveSource(w, text)) && Synced(AddSource(w, text).0)
    ensures Synced(SidebarToggle(w, text)) && Synced(SidebarAddTopic(w, text).0)
    ensures Synced(ViewChange(w, view))
  {
    // One isolated proof per handler keeps this lemma cheap on every solver seed.
    assert Synced(Logout(w)) by {}
    assert Synced(Restore(w)) by {}
    assert Synced(UpdateSettings(w, settings)) by {}
    assert Synced(FetchNews(w, apiKey, backend)) by {}
    assert Synced(Archive(w, article)) by {}
    assert Synced(Dismiss(w, id)) by {}
    assert Synced(RemoveFromRepo(w, id)) by {}
    assert Synced(RemoveSource(w, text)) by {}
    assert Synced(AddSource(w, text).0) by {}
    assert Synced(SidebarToggle(w, text)) by {}
    assert Synced(SidebarAddTopic(w, text).0) by {}
  }

  /** Saving settings leaves the same user's repository as it was. */
  lemma SettingsKeepRepository(store: Store, userId: string, settings: FilterSettings)
    ensures Repository(SaveSettings(store, userId, settings), userId) == Repository(store, userId)
  {
    KeysDistinct(userId, userId);
  }

  /** Saving to a user's repository leaves every user's settings as they were. */
  lemma SaveKeepsSettings(store: Store, userId: string, article: Article)
    ensures forall v :: Settings(SaveToRepository(store, userId, article).0, v) == Settings(store, v)
  {
    forall v
      ensures Settings(SaveToRepository(store, userId, article).0, v) == Settings(store, v)
    {
      KeysDistinct(userId, v);
    }
  }

  /** Removing from a user's repository leaves every user's settings as they were. */
  lemma RemoveKeepsSettings(store: Store, userId: string, id: string)
    ensures forall v :: Settings(RemoveFromRepository(store, userId, id).0, v) == Settings(store, v)
  {
    forall v
      ensures Settings(RemoveFromRepository(store, userId, id).0, v) == Settings(store, v)
    {
      KeysDistinct(userId, v);
    }
  }

  /** Archiving then removing a new article from the repository gives the saved list back. */
  lemma ArchiveThenRemove(w: World, article: Article)
    requires w.screen.state.user.Some?
    requires !HasId(Repository(w.store, w.screen.state.user.value.id), article.id)
    ensures RemoveFromRepo(Archive(w, article), article.id).screen.state.repository == Repository(w.store, w.screen.state.user.value.id)
  {
    SaveThenRemove(w.store, w.screen.state.user.value.id, article);
  }
}
