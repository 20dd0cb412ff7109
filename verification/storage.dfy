/**
 * services/storageService.ts: accounts, the login session and the per-user
 * repository and settings, kept in the browser's key-value storage.
 *
 * The storage is a map from key to the value stored there, already decoded
 * from its JSON text: `JSON.stringify` followed by `JSON.parse` is taken to
 * give the value back. A key holding a value of another kind reads as
 * absent.
 */
module Storage {
  import opened Wrappers
  import opened Js
  import opened Seqs
  import opened Model

  /** A decoded stored value. The session key holds plain text. */
  datatype Stored =
    | Text(text: string)
    | UsersData(users: seq<User>)
    | ArticlesData(articles: seq<Article>)
    | SettingsData(settings: FilterSettings)

  type Store = map<string, Stored>

  /** `btoa`: the Base64 text of a string, or the error it throws for characters beyond Latin-1. */
  type Encoder = string -> Result<string, JsError>

  const USERS_KEY: string := "ai_daily_pulse_users"
  const CURRENT_USER_ID_KEY: string := "ai_daily_pulse_current_user_id"
  const USERNAME_TAKEN_MESSAGE: string := "Username already exists"
  const BAD_LOGIN_MESSAGE: string := "Invalid username or password"

  function RepoKey(userId: string): string
  {
    "user_" + userId + "_repo"
  }

  function SettingsKey(userId: string): string
  {
    "user_" + userId + "_settings"
  }

  /**
   * Every key names one datum: the two fixed keys, each user's repository
   * key and each user's settings key are pairwise different.
   */
  lemma KeysDistinct(u: string, v: string)
    ensures RepoKey(u) != SettingsKey(v)
    ensures RepoKey(u) == RepoKey(v) <==> u == v
    ensures SettingsKey(u) == SettingsKey(v) <==> u == v
    ensures RepoKey(u) !in {USERS_KEY, CURRENT_USER_ID_KEY}
    ensures SettingsKey(u) !in {USERS_KEY, CURRENT_USER_ID_KEY}
    ensures USERS_KEY != CURRENT_USER_ID_KEY
  {
    var ru, sv := RepoKey(u), SettingsKey(v);
    assert ru[|ru| - 1] == 'o' && sv[|sv| - 1] == 's';
    if RepoKey(u) == RepoKey(v) {
      assert u == RepoKey(u)[5..5 + |u|] == RepoKey(v)[5..5 + |v|] == v;
    }
    if SettingsKey(u) == SettingsKey(v) {
      assert u == SettingsKey(u)[5..5 + |u|] == SettingsKey(v)[5..5 + |v|] == v;
    }
    assert ru[0] == 'u' && SettingsKey(u)[0] == 'u';
    assert USERS_KEY[0] == 'a' && CURRENT_USER_ID_KEY[0] == 'a';
    assert USERS_KEY[|USERS_KEY| - 1] == 's' && CURRENT_USER_ID_KEY[|CURRENT_USER_ID_KEY| - 1] == 'd';
  }

  /** `getAllUsers()`. */
  function AllUsers(store: Store): seq<User>
  {
    if USERS_KEY in store && store[USERS_KEY].UsersData? then store[USERS_KEY].users else []
  }

  predicate UsernameTaken(users: seq<User>, username: string)
  {
    exists k | 0 <= k < |users| :: users[k].username == username
  }

  /** No two accounts share a username. */
  predicate UniqueUsernames(users: seq<User>)
  {
    forall i, j | 0 <= i < j < |users| :: users[i].username != users[j].username
  }

  /**
   * `registerUser(username, password)`, with `id` and `createdAt` the
   * random id and the clock reading it takes.
   */
  function RegisterUser(store: Store, username: string, password: string, id: string, createdAt: string, btoa: Encoder): (r: Result<(Store, User), JsError>)
    ensures UsernameTaken(AllUsers(store), username) ==> r == Failure(Error(USERNAME_TAKEN_MESSAGE))
    ensures !UsernameTaken(AllUsers(store), username) && btoa(password).Failure? ==> r == Failure(btoa(password).error)
    ensures r.Success? <==> !UsernameTaken(AllUsers(store), username) && btoa(password).Success?
    ensures r.Success? ==>
      var (store', user) := r.value;
      && user == User(id, username, btoa(password).value, createdAt)
      && AllUsers(store') == AllUsers(store) + [user]
      && store' == store[USERS_KEY := UsersData(AllUsers(store) + [user])]
      && (CURRENT_USER_ID_KEY in store' <==> CURRENT_USER_ID_KEY in store)
      && (CURRENT_USER_ID_KEY in store ==> store'[CURRENT_USER_ID_KEY] == store[CURRENT_USER_ID_KEY])
      && (UniqueUsernames(AllUsers(store)) ==> UniqueUsernames(AllUsers(store')))
  {
    var users := AllUsers(store);
    if UsernameTaken(users, username) then Failure(Error(USERNAME_TAKEN_MESSAGE))
    else
      match btoa(password)
      case Failure(e) => Failure(e)
      case Success(hash) =>
        var user := User(id, username, hash, createdAt);
        Success((store[USERS_KEY := UsersData(users + [user])], user))
  }

  /** The account's username is `username` and its hash is `btoa(password)`. */
  predicate Matches(user: User, username: string, password: string, btoa: Encoder)
  {
    user.username == username && btoa(password) == Success(user.passwordHash)
  }

  /**
   * The first account with this username whose stored hash is the encoded password:
   * `btoa` runs only for an account with the right username, so its throw
   * escapes only when there is one.
   */
  function FindLogin(users: seq<User>, username: string, password: string, btoa: Encoder): (r: Result<Option<User>, JsError>)
  {
    if users == [] then Success(None)
    else if users[0].username != username then FindLogin(users[1..], username, password, btoa)
    else
      match btoa(password)
      case Failure(e) => Failure(e)
      case Success(hash) =>
        if users[0].passwordHash == hash then Success(Some(users[0]))
        else FindLogin(users[1..], username, password, btoa)
  }

  lemma {:induction false} FindLoginSpec(users: seq<User>, username: string, password: string, btoa: Encoder)
    ensures var r := FindLogin(users, username, password, btoa);
      && (r.Failure? <==> btoa(password).Failure? && UsernameTaken(users, username))
      && (r.Failure? ==> r.error == btoa(password).error)
      && (r == Success(None) <==> r.Success? && forall k | 0 <= k < |users| :: !Matches(users[k], username, password, btoa))
      && (r.Success? && r.value.Some? ==>
            exists k | 0 <= k < |users| ::
              && users[k] == r.value.value
              && Matches(users[k], username, password, btoa)
              && forall j | 0 <= j < k :: !Matches(users[j], username, password, btoa))
  {
    if users != [] {
      var tail := users[1..];
      FindLoginSpec(tail, username, password, btoa);
      assert forall k | 1 <= k < |users| :: users[k] == tail[k - 1];
      var r := FindLogin(users, username, password, btoa);
      if users[0].username != username {
        assert UsernameTaken(users, username) <==> UsernameTaken(tail, username);
        if r.Success? && r.value.Some? {
          var k :| 0 <= k < |tail| && tail[k] == r.value.value && Matches(tail[k], username, password, btoa)
                   && forall j | 0 <= j < k :: !Matches(tail[j], username, password, btoa);
          assert users[k + 1] == tail[k];
        }
      } else if btoa(password).Success? && users[0].passwordHash != btoa(password).value {
        if r.Success? && r.value.Some? {
          var k :| 0 <= k < |tail| && tail[k] == r.value.value && Matches(tail[k], username, password, btoa)
                   && forall j | 0 <= j < k :: !Matches(tail[j], username, password, btoa);
          assert users[k + 1] == tail[k];
        }
      }
    }
  }

  /** `loginUser(username, password)`: the account found, remembered as the session. */
  function LoginUser(store: Store, username: string, password: string, btoa: Encoder): (r: Result<(Store, User), JsError>)
  {
    match FindLogin(AllUsers(store), username, password, btoa)
    case Failure(e) => Failure(e)
    case Success(None) => Failure(Error(BAD_LOGIN_MESSAGE))
    case Success(Some(user)) => Success((store[CURRENT_USER_ID_KEY := Text(user.id)], user))
  }

  /**
   * Login succeeds exactly when an account matches; it returns the first
   * such account and changes nothing but the session key.
   */
  lemma LoginSpec(store: Store, username: string, password: string, btoa: Encoder)
    ensures var r := LoginUser(store, username, password, btoa);
      var users := AllUsers(store);
      && (r.Success? <==> exists k | 0 <= k < |users| :: Matches(users[k], username, password, btoa))
      && (r.Failure? && btoa(password).Success? ==> r.error == Error(BAD_LOGIN_MESSAGE))
      && (r.Success? ==>
            && r.value.0 == store[CURRENT_USER_ID_KEY := Text(r.value.1.id)]
            && exists k | 0 <= k < |users| ::
                 users[k] == r.value.1 && Matches(users[k], username, password, btoa)
                 && forall j | 0 <= j < k :: !Matches(users[j], username, password, btoa))
  {
    FindLoginSpec(AllUsers(store), username, password, btoa);
  }

  /** `logoutUser()`. */
  function LogoutUser(store: Store): (r: Store)
    ensures CURRENT_USER_ID_KEY !in r
    ensures forall key | key in store && key != CURRENT_USER_ID_KEY :: key in r && r[key] == store[key]
  {
    store - {CURRENT_USER_ID_KEY}
  }

  /** `getCurrentSessionUser()`: the first account with the remembered id. */
  function SessionUser(store: Store): (r: Option<User>)
  {
    if CURRENT_USER_ID_KEY !in store || !store[CURRENT_USER_ID_KEY].Text? || store[CURRENT_USER_ID_KEY].text == [] then None
    else Find(AllUsers(store), (u: User) => u.id == store[CURRENT_USER_ID_KEY].text)
  }

  /**
   * The session user is an account whose id is the remembered, non-empty
   * id, the first such; there is none when nothing is remembered, the id
   * is empty, or no account has it.
   */
  lemma SessionSpec(store: Store)
    ensures var r := SessionUser(store);
      var users := AllUsers(store);
      && (r.Some? <==>
            && CURRENT_USER_ID_KEY in store && store[CURRENT_USER_ID_KEY].Text?
            && store[CURRENT_USER_ID_KEY].text != []
            && exists k | 0 <= k < |users| :: users[k].id == store[CURRENT_USER_ID_KEY].text)
      && (r.Some? ==>
            exists k | 0 <= k < |users| ::
              && users[k] == r.value && r.value.id == store[CURRENT_USER_ID_KEY].text
              && forall j | 0 <= j < k :: users[j].id != r.value.id)
  {
  }

  /** No two accounts share an id. */
  predicate UniqueUserIds(users: seq<User>)
  {
    forall i, j | 0 <= i < j < |users| :: users[i].id != users[j].id
  }

  /** After logging out there is no session user. */
  lemma LogoutEndsSession(store: Store)
    ensures SessionUser(LogoutUser(store)) == None
    ensures AllUsers(LogoutUser(store)) == AllUsers(store)
  {
  }

  /** A login is remembered: the session user is the account that logged in, when ids are unique and not empty. */
  lemma LoginStartsSession(store: Store, username: string, password: string, btoa: Encoder)
    requires LoginUser(store, username, password, btoa).Success?
    requires UniqueUserIds(AllUsers(store))
    ensures var (store', user) := LoginUser(store, username, password, btoa).value;
      SessionUser(store') == (if user.id == [] then None else Some(user))
  {
    LoginSpec(store, username, password, btoa);
    var (store', user) := LoginUser(store, username, password, btoa).value;
    var users := AllUsers(store);
    assert AllUsers(store') == users;
    if user.id != [] {
      var p := (u: User) => u.id == user.id;
      var found := Find(users, p);
      var k :| 0 <= k < |users| && users[k] == user;
      assert p(users[k]);
      var i :| 0 <= i < |users| && users[i] == found.value && p(users[i]) && forall j | 0 <= j < i :: !p(users[j]);
      assert i == k;
    }
  }

  /** A freshly registered account can log in with its password, and no other account can be returned. */
  lemma RegisterThenLogin(store: Store, username: string, password: string, id: string, createdAt: string, btoa: Encoder)
    requires RegisterUser(store, username, password, id, createdAt, btoa).Success?
    ensures var (store', user) := RegisterUser(store, username, password, id, createdAt, btoa).value;
      LoginUser(store', username, password, btoa) == Success((store'[CURRENT_USER_ID_KEY := Text(id)], user))
  {
    var (store', user) := RegisterUser(store, username, password, id, createdAt, btoa).value;
    var users := AllUsers(store);
    var users' := AllUsers(store');
    LoginSpec(store', username, password, btoa);
    assert Matches(users'[|users|], username, password, btoa);
    assert forall k | 0 <= k < |users| :: users'[k].username != username;
  }

  /** `getRepository(userId)`. */
  function Repository(store: Store, userId: string): seq<Article>
  {
    var key := RepoKey(userId);
    if key in store && store[key].ArticlesData? then store[key].articles else []
  }

  /**
   * `saveToRepository(userId, article)`: an article whose id is already
   * saved leaves the repository (and the storage) as it was; any other is
   * put in front.
   */
  function SaveToRepository(store: Store, userId: string, article: Article): (r: (Store, seq<Article>))
    ensures HasId(Repository(store, userId), article.id) ==> r == (store, Repository(store, userId))
    ensures !HasId(Repository(store, userId), article.id) ==>
      r.1 == [article] + Repository(store, userId) && r.0 == store[RepoKey(userId) := ArticlesData(r.1)]
    ensures Repository(r.0, userId) == r.1
    ensures HasId(r.1, article.id)
    ensures UniqueIds(Repository(store, userId)) ==> UniqueIds(r.1)
  {
    var current := Repository(store, userId);
    if HasId(current, article.id) then (store, current)
    else
      var updated := [article] + current;
      assert updated[0].id == article.id;
      (store[RepoKey(userId) := ArticlesData(updated)], updated)
  }

  /** `removeFromRepository(userId, id)`: the saved articles without the id, in their order. */
  function RemoveFromRepository(store: Store, userId: string, id: string): (r: (Store, seq<Article>))
    ensures r.1 == WithoutId(Repository(store, userId), id)
    ensures r.0 == store[RepoKey(userId) := ArticlesData(r.1)]
    ensures Repository(r.0, userId) == r.1
    ensures !HasId(r.1, id)
    ensures forall a | a in Repository(store, userId) && a.id != id :: a in r.1
    ensures !HasId(Repository(store, userId), id) ==> r.1 == Repository(store, userId)
  {
    var updated := WithoutId(Repository(store, userId), id);
    (store[RepoKey(userId) := ArticlesData(updated)], updated)
  }

  /** Saving an article twice is saving it once. */
  lemma SaveIdempotent(store: Store, userId: string, article: Article)
    ensures var (store', _) := SaveToRepository(store, userId, article);
      SaveToRepository(store', userId, article) == SaveToRepository(store, userId, article)
  {
  }

  /** Removing a just-saved new article gives the earlier repository back. */
  lemma SaveThenRemove(store: Store, userId: string, article: Article)
    requires !HasId(Repository(store, userId), article.id)
    ensures var (store', _) := SaveToRepository(store, userId, article);
      RemoveFromRepository(store', userId, article.id).1 == Repository(store, userId)
  {
    var current := Repository(store, userId);
    var keep := (a: Article) => a.id != article.id;
    FilterAppend([article], current, keep);
    assert [article] + current == ([article] + current);
    assert Filter([article], keep) == [];
  }

  /** `getSettings(userId)`: the saved settings, or the defaults. */
  function Settings(store: Store, userId: string): FilterSettings
  {
    var key := SettingsKey(userId);
    if key in store && store[key].SettingsData? then store[key].settings else DEFAULT_SETTINGS
  }

  /** `saveSettings(userId, settings)`. */
  function SaveSettings(store: Store, userId: string, settings: FilterSettings): (r: Store)
    ensures Settings(r, userId) == settings
  {
    store[SettingsKey(userId) := SettingsData(settings)]
  }

  /** Nothing stored means no accounts and an empty repository. */
  lemma MissingDataDefaults(store: Store, userId: string)
    ensures USERS_KEY !in store ==> AllUsers(store) == []
    ensures RepoKey(userId) !in store ==> Repository(store, userId) == []
  {
  }

  /** A user without saved settings gets the default topics and sources. */
  lemma NewUserDefaults(store: Store, userId: string)
    requires SettingsKey(userId) !in store
    ensures Settings(store, userId) == FilterSettings(DEFAULT_TOPICS, DEFAULT_SOURCES)
  {
  }

  /**
   * Per-user isolation: saving one user's settings changes no other
   * user's settings, no repository, and neither the accounts nor the
   * session.
   */
  lemma SaveSettingsIsolated(store: Store, u: string, v: string, settings: FilterSettings)
    requires u != v
    ensures var s1 := SaveSettings(store, u, settings);
      && Settings(s1, v) == Settings(store, v)
      && Repository(s1, u) == Repository(store, u) && Repository(s1, v) == Repository(store, v)
      && AllUsers(s1) == AllUsers(store) && SessionUser(s1) == SessionUser(store)
  {
    KeysDistinct(u, v);
    KeysDistinct(v, u);
    KeysDistinct(u, u);
  }

  /** Writing one user's repository key changes no other repository, no settings, and neither the accounts nor the session. */
  lemma RepoWriteIsolated(store: Store, u: string, v: string, value: Stored)
    requires u != v
    ensures var s' := store[RepoKey(u) := value];
      && Repository(s', v) == Repository(store, v)
      && Settings(s', u) == Settings(store, u) && Settings(s', v) == Settings(store, v)
      && AllUsers(s') == AllUsers(store) && SessionUser(s') == SessionUser(store)
  {
    KeysDistinct(u, v);
    KeysDistinct(u, u);
  }

  /** Saving to one user's repository changes no other repository, no settings, and neither the accounts nor the session. */
  lemma SaveToRepositoryIsolated(store: Store, u: string, v: string, article: Article)
    requires u != v
    ensures var s2 := SaveToRepository(store, u, article).0;
      && Repository(s2, v) == Repository(store, v)
      && Settings(s2, u) == Settings(store, u) && Settings(s2, v) == Settings(store, v)
      && AllUsers(s2) == AllUsers(store) && SessionUser(s2) == SessionUser(store)
  {
    RepoWriteIsolated(store, u, v, ArticlesData([article] + Repository(store, u)));
  }

  /** Removing from one user's repository changes no other repository, no settings, and neither the accounts nor the session. */
  lemma RemoveFromRepositoryIsolated(store: Store, u: string, v: string, id: string)
    requires u != v
    ensures var s3 := RemoveFromRepository(store, u, id).0;
      && Repository(s3, v) == Repository(store, v)
      && Settings(s3, u) == Settings(store, u) && Settings(s3, v) == Settings(store, v)
      && AllUsers(s3) == AllUsers(store) && SessionUser(s3) == SessionUser(store)
  {
    RepoWriteIsolated(store, u, v, ArticlesData(WithoutId(Repository(store, u), id)));
  }
}
