/** The list edits and navigation of components/Sidebar.tsx. */
module Sidebar {
  import opened Wrappers
  import opened Seqs
  import opened Model

  /** The three pages of the application. */
  datatype View = Feed | Repo | SettingsPage

  /** The page shown and whether the mobile menu is open. */
  datatype Navigation = Navigation(view: View, menuOpen: bool)

  /**
   * `toggleTopic(topic)`: the settings handed to the update callback. An
   * active topic is dropped (every occurrence, the rest in order); an
   * inactive one is appended.
   */
  function ToggleTopic(settings: FilterSettings, topic: string): (r: FilterSettings)
    ensures r.customSources == settings.customSources
    ensures topic in settings.activeTopics ==>
      && topic !in r.activeTopics
      && (forall t | t in settings.activeTopics && t != topic :: t in r.activeTopics)
      && (forall t | t in r.activeTopics :: t in settings.activeTopics)
      && |r.activeTopics| < |settings.activeTopics|
    ensures topic !in settings.activeTopics ==> r.activeTopics == settings.activeTopics + [topic]
  {
    if topic in settings.activeTopics then
      var kept := Filter(settings.activeTopics, (t: string) => t != topic);
      FilterShrinks(settings.activeTopics, (t: string) => t != topic, topic);
      settings.(activeTopics := kept)
    else
      settings.(activeTopics := settings.activeTopics + [topic])
  }

  /** Dropping the elements equal to a present `x` makes the sequence shorter. */
  lemma {:induction false} FilterShrinks(s: seq<string>, keep: string -> bool, x: string)
    requires x in s && !keep(x)
    ensures |Filter(s, keep)| < |s|
  {
    if s[0] == x {
      assert |Filter(s[1..], keep)| <= |s[1..]|;
    } else {
      assert x in s[1..];
      FilterShrinks(s[1..], keep, x);
    }
  }

  /**
   * Dropping an active topic keeps the other topics in order: they sit at
   * increasing positions of the old list, exactly the positions not
   * holding the topic.
   */
  lemma ToggleOffKeepsOrder(settings: FilterSettings, topic: string)
    requires topic in settings.activeTopics
    ensures var old_, new_ := settings.activeTopics, ToggleTopic(settings, topic).activeTopics;
      exists idx: seq<nat> ::
        && ElementsAt(new_, old_, idx, 0)
        && Increasing(idx)
        && (forall i | 0 <= i < |old_| :: old_[i] != topic <==> i in idx)
  {
    FilterKeepsOrder(settings.activeTopics, (t: string) => t != topic);
  }

  /** Toggling an inactive topic twice gives the settings back. */
  lemma ToggleTwiceRestores(settings: FilterSettings, topic: string)
    requires topic !in settings.activeTopics
    ensures ToggleTopic(ToggleTopic(settings, topic), topic) == settings
  {
    var once := settings.activeTopics + [topic];
    var keep := (t: string) => t != topic;
    FilterAppend(settings.activeTopics, [topic], keep);
    assert Filter([topic], keep) == [];
    assert Filter(settings.activeTopics, keep) == settings.activeTopics;
    assert once == settings.activeTopics + [topic];
  }

  /** Toggling keeps the active topics free of duplicates. */
  lemma ToggleKeepsDistinct(settings: FilterSettings, topic: string)
    requires Distinct(settings.activeTopics)
    ensures Distinct(ToggleTopic(settings, topic).activeTopics)
  {
    if topic in settings.activeTopics {
      FilterKeepsDistinct(settings.activeTopics, (t: string) => t != topic);
    }
  }

  lemma {:induction false} FilterKeepsDistinct(s: seq<string>, keep: string -> bool)
    requires Distinct(s)
    ensures Distinct(Filter(s, keep))
  {
    if s != [] {
      assert Distinct(s[1..]) by {
        forall i, j | 0 <= i < j < |s[1..]|
          ensures s[1..][i] != s[1..][j]
        {
          assert s[1..][i] == s[i + 1] && s[1..][j] == s[j + 1];
        }
      }
      FilterKeepsDistinct(s[1..], keep);
      if keep(s[0]) {
        var rest := Filter(s[1..], keep);
        assert s[0] !in s[1..] by {
          forall k | 0 <= k < |s[1..]|
            ensures s[1..][k] != s[0]
          {
            assert s[1..][k] == s[k + 1];
          }
        }
        assert s[0] !in rest;
        var r := [s[0]] + rest;
        forall i, j | 0 <= i < j < |r|
          ensures r[i] != r[j]
        {
          if i == 0 {
            assert r[j] == rest[j - 1];
            assert rest[j - 1] in rest;
          } else {
            assert r[i] == rest[i - 1] && r[j] == rest[j - 1];
          }
        }
      }
    }
  }

  /**
   * `addTopic()` with `newTopic` the text in the input box: the settings to
   * hand to the update callback, if any, and the box's next text. An empty
   * or already active topic changes nothing and keeps the text.
   */
  function AddTopic(settings: FilterSettings, newTopic: string): (r: (Option<FilterSettings>, string))
    ensures newTopic == [] || newTopic in settings.activeTopics ==> r == (None, newTopic)
    ensures newTopic != [] && newTopic !in settings.activeTopics ==>
      r.1 == [] && r.0.Some?
      && r.0.value.activeTopics == settings.activeTopics + [newTopic]
      && r.0.value.customSources == settings.customSources
  {
    if newTopic != [] && newTopic !in settings.activeTopics then
      (Some(settings.(activeTopics := settings.activeTopics + [newTopic])), [])
    else (None, newTopic)
  }

  /** Adding a topic keeps the active topics free of duplicates. */
  lemma AddKeepsDistinct(settings: FilterSettings, newTopic: string)
    requires Distinct(settings.activeTopics)
    ensures var (update, _) := AddTopic(settings, newTopic);
      update.Some? ==> Distinct(update.value.activeTopics)
  {
    var (update, _) := AddTopic(settings, newTopic);
    if update.Some? {
      var s := update.value.activeTopics;
      forall i, j | 0 <= i < j < |s|
        ensures s[i] != s[j]
      {
        if j == |s| - 1 {
          assert s[i] in settings.activeTopics;
        }
      }
    }
  }

  /** `handleViewChange(view)`: show the page and close the mobile menu. */
  function HandleViewChange(nav: Navigation, view: View): (r: Navigation)
    ensures r.view == view && !r.menuOpen
  {
    Navigation(view, false)
  }
}
