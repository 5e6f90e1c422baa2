/** Light/dark theme handling (frontend/src/store/themeStore.ts): the class
    set of the document's root element, the store's `theme` field, and the
    record kept in localStorage under "theme-storage". */
module Themes {
  import opened Wrappers

  datatype Theme = Light | Dark | System

  /** The enum's string value, which is also the class name it adds. */
  function ThemeValue(theme: Theme): string {
    match theme
    case Light => "light"
    case Dark => "dark"
    case System => "system"
  }

  const ThemeStorageKey := "theme-storage"

  /** The JSON record `{state: {theme}}`, as far as the restore reads it:
      either level may be missing. */
  datatype PersistedState = PersistedState(theme: Option<Theme>)
  datatype Persisted = Persisted(state: Option<PersistedState>)

  function Record(theme: Theme): Persisted {
    Persisted(Some(PersistedState(Some(theme))))
  }

  /** The class `applyTheme` adds: the theme itself, or for `System` the
      one the `prefers-color-scheme: dark` query selects. */
  function ModeClass(theme: Theme, prefersDark: bool): (c: string)
    ensures c == "dark" || c == "light"
    ensures theme != System ==> c == ThemeValue(theme)
    ensures theme == System ==> (c == "dark" <==> prefersDark)
  {
    match theme
    case System => if prefersDark then "dark" else "light"
    case Light => "light"
    case Dark => "dark"
  }

  /** The root classes after `applyTheme`: both mode classes removed, then one added. */
  function ThemedClasses(classes: set<string>, theme: Theme, prefersDark: bool): set<string> {
    (classes - {"dark", "light"}) + {ModeClass(theme, prefersDark)}
  }

  /** Afterwards exactly one of "dark" and "light" is present, every other
      class is as before, and "system" is never added. */
  lemma ThemedClassesExactlyOneMode(classes: set<string>, theme: Theme, prefersDark: bool)
    ensures var r := ThemedClasses(classes, theme, prefersDark);
      ("dark" in r) != ("light" in r)
      && (forall c :: c != "dark" && c != "light" ==> (c in r <==> c in classes))
      && ("system" in r <==> "system" in classes)
  {
    var r := ThemedClasses(classes, theme, prefersDark);
    assert ModeClass(theme, prefersDark) in r;
  }

  /** Applying twice is the same as applying once. */
  lemma ThemedClassesIdempotent(classes: set<string>, theme: Theme, prefersDark: bool)
    ensures ThemedClasses(ThemedClasses(classes, theme, prefersDark), theme, prefersDark)
         == ThemedClasses(classes, theme, prefersDark)
  {
  }

  /** The theme the startup block picks: the stored one, or `System` when
      the key, its `state` or its `state.theme` is missing. */
  function RestoredTheme(storage: map<string, Persisted>): Theme {
    if ThemeStorageKey !in storage then System
    else match storage[ThemeStorageKey].state
      case None => System
      case Some(s) => if s.theme.Some? then s.theme.value else System
  }

  /** What `setTheme` writes, startup reads back. */
  lemma RestoreRoundTrip(storage: map<string, Persisted>, theme: Theme)
    ensures RestoredTheme(storage[ThemeStorageKey := Record(theme)]) == theme
  {
  }

  /** A missing or incomplete record restores `System`. */
  lemma RestoreFallsBackToSystem(storage: map<string, Persisted>)
    requires ThemeStorageKey !in storage
          || storage[ThemeStorageKey].state.None?
          || storage[ThemeStorageKey].state.value.theme.None?
    ensures RestoredTheme(storage) == System
  {
  }

  /** The theme store together with the two pieces of browser state it
      writes: the root element's classes and localStorage. */
  class ThemeStore {
    var theme: Theme
    var rootClasses: set<string>
    var localStorage: map<string, Persisted>

    /** `create` starts at `System` and touches neither the page nor storage. */
    constructor (classes: set<string>, storage: map<string, Persisted>)
      ensures theme == System && rootClasses == classes && localStorage == storage
    {
      theme, rootClasses, localStorage := System, classes, storage;
    }

    /** `applyTheme`: remove both mode classes, then add one. */
    method ApplyTheme(t: Theme, prefersDark: bool)
      modifies this`rootClasses
      ensures rootClasses == ThemedClasses(old(rootClasses), t, prefersDark)
    {
      rootClasses := rootClasses - {"dark", "light"};
      if t == System {
        var systemTheme := if prefersDark then Dark else Light;
        rootClasses := rootClasses + {ThemeValue(systemTheme)};
      } else {
        rootClasses := rootClasses + {ThemeValue(t)};
      }
    }

    /** `setTheme`: record the theme, apply it, persist it. */
    method SetTheme(t: Theme, prefersDark: bool)
      modifies this
      ensures theme == t
      ensures rootClasses == ThemedClasses(old(rootClasses), t, prefersDark)
      ensures localStorage == old(localStorage)[ThemeStorageKey := Record(t)]
    {
      theme := t;
      ApplyTheme(t, prefersDark);
      localStorage := localStorage[ThemeStorageKey := Record(t)];
    }

    /** The module-load block: read the stored record back and set it. */
    method Restore(prefersDark: bool)
      modifies this
      ensures theme == RestoredTheme(old(localStorage))
      ensures rootClasses == ThemedClasses(old(rootClasses), theme, prefersDark)
      ensures localStorage == old(localStorage)[ThemeStorageKey := Record(theme)]
    {
      var restored := System;
      if ThemeStorageKey in localStorage {
        var stored := localStorage[ThemeStorageKey];
        if stored.state.Some? && stored.state.value.theme.Some? {
          restored := stored.state.value.theme.value;
        }
      }
      SetTheme(restored, prefersDark);
    }
  }

  /** A theme chosen in one page load is back after the next load's restore.
      The next load starts from the page's own markup and may see a different
      colour-scheme preference; its root then carries exactly one mode class
      and keeps every other class of the markup. */
  method ChoiceSurvivesReload(t: Theme, classes: set<string>, storage: map<string, Persisted>,
                              prefersDark: bool, reloadClasses: set<string>, reloadPrefersDark: bool)
    returns (restored: Theme, rootClasses: set<string>)
    ensures restored == t
    ensures ("dark" in rootClasses) != ("light" in rootClasses)
    ensures forall c :: c != "dark" && c != "light" ==> (c in rootClasses <==> c in reloadClasses)
  {
    var first := new ThemeStore(classes, storage);
    first.SetTheme(t, prefersDark);
    var second := new ThemeStore(reloadClasses, first.localStorage);
    second.Restore(reloadPrefersDark);
    RestoreRoundTrip(storage, t);
    ThemedClassesExactlyOneMode(reloadClasses, second.theme, reloadPrefersDark);
    restored, rootClasses := second.theme, second.rootClasses;
  }
}
