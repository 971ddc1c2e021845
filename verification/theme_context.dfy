/** The colour-theme state: a chosen mode (light, dark, or following the
    system), whether the dark palette is in use, and the persisted choice. */
module ThemeContext {
  import opened Common
  import opened DeviceStorage

  /** `STORAGE_KEYS.THEME`. */
  const ThemeKey: string := "@TodoApp:theme"

  datatype ThemeMode = Light | Dark | System

  datatype Palette = LightColors | DarkColors

  /** The stored text of a mode. */
  function ModeText(m: ThemeMode): string {
    match m
    case Light => "light"
    case Dark => "dark"
    case System => "system"
  }

  /** `loadThemeMode`'s check: a saved value is a mode only when it is one of
      the three texts. */
  function ParseMode(saved: Option<string>): (r: Option<ThemeMode>)
    ensures r.Some? <==> saved.Some? && saved.value in {"light", "dark", "system"}
    ensures r.Some? ==> ModeText(r.value) == saved.value
  {
    match saved
    case Some("light") => Some(Light)
    case Some("dark") => Some(Dark)
    case Some("system") => Some(System)
    case _ => None
  }

  /** A stored mode reads back as itself. */
  lemma ParseModeText(m: ThemeMode)
    ensures ParseMode(Some(ModeText(m))) == Some(m)
  {
  }

  /** The `isDark` rule: the system's scheme when following it, otherwise
      whether the mode is dark. */
  function DarkFor(mode: ThemeMode, systemDark: bool): (dark: bool)
    ensures mode != System ==> (dark <==> mode == Dark)
    ensures mode == System ==> dark == systemDark
  {
    if mode == System then systemDark else mode == Dark
  }

  class ThemeProvider {
    var mode: ThemeMode
    var isDark: bool
    /** `useColorScheme() === 'dark'`, as last reported by the platform. */
    var systemDark: bool

    /** After every effect run, `isDark` follows the rule. */
    predicate Valid()
      reads this
    {
      isDark == DarkFor(mode, systemDark)
    }

    /** Starts in `system` mode with the platform's scheme. */
    constructor (systemDark: bool)
      ensures mode == System && this.systemDark == systemDark && isDark == systemDark
      ensures Valid()
    {
      mode := System;
      isDark := systemDark;
      this.systemDark := systemDark;
    }

    /** The effect on `[mode, systemColorScheme]`. */
    method ApplyMode()
      modifies this
      ensures mode == old(mode) && systemDark == old(systemDark)
      ensures Valid()
    {
      if mode == System {
        isDark := systemDark;
      } else {
        isDark := mode == Dark;
      }
    }

    /** The platform switched between light and dark. */
    method SystemSchemeChanged(dark: bool)
      modifies this
      ensures mode == old(mode) && systemDark == dark
      ensures Valid()
    {
      systemDark := dark;
      ApplyMode();
    }

    /** `loadThemeMode`: adopts a valid saved mode; a missing or unknown
      value, or a failed read, leaves the mode as it was. */
    method LoadThemeMode(store: Store, readFails: bool)
      modifies this
      ensures systemDark == old(systemDark) && Valid()
      ensures !readFails && ThemeKey in store.entries && ParseMode(Some(store.entries[ThemeKey])).Some? ==>
        mode == ParseMode(Some(store.entries[ThemeKey])).value
      ensures readFails || ThemeKey !in store.entries || ParseMode(Some(store.entries[ThemeKey])).None? ==>
        mode == old(mode)
    {
      var saved := store.GetItem(ThemeKey, readFails);
      if saved.Ok? {
        var parsed := ParseMode(saved.value);
        if parsed.Some? {
          mode := parsed.value;
        }
      }
      ApplyMode();
    }

    /** `setThemeMode`: the mode changes first; the write is attempted
      afterwards, and a failed write neither reverts the mode nor surfaces. */
    method SetThemeMode(newMode: ThemeMode, store: Store, writeFails: bool)
      modifies this, store
      ensures mode == newMode && systemDark == old(systemDark) && Valid()
      ensures !writeFails ==> store.entries == old(store.entries)[ThemeKey := ModeText(newMode)]
      ensures writeFails ==> store.entries == old(store.entries)
    {
      mode := newMode;
      var _ := store.SetItem(ThemeKey, ModeText(newMode), writeFails);
      ApplyMode();
    }

    /** `colors`: the dark palette exactly when `isDark`. */
    function Colors(): (p: Palette)
      reads this
      ensures p == DarkColors <==> isDark
    {
      if isDark then DarkColors else LightColors
    }
  }

  /** A saved choice survives a restart: after a successful `setThemeMode`,
      loading on a fresh provider adopts the same mode. */
  method SaveThenLoad(m: ThemeMode, store: Store, systemDark: bool) returns (theme: ThemeProvider)
    modifies store
    ensures theme.mode == m && theme.Valid()
    ensures store.entries == old(store.entries)[ThemeKey := ModeText(m)]
  {
    var first := new ThemeProvider(systemDark);
    first.SetThemeMode(m, store, false);
    theme := new ThemeProvider(systemDark);
    ParseModeText(m);
    theme.LoadThemeMode(store, false);
  }
}
