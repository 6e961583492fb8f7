/** The settings slice: two toggles and the interface language. */
module SettingsSlice {
  import opened Types

  datatype AppSettings = AppSettings(darkMode: bool, notifications: bool, language: Language)

  const InitialState: AppSettings := AppSettings(false, true, En)

  datatype SettingsAction = ToggleDarkMode | ToggleNotifications | SetLanguage(language: Language)

  /** The slice's reducer. */
  function Reduce(s: AppSettings, a: SettingsAction): (r: AppSettings)
    ensures a.ToggleDarkMode? ==> r.darkMode != s.darkMode && r.notifications == s.notifications && r.language == s.language
    ensures a.ToggleNotifications? ==> r.notifications != s.notifications && r.darkMode == s.darkMode && r.language == s.language
    ensures a.SetLanguage? ==> r.language == a.language && r.darkMode == s.darkMode && r.notifications == s.notifications
  {
    match a
    case ToggleDarkMode => s.(darkMode := !s.darkMode)
    case ToggleNotifications => s.(notifications := !s.notifications)
    case SetLanguage(l) => s.(language := l)
  }

  /** Settings start light, with notifications on, in English. */
  lemma InitialSettings()
    ensures !InitialState.darkMode && InitialState.notifications && InitialState.language == En
  {
  }

  /** Each toggle undoes itself. */
  lemma TogglesAreInvolutions(s: AppSettings)
    ensures Reduce(Reduce(s, ToggleDarkMode), ToggleDarkMode) == s
    ensures Reduce(Reduce(s, ToggleNotifications), ToggleNotifications) == s
  {
  }

  /** The two toggles commute. */
  lemma TogglesCommute(s: AppSettings)
    ensures Reduce(Reduce(s, ToggleDarkMode), ToggleNotifications)
         == Reduce(Reduce(s, ToggleNotifications), ToggleDarkMode)
  {
  }

  /** Setting a language twice is setting it once. */
  lemma SetLanguageIdempotent(s: AppSettings, l: Language)
    ensures Reduce(Reduce(s, SetLanguage(l)), SetLanguage(l)) == Reduce(s, SetLanguage(l))
  {
  }
}
