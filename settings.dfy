/**
 * The settings page: loading the notification preferences with their
 * defaults, the optimistic per-flag update with its revert, and the dark-mode
 * switch that also writes the stored theme.
 */
module Settings {
  import opened Types
  import opened Notifications

  const DefaultPreferences := Preferences(true, true, true, true)

  /** `{ ...prev, [key]: value }`: flag k reads back as value, every other flag as before. */
  function WithFlag(p: Preferences, k: PrefKey, value: bool): (r: Preferences)
    ensures PrefFlag(r, k) == value
    ensures forall j :: j != k ==> PrefFlag(r, j) == PrefFlag(p, j)
  {
    match k
    case NotifyOnDay => p.(notifyOnDay := value)
    case Notify1DayBefore => p.(notify1DayBefore := value)
    case Notify7DaysBefore => p.(notify7DaysBefore := value)
    case SoundEnabled => p.(soundEnabled := value)
  }

  /** Preferences are determined by their four flags. */
  lemma FlagsDetermine(p: Preferences, q: Preferences)
    requires forall k :: PrefFlag(p, k) == PrefFlag(q, k)
    ensures p == q
  {
    assert PrefFlag(p, NotifyOnDay) == PrefFlag(q, NotifyOnDay);
    assert PrefFlag(p, Notify1DayBefore) == PrefFlag(q, Notify1DayBefore);
    assert PrefFlag(p, Notify7DaysBefore) == PrefFlag(q, Notify7DaysBefore);
    assert PrefFlag(p, SoundEnabled) == PrefFlag(q, SoundEnabled);
  }

  /**
   * The revert writes the negation of the value sent. When the value sent
   * was the negation of the current flag, as the switches send it, the revert
   * gives back the preferences as they were; when it was the current value,
   * the flag ends up flipped.
   */
  lemma RevertAfterFailure(p: Preferences, k: PrefKey, value: bool)
    ensures value == !PrefFlag(p, k) ==> WithFlag(WithFlag(p, k, value), k, !value) == p
    ensures value == PrefFlag(p, k) ==> PrefFlag(WithFlag(WithFlag(p, k, value), k, !value), k) != PrefFlag(p, k)
  {
    if value == !PrefFlag(p, k) {
      FlagsDetermine(WithFlag(WithFlag(p, k, value), k, !value), p);
    }
  }

  /** `value ?? true` */
  function OrTrue(b: Option<bool>): bool
  {
    match b
    case Some(v) => v
    case None => true
  }

  /** A stored null loads as true and a stored boolean as itself. */
  function LoadPreferences(row: PreferencesRow): (r: Preferences)
    ensures forall k :: RowFlag(row, k).None? ==> PrefFlag(r, k)
    ensures forall k :: RowFlag(row, k).Some? ==> PrefFlag(r, k) == RowFlag(row, k).value
  {
    Preferences(OrTrue(row.notifyOnDay), OrTrue(row.notify1DayBefore), OrTrue(row.notify7DaysBefore), OrTrue(row.soundEnabled))
  }

  /**
   * The page and the reminder scan read the same row differently: a null
   * flag is on for the page and off for the scan; when no flag is null they
   * agree.
   */
  lemma PageAndScanReadNullFlagsApart(row: PreferencesRow, k: PrefKey)
    ensures RowFlag(row, k).None? ==> PrefFlag(LoadPreferences(row), k) && !PrefFlag(ScanPreferences(row), k)
    ensures (forall j :: RowFlag(row, j).Some?) ==> LoadPreferences(row) == ScanPreferences(row)
  {
    if forall j :: RowFlag(row, j).Some? {
      FlagsDetermine(LoadPreferences(row), ScanPreferences(row));
    }
  }

  class SettingsPage {
    var preferences: Preferences
    var isLoading: bool
    var isSaving: bool
    var isDarkMode: bool
    /** Whether the document element carries the 'dark' class. */
    var darkClass: bool
    /** localStorage 'theme'. */
    var storedTheme: Option<string>

    /** Before any row loads every flag is on. */
    constructor(darkClassPresent: bool, theme: Option<string>)
      ensures preferences == DefaultPreferences && isLoading && !isSaving
      ensures !isDarkMode && darkClass == darkClassPresent && storedTheme == theme
    {
      preferences := DefaultPreferences;
      isLoading := true;
      isSaving := false;
      isDarkMode := false;
      darkClass := darkClassPresent;
      storedTheme := theme;
    }

    /**
     * The mount effect: dark mode is read off the document; without a user
     * the fetch returns at once and the page stays loading; otherwise a row
     * read without error replaces the preferences, and loading ends either way.
     */
    method Mount(user: Option<User>, fetched: Option<PreferencesRow>)
      modifies this
      ensures isDarkMode == darkClass && darkClass == old(darkClass) && storedTheme == old(storedTheme)
      ensures user.None? ==> preferences == old(preferences) && isLoading == old(isLoading)
      ensures user.Some? ==> !isLoading
      ensures user.Some? ==> preferences == if fetched.Some? then LoadPreferences(fetched.value) else old(preferences)
      ensures isSaving == old(isSaving)
    {
      isDarkMode := darkClass;
      if user.None? {
        return;
      }
      if fetched.Some? {
        preferences := LoadPreferences(fetched.value);
      }
      isLoading := false;
    }

    /**
     * updatePreference up to its await: without a user nothing happens;
     * otherwise the flag takes the new value at once, saving starts, and the
     * write of that one column is requested.
     */
    method StartUpdatePreference(user: Option<User>, k: PrefKey, value: bool) returns (write: Option<(PrefKey, bool)>)
      modifies this
      ensures user.None? ==> write.None? && preferences == old(preferences) && isSaving == old(isSaving)
      ensures user.Some? ==> write == Some((k, value)) && preferences == WithFlag(old(preferences), k, value) && isSaving
      ensures isLoading == old(isLoading) && isDarkMode == old(isDarkMode)
      ensures darkClass == old(darkClass) && storedTheme == old(storedTheme)
    {
      write := None;
      if user.None? {
        return;
      }
      preferences := WithFlag(preferences, k, value);
      isSaving := true;
      write := Some((k, value));
    }

    /**
     * updatePreference after its await: saving ends on success and on
     * failure; a failed write raises the error toast and sets the flag to the
     * negation of the value sent.
     */
    method FinishUpdatePreference(k: PrefKey, value: bool, failed: bool) returns (toast: Option<Toast>)
      modifies this
      ensures !isSaving
      ensures toast == if failed then Some(Toast("Error", "Failed to update preferences", true)) else None
      ensures preferences == if failed then WithFlag(old(preferences), k, !value) else old(preferences)
      ensures isLoading == old(isLoading) && isDarkMode == old(isDarkMode)
      ensures darkClass == old(darkClass) && storedTheme == old(storedTheme)
    {
      isSaving := false;
      toast := None;
      if failed {
        toast := Some(Toast("Error", "Failed to update preferences", true));
        preferences := WithFlag(preferences, k, !value);
      }
    }

    /** toggleDarkMode: the mode flips, the class follows it, and the theme stored is 'dark' exactly when it is on. */
    method ToggleDarkMode()
      modifies this
      ensures isDarkMode == !old(isDarkMode) && darkClass == isDarkMode
      ensures storedTheme == Some(if isDarkMode then "dark" else "light")
      ensures preferences == old(preferences) && isLoading == old(isLoading) && isSaving == old(isSaving)
    {
      var newMode := !isDarkMode;
      isDarkMode := newMode;
      if newMode {
        darkClass := true;
        storedTheme := Some("dark");
      } else {
        darkClass := false;
        storedTheme := Some("light");
      }
    }
  }
}
