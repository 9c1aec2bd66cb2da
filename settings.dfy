/**
 * `SettingsViewModel`: the settings state, the auto-lock label derived from
 * the timeout, and the updates the settings screen makes. Each update that the
 * Kotlin code persists returns the value it hands to the preferences store.
 */
module Settings {
  import opened Wrappers
  import opened Text

  /** `getAutoLockLabel`: the preset timeouts by name, anything else in milliseconds. */
  function AutoLockLabel(milliseconds: int): string {
    match milliseconds
    case 0 => "Immediately"
    case 30000 => "30 seconds"
    case 60000 => "1 minute"
    case 300000 => "5 minutes"
    case 900000 => "15 minutes"
    case -1 => "Never"
    case _ => IntToString(milliseconds) + " ms"
  }

  /** Reads a timeout back from its label. */
  function TimeoutOfLabel(shown: string): Option<int> {
    if shown == "Immediately" then Some(0)
    else if shown == "30 seconds" then Some(30000)
    else if shown == "1 minute" then Some(60000)
    else if shown == "5 minutes" then Some(300000)
    else if shown == "15 minutes" then Some(900000)
    else if shown == "Never" then Some(-1)
    else if |shown| >= 3 && shown[|shown| - 3..] == " ms" then ParseInt(shown[..|shown| - 3])
    else None
  }

  /** Every label reads back as its timeout, so no two timeouts share a label. */
  lemma AutoLockLabelReadsBack(milliseconds: int)
    ensures TimeoutOfLabel(AutoLockLabel(milliseconds)) == Some(milliseconds)
  {
    var shown := AutoLockLabel(milliseconds);
    if milliseconds !in {0, 30000, 60000, 300000, 900000, -1} {
      var digits := IntToString(milliseconds);
      assert shown == digits + " ms";
      assert shown[|shown| - 2] == 'm';
      assert shown[|shown| - 3..] == " ms";
      assert shown[..|shown| - 3] == digits;
      IntToStringRoundTrip(milliseconds);
    }
  }

  lemma AutoLockLabelInjective(a: int, b: int)
    requires AutoLockLabel(a) == AutoLockLabel(b)
    ensures a == b
  {
    AutoLockLabelReadsBack(a);
    AutoLockLabelReadsBack(b);
  }

  /** `SettingsState`. */
  datatype SettingsState = SettingsState(
    biometricEnabled: bool,
    autoLockTimeout: int,
    autoLockLabel: string,
    theme: string,
    themeLabel: string,
    dynamicColors: bool,
    clipboardTimeout: int,
    showPasswordOnCopy: bool)

  const DefaultSettingsState := SettingsState(false, 300000, "5 minutes", "System", "System", true, 30, false)

  /** The label always describes the timeout. */
  predicate LabelMatches(s: SettingsState) {
    s.autoLockLabel == AutoLockLabel(s.autoLockTimeout)
  }

  /** The default state's label is the one its timeout would get. */
  lemma DefaultLabelMatches()
    ensures LabelMatches(DefaultSettingsState)
    ensures TimeoutOfLabel(DefaultSettingsState.autoLockLabel) == Some(DefaultSettingsState.autoLockTimeout)
  {
    AutoLockLabelReadsBack(300000);
  }

  class SettingsViewModel {
    var state: SettingsState

    predicate Valid()
      reads this
    {
      LabelMatches(state)
    }

    constructor ()
      ensures state == DefaultSettingsState
      ensures Valid()
    {
      state := DefaultSettingsState;
    }

    /** One emission of the stored biometric flag. */
    method OnBiometricEnabled(enabled: bool)
      requires Valid()
      modifies this
      ensures Valid()
      ensures state == old(state).(biometricEnabled := enabled)
    {
      state := state.(biometricEnabled := enabled);
    }

    /** One emission of the stored auto-lock timeout. */
    method OnAutoLockTimeout(timeout: int)
      modifies this
      ensures Valid()
      ensures state == old(state).(autoLockTimeout := timeout, autoLockLabel := AutoLockLabel(timeout))
    {
      state := state.(autoLockTimeout := timeout, autoLockLabel := AutoLockLabel(timeout));
    }

    /** `toggleBiometric`: stores and shows the negation of the current flag. */
    method ToggleBiometric() returns (persisted: bool)
      requires Valid()
      modifies this
      ensures Valid()
      ensures persisted == !old(state.biometricEnabled)
      ensures state == old(state).(biometricEnabled := persisted)
    {
      var newValue := !state.biometricEnabled;
      persisted := newValue;
      state := state.(biometricEnabled := newValue);
    }

    /** `setAutoLockTimeout`: stores the timeout and shows it with its label. */
    method SetAutoLockTimeout(milliseconds: int) returns (persisted: int)
      modifies this
      ensures Valid()
      ensures persisted == milliseconds
      ensures state == old(state).(autoLockTimeout := milliseconds, autoLockLabel := AutoLockLabel(milliseconds))
    {
      persisted := milliseconds;
      state := state.(autoLockTimeout := milliseconds, autoLockLabel := AutoLockLabel(milliseconds));
    }

    /** `setTheme`: the theme and its label become the same value. */
    method SetTheme(theme: string) returns (persisted: string)
      requires Valid()
      modifies this
      ensures Valid()
      ensures persisted == theme && state.theme == theme && state.themeLabel == theme
      ensures state == old(state).(theme := theme, themeLabel := theme)
    {
      persisted := theme;
      state := state.(theme := theme, themeLabel := theme);
    }

    /** Not persisted: only the state flips. */
    method ToggleDynamicColors()
      requires Valid()
      modifies this
      ensures Valid()
      ensures state == old(state).(dynamicColors := !old(state.dynamicColors))
    {
      state := state.(dynamicColors := !state.dynamicColors);
    }

    method ToggleShowPasswordOnCopy()
      requires Valid()
      modifies this
      ensures Valid()
      ensures state == old(state).(showPasswordOnCopy := !old(state.showPasswordOnCopy))
    {
      state := state.(showPasswordOnCopy := !state.showPasswordOnCopy);
    }
  }
}
