/**
 * The security part of the Android profile screen: the two-step PIN setup
 * dialog, the change-password dialog's checks, and the PIN and biometric
 * switches with the preference writes they launch. The preference store is
 * written asynchronously; the model records the writes in launch order.
 */
module ProfileSecurity {
  import opened Models
  import opened Text

  const PIN_LENGTH_ERROR := "PIN must be 4 digits"
  const PIN_MISMATCH_ERROR := "PINs don't match"

  /** An edit the PIN field accepts: at most 4 characters, all digits. */
  predicate AcceptsPinEdit(value: string) {
    |value| <= 4 && AllDigits(value)
  }

  /** A complete PIN. */
  predicate IsPin(value: string) {
    |value| == 4 && AllDigits(value)
  }

  /** `PinSetupDialog`'s state: step 1 enters the PIN, step 2 repeats it. */
  class PinSetup {
    var pin: string
    var confirmPin: string
    var step: int
    var error: Option<string>

    /** Both fields only ever hold accepted edits, and step 2 is reached
        only with a complete PIN. */
    predicate Valid()
      reads this
    {
      (step == 1 || step == 2) && AcceptsPinEdit(pin) && AcceptsPinEdit(confirmPin) &&
      (step == 2 ==> IsPin(pin))
    }

    constructor ()
      ensures Valid() && pin == "" && confirmPin == "" && step == 1 && error.None?
    {
      pin, confirmPin, step, error := "", "", 1, None;
    }

    /** The text field's `onValueChange`: an accepted edit replaces the
        current step's field and clears the error; any other edit is
        ignored. */
    method Edit(value: string)
      requires Valid()
      modifies this
      ensures Valid() && step == old(step)
      ensures AcceptsPinEdit(value) ==>
                error.None? &&
                (if step == 1 then pin == value && confirmPin == old(confirmPin)
                 else confirmPin == value && pin == old(pin))
      ensures !AcceptsPinEdit(value) ==>
                pin == old(pin) && confirmPin == old(confirmPin) && error == old(error)
    {
      if AcceptsPinEdit(value) {
        if step == 1 {
          pin := value;
        } else {
          confirmPin := value;
        }
        error := None;
      }
    }

    /** The confirm button. In step 1 it advances only on a complete PIN;
        in step 2 it hands the PIN to `onConfirm` when the repetition
        matches, and otherwise clears the repetition. Returns what
        `onConfirm` receives, if it is called. */
    method Confirm() returns (confirmed: Option<string>)
      requires Valid()
      modifies this
      ensures Valid() && pin == old(pin)
      ensures old(step) == 1 && IsPin(pin) ==>
                step == 2 && confirmPin == old(confirmPin) && error == old(error) && confirmed.None?
      ensures old(step) == 1 && !IsPin(pin) ==>
                step == 1 && confirmPin == old(confirmPin) && error == Some(PIN_LENGTH_ERROR) && confirmed.None?
      ensures old(step) == 2 && old(confirmPin) == pin ==>
                step == 2 && confirmPin == old(confirmPin) && error == old(error) && confirmed == Some(pin)
      ensures old(step) == 2 && old(confirmPin) != pin ==>
                step == 2 && confirmPin == "" && error == Some(PIN_MISMATCH_ERROR) && confirmed.None?
      // the PIN handed on is four digits, entered twice
      ensures confirmed.Some? ==> IsPin(confirmed.value) && confirmed.value == old(pin) == old(confirmPin)
    {
      confirmed := None;
      if step == 1 {
        if |pin| == 4 {
          step := 2;
        } else {
          error := Some(PIN_LENGTH_ERROR);
        }
      } else {
        if confirmPin == pin {
          confirmed := Some(pin);
        } else {
          error := Some(PIN_MISMATCH_ERROR);
          confirmPin := "";
        }
      }
    }
  }

  const PASSWORD_REQUIRED := "Current password is required"
  const PASSWORD_TOO_SHORT := "New password must be at least 6 characters"
  const PASSWORD_MISMATCH := "Passwords don't match"

  /** The change-password checks, in order: the first failing one's
      message, or `None` when the request may go ahead. */
  function PasswordError(oldPassword: string, newPassword: string, confirmPassword: string): (r: Option<string>)
    ensures r.None? <==> oldPassword != "" && |newPassword| >= 6 && newPassword == confirmPassword
    ensures r.Some? ==> r.value in {PASSWORD_REQUIRED, PASSWORD_TOO_SHORT, PASSWORD_MISMATCH}
  {
    if oldPassword == "" then Some(PASSWORD_REQUIRED)
    else if |newPassword| < 6 then Some(PASSWORD_TOO_SHORT)
    else if newPassword != confirmPassword then Some(PASSWORD_MISMATCH)
    else None
  }

  /** Which message shows is decided by the first failing check: a missing
      current password hides both other problems, and a short new password
      hides a mismatch. */
  lemma PasswordChecksInOrder(oldPassword: string, newPassword: string, confirmPassword: string)
    ensures PasswordError(oldPassword, newPassword, confirmPassword) == Some(PASSWORD_REQUIRED) <==> oldPassword == ""
    ensures PasswordError(oldPassword, newPassword, confirmPassword) == Some(PASSWORD_TOO_SHORT) <==>
              oldPassword != "" && |newPassword| < 6
    ensures PasswordError(oldPassword, newPassword, confirmPassword) == Some(PASSWORD_MISMATCH) <==>
              oldPassword != "" && |newPassword| >= 6 && newPassword != confirmPassword
  {
  }

  /** `ChangePasswordDialog`'s fields and error line. */
  class ChangePassword {
    var oldPassword: string
    var newPassword: string
    var confirmPassword: string
    var error: Option<string>

    constructor ()
      ensures oldPassword == "" && newPassword == "" && confirmPassword == "" && error.None?
    {
      oldPassword, newPassword, confirmPassword, error := "", "", "", None;
    }

    /** Any of the three fields: take the text, clear the error. */
    method EditOld(value: string)
      modifies this
      ensures oldPassword == value && error.None?
      ensures newPassword == old(newPassword) && confirmPassword == old(confirmPassword)
    {
      oldPassword := value;
      error := None;
    }

    method EditNew(value: string)
      modifies this
      ensures newPassword == value && error.None?
      ensures oldPassword == old(oldPassword) && confirmPassword == old(confirmPassword)
    {
      newPassword := value;
      error := None;
    }

    method EditConfirm(value: string)
      modifies this
      ensures confirmPassword == value && error.None?
      ensures oldPassword == old(oldPassword) && newPassword == old(newPassword)
    {
      confirmPassword := value;
      error := None;
    }

    /** The confirm button: the first failing check's message, or the
        current and new passwords handed to `onConfirm`. */
    method Confirm() returns (submitted: Option<(string, string)>)
      modifies this`error
      ensures PasswordError(oldPassword, newPassword, confirmPassword).Some? ==>
                error == PasswordError(oldPassword, newPassword, confirmPassword) && submitted.None?
      ensures PasswordError(oldPassword, newPassword, confirmPassword).None? ==>
                error == old(error) && submitted == Some((oldPassword, newPassword))
      ensures submitted.Some? ==> |submitted.value.1| >= 6 && submitted.value.1 == confirmPassword && submitted.value.0 != ""
    {
      var failure := PasswordError(oldPassword, newPassword, confirmPassword);
      if failure.Some? {
        error := failure;
        submitted := None;
      } else {
        submitted := Some((oldPassword, newPassword));
      }
    }
  }

  /** A preference write launched by a switch or by the PIN setup. */
  datatype PreferenceWrite =
    | SetPinEnabled(enabled: bool)
    | SetBiometricEnabled(enabled: bool)
    | SetPinHash(pin: string)

  /** The screen's PIN and biometric switches, the setup dialog's
      visibility, and the preference writes launched so far. */
  class SecuritySettings {
    var isPinEnabled: bool
    var isBiometricEnabled: bool
    var showPinSetupDialog: bool
    var writes: seq<PreferenceWrite>

    /** Biometric unlock is on only together with the PIN. */
    predicate Coupled()
      reads this
    {
      isBiometricEnabled ==> isPinEnabled
    }

    constructor ()
      ensures !isPinEnabled && !isBiometricEnabled && !showPinSetupDialog && writes == []
      ensures Coupled()
    {
      isPinEnabled, isBiometricEnabled, showPinSetupDialog, writes := false, false, false, [];
    }

    /** The `LaunchedEffect` that copies the stored flags in. */
    method Load(pinStored: bool, biometricStored: bool)
      modifies this`isPinEnabled, this`isBiometricEnabled
      ensures isPinEnabled == pinStored && isBiometricEnabled == biometricStored
      ensures Coupled() <==> (biometricStored ==> pinStored)
    {
      isPinEnabled := pinStored;
      isBiometricEnabled := biometricStored;
    }

    /** The PIN switch: turning it on only opens the setup dialog; turning
        it off clears both flags and launches both writes. */
    method TogglePin(newValue: bool)
      modifies this
      ensures newValue ==>
                showPinSetupDialog && isPinEnabled == old(isPinEnabled) &&
                isBiometricEnabled == old(isBiometricEnabled) && writes == old(writes)
      ensures !newValue ==>
                !isPinEnabled && !isBiometricEnabled && showPinSetupDialog == old(showPinSetupDialog) &&
                writes == old(writes) + [SetPinEnabled(false), SetBiometricEnabled(false)]
      ensures old(Coupled()) || !newValue ==> Coupled()
    {
      if newValue {
        showPinSetupDialog := true;
      } else {
        isPinEnabled := false;
        isBiometricEnabled := false;
        writes := writes + [SetPinEnabled(false), SetBiometricEnabled(false)];
      }
    }

    /** The biometric switch, which the screen shows only while the PIN is
        enabled. */
    method ToggleBiometric(newValue: bool)
      requires isPinEnabled
      modifies this`isBiometricEnabled, this`writes
      ensures isBiometricEnabled == newValue && writes == old(writes) + [SetBiometricEnabled(newValue)]
      ensures Coupled()
    {
      isBiometricEnabled := newValue;
      writes := writes + [SetBiometricEnabled(newValue)];
    }

    /** The setup dialog's `onDismiss`. */
    method DismissPinSetup()
      modifies this`showPinSetupDialog
      ensures !showPinSetupDialog
    {
      showPinSetupDialog := false;
    }

    /** The setup dialog's `onConfirm(pin)`. */
    method PinSetupConfirmed(pin: string)
      modifies this`isPinEnabled, this`showPinSetupDialog, this`writes
      ensures isPinEnabled && !showPinSetupDialog
      ensures writes == old(writes) + [SetPinEnabled(true), SetPinHash(pin)]
      ensures Coupled()
    {
      isPinEnabled := true;
      showPinSetupDialog := false;
      writes := writes + [SetPinEnabled(true), SetPinHash(pin)];
    }

    /** The open setup dialog's confirm button together with what the
        screen does with its result: the PIN is enabled and stored only
        once a four-digit PIN has been entered twice. */
    method ConfirmPinSetup(dialog: PinSetup) returns (confirmed: Option<string>)
      requires dialog.Valid() && Coupled()
      modifies this, dialog
      ensures dialog.Valid() && Coupled()
      ensures confirmed.Some? ==>
                IsPin(confirmed.value) && isPinEnabled && !showPinSetupDialog &&
                writes == old(writes) + [SetPinEnabled(true), SetPinHash(confirmed.value)]
      ensures confirmed.None? ==>
                isPinEnabled == old(isPinEnabled) && showPinSetupDialog == old(showPinSetupDialog) && writes == old(writes)
    {
      confirmed := dialog.Confirm();
      if confirmed.Some? {
        PinSetupConfirmed(confirmed.value);
      }
    }
  }
}
