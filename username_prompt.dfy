/**
 * The web app's "Create Your Username" dialog: the username validator, and
 * the submit handler that validates, checks uniqueness and stores the
 * lower-cased name. The profile table and the auth session are oracles the
 * handler's caller supplies.
 */
module Username {
  import opened Models
  import opened Text

  const TOO_SHORT := "Username must be at least 3 characters"
  const TOO_LONG := "Username must be less than 20 characters"
  const BAD_CHARS := "Username can only contain letters, numbers, and underscores"
  const TAKEN := "Username is already taken"
  const NOT_AUTHENTICATED := "Not authenticated"
  /** The message for a thrown value that is not an `Error`. */
  const SET_FAILED := "Failed to set username"

  /** A character of the class `[a-zA-Z0-9_]`. */
  predicate IsNameChar(c: char) {
    IsAsciiLetter(c) || IsDigit(c) || c == '_'
  }

  predicate AllNameChars(s: string) {
    forall i :: 0 <= i < |s| ==> IsNameChar(s[i])
  }

  /** `validateUsername`: the first failing check's message, or `None`. */
  function ValidateUsername(value: string): (r: Option<string>)
    ensures r.None? <==> 3 <= |value| <= 20 && AllNameChars(value)
    ensures r.Some? ==> r.value == TOO_SHORT || r.value == TOO_LONG || r.value == BAD_CHARS
  {
    if |value| < 3 then Some(TOO_SHORT)
    else if |value| > 20 then Some(TOO_LONG)
    else if !AllNameChars(value) then Some(BAD_CHARS)
    else None
  }

  /** The checks run in order: a short name reports its length whatever its
      characters, a long one too, and the character message only comes for a
      name of acceptable length. */
  lemma ValidationOrder(value: string)
    ensures ValidateUsername(value) == Some(TOO_SHORT) <==> |value| < 3
    ensures ValidateUsername(value) == Some(TOO_LONG) <==> |value| > 20
    ensures ValidateUsername(value) == Some(BAD_CHARS) <==> 3 <= |value| <= 20 && !AllNameChars(value)
  {
  }

  /** A name of exactly 20 characters passes, although the message for long
      names says "less than 20". */
  lemma TwentyIsAccepted()
    ensures ValidateUsername("abcdefghij0123456789") == None
  {
    var s := "abcdefghij0123456789";
    assert |s| == 20;
    assert AllNameChars(s);
  }

  /** Lower-casing neither makes a valid name invalid nor an invalid one
      valid, and gives the same message: so the lower-cased name the handler
      stores passes the validator exactly when what the user typed did. */
  lemma {:induction false} ValidateLowered(value: string)
    ensures ValidateUsername(ToLower(value)) == ValidateUsername(value)
  {
    ToLowerKeepsClasses(value);
    var low := ToLower(value);
    assert AllNameChars(low) <==> AllNameChars(value) by {
      assert forall i :: 0 <= i < |value| ==> (IsNameChar(low[i]) <==> IsNameChar(value[i]));
    }
  }

  /** A name that passes the validator is not blank, so the submit button is
      never disabled for a valid name while nothing is loading. */
  lemma ValidIsNotBlank(value: string)
    requires ValidateUsername(value).None?
    ensures !IsJsBlank(value)
  {
    assert IsNameChar(value[0]) && !IsJsWhitespace(value[0]);
  }

  /** A request the handler makes of the profile table. */
  datatype Request =
    | Lookup(username: string)                   // select id where username
    | Store(userId: string, username: string)    // update username where id

  /** The message a `catch (err)` shows: an `Error`'s own message, or the
      fallback for anything else thrown. */
  function CaughtMessage(thrown: Option<string>): (m: string)
    ensures thrown.Some? ==> m == thrown.value
    ensures thrown.None? ==> m == SET_FAILED
  {
    if thrown.Some? then thrown.value else SET_FAILED
  }

  /** The dialog's state: the text field, the loading flag, the error line,
      and the log of requests made to the profile table. */
  class UsernamePrompt {
    var username: string
    var loading: bool
    var error: string
    var requests: seq<Request>

    constructor ()
      ensures username == "" && !loading && error == "" && requests == []
    {
      username, loading, error, requests := "", false, "", [];
    }

    /** The input's `onChange`: take the text and clear the error. */
    method OnChange(value: string)
      modifies this
      ensures username == value && error == ""
      ensures loading == old(loading) && requests == old(requests)
    {
      username := value;
      error := "";
    }

    /** The submit button's `disabled`. */
    function SubmitDisabled(): (b: bool)
      reads this
      // always while loading; never for a name the validator accepts while idle
      ensures loading ==> b
      ensures !loading && ValidateUsername(username).None? ==> !b
    {
      var blank := IsJsBlank(username);
      if ValidateUsername(username).None? then
        ValidIsNotBlank(username);
        loading || blank
      else loading || blank
    }

    /** `handleSubmit`. `user` is the signed-in user's id (`None` for no
        session), `taken` whether the lookup found a profile with the name,
        and `stored` how the update ends (`Thrown(None)` for a thrown value
        that is not an `Error`). Returns what `onComplete` receives, if it
        is called. */
    method HandleSubmit(user: Option<string>, taken: bool, stored: Outcome) returns (completed: Option<string>)
      modifies this
      ensures username == old(username)
      // a name the validator rejects: its message, and no request at all
      ensures ValidateUsername(username).Some? ==>
                error == ValidateUsername(username).value && loading == old(loading) &&
                requests == old(requests) && completed.None?
      // past validation, the dialog always ends not loading
      ensures ValidateUsername(username).None? ==> !loading
      ensures ValidateUsername(username).None? && user.None? ==>
                error == NOT_AUTHENTICATED && requests == old(requests) && completed.None?
      ensures ValidateUsername(username).None? && user.Some? && taken ==>
                error == TAKEN && requests == old(requests) + [Lookup(ToLower(username))] && completed.None?
      ensures ValidateUsername(username).None? && user.Some? && !taken ==>
                requests == old(requests) + [Lookup(ToLower(username)), Store(user.value, ToLower(username))]
      ensures ValidateUsername(username).None? && user.Some? && !taken && stored.Thrown? ==>
                error == CaughtMessage(stored.message) && completed.None?
      ensures ValidateUsername(username).None? && user.Some? && !taken && stored.Ok? ==>
                error == "" && completed == Some(ToLower(username))
      // whatever is completed is the lower-cased name and passes the validator
      ensures completed.Some? ==> completed.value == ToLower(username) && ValidateUsername(completed.value).None?
    {
      completed := None;
      var validationError := ValidateUsername(username);
      if validationError.Some? {
        error := validationError.value;
        return;
      }
      loading := true;
      error := "";
      if user.None? {
        error := NOT_AUTHENTICATED;
        loading := false;
        return;
      }
      var lowered := ToLower(username);
      requests := requests + [Lookup(lowered)];
      if taken {
        error := TAKEN;
        loading := false;
        return;
      }
      requests := requests + [Store(user.value, lowered)];
      if stored.Thrown? {
        error := CaughtMessage(stored.message);
        loading := false;
        return;
      }
      ValidateLowered(username);
      completed := Some(lowered);
      loading := false;
    }
  }
}
