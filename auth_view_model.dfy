/**
 * The Android sign-in screen's view model: whether a session exists, and
 * the progress of the current sign-in or sign-up request. The
 * authentication service is an oracle: each call's outcome is a parameter.
 */
module Auth {
  import opened Models

  datatype AuthState = Loading | Authenticated | Unauthenticated

  datatype LoginState = Idle | Loading | Success | Error(message: string)

  const UNKNOWN_ERROR := "An unknown error occurred"

  /** The message a failed request shows: the exception's own message, or
      the fallback for a null one. */
  function FailureMessage(message: Option<string>): (m: string)
    ensures message.Some? ==> m == message.value
    ensures message.None? ==> m == UNKNOWN_ERROR
  {
    if message.Some? then message.value else UNKNOWN_ERROR
  }

  /** The login state a finished request leaves. */
  function Finished(outcome: Outcome): (s: LoginState)
    ensures s.Success? <==> outcome.Ok?
    ensures outcome.Thrown? ==> s == Error(FailureMessage(outcome.message))
    ensures !s.Idle? && !s.Loading?
  {
    if outcome.Ok? then LoginState.Success else Error(FailureMessage(outcome.message))
  }

  /** The view model's two state flows, with every value the login flow has
      been given, in order. */
  class AuthViewModel {
    var authState: AuthState
    var loginState: LoginState
    var loginHistory: seq<LoginState>

    /** The view model as built: its `init` launches the session check,
        which has not completed yet. */
    constructor ()
      ensures authState == AuthState.Loading && loginState == Idle && loginHistory == []
    {
      authState, loginState, loginHistory := AuthState.Loading, Idle, [];
    }

    /** `checkAuthState`, with the repository's `isLoggedIn` answer. */
    method CheckAuthState(isLoggedIn: bool)
      modifies this`authState
      ensures authState == if isLoggedIn then Authenticated else Unauthenticated
      ensures authState == Authenticated <==> isLoggedIn
    {
      if isLoggedIn {
        authState := Authenticated;
      } else {
        authState := Unauthenticated;
      }
    }

    /** `login`, with the outcome of the repository's sign-in: the login
        flow shows progress, then the result; only a success authenticates. */
    method Login(signIn: Outcome)
      modifies this`authState, this`loginState, this`loginHistory
      ensures loginHistory == old(loginHistory) + [LoginState.Loading, loginState]
      ensures loginState == Finished(signIn)
      ensures signIn.Ok? ==> loginState == LoginState.Success && authState == Authenticated
      ensures signIn.Thrown? ==> loginState == Error(FailureMessage(signIn.message)) && authState == old(authState)
    {
      loginState := LoginState.Loading;
      loginHistory := loginHistory + [loginState];
      if signIn.Ok? {
        loginState := LoginState.Success;
        loginHistory := loginHistory + [loginState];
        authState := Authenticated;
      } else {
        loginState := Error(FailureMessage(signIn.message));
        loginHistory := loginHistory + [loginState];
      }
    }

    /** `signup`, with the outcome of the repository's sign-up: the same
        progress and result, but the session state is never touched. */
    method Signup(signUp: Outcome)
      modifies this`loginState, this`loginHistory
      ensures loginHistory == old(loginHistory) + [LoginState.Loading, loginState]
      ensures loginState == Finished(signUp)
      ensures authState == old(authState)
    {
      loginState := LoginState.Loading;
      loginHistory := loginHistory + [loginState];
      loginState := Finished(signUp);
      loginHistory := loginHistory + [loginState];
    }
  }
}
