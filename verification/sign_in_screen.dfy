/** The sign-in screen: email/password validation, the order of what a
    successful sign-in does, and how a failure is reported. The sign-in is
    an outside call whose failure is a parameter; setting the welcome flag
    is an outside call that swallows its own errors, so it always returns.
    What the screen does is recorded as a list of effects. */
module SignInScreen {
  import opened Common

  /** The alert a failed sign-in shows. */
  datatype SignInAlert =
    | AccountNotFound
    | WrongPassword
    | InvalidEmail
    | InvalidCredentials
    | SignInFailed(text: string)

  /** The email sign-in's classification by error code; any other code, or
      none, shows the message, or `fallback` when there is none. */
  function ClassifySignIn(e: Thrown, fallback: string): (a: SignInAlert)
    ensures a == AccountNotFound <==> e.code == Some("auth/user-not-found")
    ensures a == WrongPassword <==> e.code == Some("auth/wrong-password")
    ensures a == InvalidEmail <==> e.code == Some("auth/invalid-email")
    ensures a == InvalidCredentials <==> e.code == Some("auth/invalid-credential")
    ensures a.SignInFailed? ==> a.text == OptOr(e.message, fallback)
  {
    match e.code
    case Some("auth/user-not-found") => AccountNotFound
    case Some("auth/wrong-password") => WrongPassword
    case Some("auth/invalid-email") => InvalidEmail
    case Some("auth/invalid-credential") => InvalidCredentials
    case _ => SignInFailed(OptOr(e.message, fallback))
  }

  /** The screen a successful sign-in replaces this one with. */
  const Landing: string := "Landing"

  const EmailFallback: string := "Invalid email or password. Please try again."
  const GoogleFallback: string := "Unable to sign in with Google. Please try again."

  /** Both fields must be non-blank after trimming. */
  predicate CredentialsGiven(email: string, password: string) {
    !IsBlank(email) && !IsBlank(password)
  }

  datatype Effect =
    | ValidationAlert
    | CallSignIn(email: string, password: string)
    | CallGoogleSignIn
    | MarkWelcomeSeen
    | ReplaceWith(screen: string)
      /** An alert; `signUpWith` is the email the "Sign Up" choice carries
          to the sign-up screen, when the alert offers one. */
    | ShowAlert(alert: SignInAlert, signUpWith: Option<string>)
  {
    predicate IsAlert() {
      ValidationAlert? || ShowAlert?
    }
  }

  /** The alert for a failed email sign-in: a missing account offers to
      sign up with the typed email. */
  function EmailFailure(e: Thrown, email: string): (eff: Effect)
    ensures eff.ShowAlert? && eff.alert == ClassifySignIn(e, EmailFallback)
    ensures eff.signUpWith.Some? <==> e.code == Some("auth/user-not-found")
    ensures eff.signUpWith.Some? ==> eff.signUpWith.value == email
  {
    var a := ClassifySignIn(e, EmailFallback);
    ShowAlert(a, if a == AccountNotFound then Some(email) else None)
  }

  /** What one press of the email sign-in button does, in order: blank
      fields stop with an alert and no call; otherwise the sign-in is
      called, and on success the welcome flag is set and then the screen
      is replaced by `Landing`; a failed sign-in is classified. Setting the
      welcome flag swallows its own storage errors, so it never fails. */
  function EmailSignInSteps(email: string, password: string, signInError: Option<Thrown>): seq<Effect> {
    if !CredentialsGiven(email, password) then [ValidationAlert]
    else if signInError.Some? then [CallSignIn(email, password), EmailFailure(signInError.value, email)]
    else [CallSignIn(email, password), MarkWelcomeSeen, ReplaceWith(Landing)]
  }

  /** `handleGoogleSignIn`'s steps: the same success sequence; every
      failure, a cancelled account picker included, shows the generic alert. */
  function GoogleSignInSteps(signInError: Option<Thrown>): seq<Effect> {
    if signInError.Some? then [CallGoogleSignIn, ShowAlert(SignInFailed(OptOr(signInError.value.message, GoogleFallback)), None)]
    else [CallGoogleSignIn, MarkWelcomeSeen, ReplaceWith(Landing)]
  }

  /** The sign-in is called exactly when both fields are non-blank, and
      first; `Landing` is reached exactly when the sign-in succeeds, last
      and after the welcome flag was set; otherwise exactly one alert shows. */
  lemma EmailSignInOrder(email: string, password: string, signInError: Option<Thrown>)
    ensures var steps := EmailSignInSteps(email, password, signInError);
      && (CallSignIn(email, password) in steps <==> CredentialsGiven(email, password))
      && (CredentialsGiven(email, password) ==> steps[0] == CallSignIn(email, password))
      && (ReplaceWith(Landing) in steps <==> CredentialsGiven(email, password) && signInError.None?)
      && (ReplaceWith(Landing) in steps ==> steps[|steps| - 1] == ReplaceWith(Landing) && MarkWelcomeSeen in steps[..|steps| - 1])
      && (ReplaceWith(Landing) !in steps ==>
            steps[|steps| - 1].IsAlert() && forall k :: 0 <= k < |steps| - 1 ==> !steps[k].IsAlert())
  {
    EmailSignInCall(email, password, signInError);
    EmailSignInLanding(email, password, signInError);
    EmailSignInAlert(email, password, signInError);
  }

  lemma EmailSignInCall(email: string, password: string, signInError: Option<Thrown>)
    ensures var steps := EmailSignInSteps(email, password, signInError);
      && (CallSignIn(email, password) in steps <==> CredentialsGiven(email, password))
      && (CredentialsGiven(email, password) ==> steps[0] == CallSignIn(email, password))
  {
  }

  lemma EmailSignInLanding(email: string, password: string, signInError: Option<Thrown>)
    ensures var steps := EmailSignInSteps(email, password, signInError);
      && (ReplaceWith(Landing) in steps <==> CredentialsGiven(email, password) && signInError.None?)
      && (ReplaceWith(Landing) in steps ==> steps[|steps| - 1] == ReplaceWith(Landing) && MarkWelcomeSeen in steps[..|steps| - 1])
  {
    var steps := EmailSignInSteps(email, password, signInError);
    if CredentialsGiven(email, password) && signInError.None? {
      assert steps[..2] == [CallSignIn(email, password), MarkWelcomeSeen];
    }
  }

  lemma EmailSignInAlert(email: string, password: string, signInError: Option<Thrown>)
    ensures var steps := EmailSignInSteps(email, password, signInError);
      ReplaceWith(Landing) !in steps ==>
        steps[|steps| - 1].IsAlert() && forall k :: 0 <= k < |steps| - 1 ==> !steps[k].IsAlert()
  {
    var steps := EmailSignInSteps(email, password, signInError);
    if !CredentialsGiven(email, password) {
      assert steps == [ValidationAlert];
    } else if signInError.Some? {
      assert steps[0].CallSignIn? && |steps| == 2 && steps[1].ShowAlert?;
    }
  }

  /** On the Google path every alert is the generic one, and `Landing` is
      reached, after the welcome flag, exactly when the sign-in succeeds. */
  lemma GoogleSignInAlwaysGeneric(signInError: Option<Thrown>)
    ensures var steps := GoogleSignInSteps(signInError);
      && (forall k :: 0 <= k < |steps| && steps[k].ShowAlert? ==> steps[k].alert.SignInFailed? && steps[k].signUpWith.None?)
      && (ReplaceWith(Landing) in steps <==> signInError.None?)
      && (MarkWelcomeSeen in steps <==> signInError.None?)
  {
  }

  class SignInForm {
    var email: string
    var password: string
    var loading: bool
    var effects: seq<Effect>

    /** The email is prefilled from the navigation parameter, if any. */
    constructor (prefill: Option<string>)
      ensures email == OptOr(prefill, "") && password == "" && !loading && effects == []
    {
      email := OptOr(prefill, "");
      password := "";
      loading := false;
      effects := [];
    }

    /** `handleEmailSignIn`; `loading` ends false whenever the call was made. */
    method HandleEmailSignIn(signInError: Option<Thrown>)
      modifies this
      ensures email == old(email) && password == old(password)
      ensures effects == old(effects) + EmailSignInSteps(email, password, signInError)
      ensures loading == (old(loading) && !CredentialsGiven(email, password))
    {
      if !CredentialsGiven(email, password) {
        effects := effects + [ValidationAlert];
        return;
      }
      loading := true;
      if signInError.Some? {
        effects := effects + [CallSignIn(email, password), EmailFailure(signInError.value, email)];
      } else {
        effects := effects + [CallSignIn(email, password), MarkWelcomeSeen, ReplaceWith(Landing)];
      }
      loading := false;
    }

    /** `handleGoogleSignIn`. */
    method HandleGoogleSignIn(signInError: Option<Thrown>)
      modifies this
      ensures email == old(email) && password == old(password) && !loading
      ensures effects == old(effects) + GoogleSignInSteps(signInError)
    {
      loading := true;
      if signInError.Some? {
        effects := effects + [CallGoogleSignIn, ShowAlert(SignInFailed(OptOr(signInError.value.message, GoogleFallback)), None)];
      } else {
        effects := effects + [CallGoogleSignIn, MarkWelcomeSeen, ReplaceWith(Landing)];
      }
      loading := false;
    }
  }
}
