/** The sign-in modal shown over the task list: the same email/password
    validation and error codes as the sign-in screen, a refresh of the task
    list after signing in, and closing the modal with its fields cleared on
    success. The sign-in and the refresh are outside calls whose failures
    are parameters; what the modal does is recorded as a list of effects. */
module AuthModal {
  import opened Common
  import SignInScreen

  /** What `useTasks()` hands back under the name `refreshTasks`: the task
      context provides no such member, so it is `Missing`, and calling it
      throws a `TypeError`; `Provided` stands for a context that has one,
      with the error its call throws, if any. */
  datatype Refresh = Missing | Provided(error: Option<Thrown>)

  /** The `TypeError` thrown by calling `undefined`: no code, and the
      message of the Hermes engine React Native runs on (other engines word
      it differently, e.g. "refreshTasks is not a function"; the alert
      shows whichever text it is, and no text matches a cancellation or a
      configuration message). */
  const NotAFunction: Thrown := Thrown(None, Some("undefined is not a function"))

  /** What `await refreshTasks()` throws, if anything. */
  function RefreshFailure(refresh: Refresh): (e: Option<Thrown>)
    ensures refresh.Missing? ==> e == Some(NotAFunction)
    ensures refresh.Provided? ==> e == refresh.error
  {
    match refresh
    case Missing => Some(NotAFunction)
    case Provided(error) => error
  }

  /** The alert the modal shows: one of the sign-in screen's, or the
      configuration alert of the Google path. */
  datatype ModalAlert = Classified(alert: SignInScreen.SignInAlert) | ConfigurationError

  datatype Effect =
    | ValidationAlert
    | CallSignIn(email: string, password: string)
    | CallGoogleSignIn
    | CallRefresh
    | Close
      /** An alert; `signUpCloses` says it offers the "Sign Up" choice,
          which only closes the modal and carries no email anywhere. */
    | ShowAlert(alert: ModalAlert, signUpCloses: bool)
  {
    predicate IsAlert() {
      ValidationAlert? || ShowAlert?
    }
  }

  /** A failure of the email path, classified by the sign-in screen's four
      codes with the same fallback text. */
  function EmailFailure(e: Thrown): (eff: Effect)
    ensures eff.ShowAlert? && eff.alert == Classified(SignInScreen.ClassifySignIn(e, SignInScreen.EmailFallback))
    ensures eff.signUpCloses <==> e.code == Some("auth/user-not-found")
  {
    var a := SignInScreen.ClassifySignIn(e, SignInScreen.EmailFallback);
    ShowAlert(Classified(a), a == SignInScreen.AccountNotFound)
  }

  /** The Google path's classification by message, once a cancellation is
      ruled out: an SHA-1 or configuration message gets the configuration
      alert, anything else the message or the fallback. */
  function ClassifyGoogle(e: Thrown): (a: ModalAlert)
    ensures a == ConfigurationError <==> MessageHas(e, "SHA-1") || MessageHas(e, "configuration error")
    ensures a.Classified? ==> a.alert == SignInScreen.SignInFailed(OptOr(e.message, SignInScreen.GoogleFallback))
  {
    if MessageHas(e, "SHA-1") || MessageHas(e, "configuration error") then ConfigurationError
    else Classified(SignInScreen.SignInFailed(OptOr(e.message, SignInScreen.GoogleFallback)))
  }

  /** Both outside calls returned normally. */
  predicate Succeeded(signInError: Option<Thrown>, refresh: Refresh) {
    signInError.None? && RefreshFailure(refresh).None?
  }

  /** One press of the email sign-in button, in order: blank fields stop
      with an alert and no call; otherwise the sign-in, then the refresh,
      then closing; the first call that throws ends the sequence with its
      classified alert. */
  function EmailSteps(email: string, password: string, signInError: Option<Thrown>, refresh: Refresh): seq<Effect> {
    if !SignInScreen.CredentialsGiven(email, password) then [ValidationAlert]
    else if signInError.Some? then [CallSignIn(email, password), EmailFailure(signInError.value)]
    else if RefreshFailure(refresh).Some? then
      [CallSignIn(email, password), CallRefresh, EmailFailure(RefreshFailure(refresh).value)]
    else [CallSignIn(email, password), CallRefresh, Close]
  }

  /** One press of the Google button, in order; a cancellation ends
      quietly, whichever call threw it. */
  function GoogleSteps(signInError: Option<Thrown>, refresh: Refresh): seq<Effect> {
    var failure := if signInError.Some? then signInError else RefreshFailure(refresh);
    var before := if signInError.Some? then [CallGoogleSignIn] else [CallGoogleSignIn, CallRefresh];
    if failure.None? then before + [Close]
    else if Cancelled(failure.value) then before
    else before + [ShowAlert(ClassifyGoogle(failure.value), false)]
  }

  /** The sign-in is called exactly when both fields are non-blank, and
      first; the modal closes exactly when both calls succeed, and last;
      otherwise exactly one alert shows, as the last effect. */
  lemma EmailOrder(email: string, password: string, signInError: Option<Thrown>, refresh: Refresh)
    ensures var steps := EmailSteps(email, password, signInError, refresh);
      && (CallSignIn(email, password) in steps <==> SignInScreen.CredentialsGiven(email, password))
      && (SignInScreen.CredentialsGiven(email, password) ==> steps[0] == CallSignIn(email, password))
      && (Close in steps <==> SignInScreen.CredentialsGiven(email, password) && Succeeded(signInError, refresh))
      && (Close in steps ==> steps[|steps| - 1] == Close && CallRefresh in steps[..|steps| - 1])
      && (Close !in steps ==>
            steps[|steps| - 1].IsAlert() && forall k :: 0 <= k < |steps| - 1 ==> !steps[k].IsAlert())
  {
    var steps := EmailSteps(email, password, signInError, refresh);
    var call := CallSignIn(email, password);
    if !SignInScreen.CredentialsGiven(email, password) {
      assert steps == [ValidationAlert];
    } else if signInError.Some? {
      assert steps == [call, EmailFailure(signInError.value)];
    } else if RefreshFailure(refresh).Some? {
      assert steps == [call, CallRefresh, EmailFailure(RefreshFailure(refresh).value)];
    } else {
      assert steps == [call, CallRefresh, Close];
      assert steps[..2] == [call, CallRefresh];
    }
  }

  /** A failed sign-in is reported exactly as the sign-in screen reports
      it, except that an offer to sign up carries no email. */
  lemma EmailFailureAsOnScreen(e: Thrown, email: string)
    ensures EmailFailure(e).alert == Classified(SignInScreen.EmailFailure(e, email).alert)
    ensures EmailFailure(e).signUpCloses <==> SignInScreen.EmailFailure(e, email).signUpWith.Some?
  {
  }

  /** On the Google path a cancellation shows nothing, the modal closes
      exactly when both calls succeed, and otherwise one alert shows. */
  lemma GoogleOutcomes(signInError: Option<Thrown>, refresh: Refresh)
    ensures var steps := GoogleSteps(signInError, refresh);
      var failure := if signInError.Some? then signInError else RefreshFailure(refresh);
      && steps[0] == CallGoogleSignIn
      && (Close in steps <==> Succeeded(signInError, refresh))
      && (failure.Some? && Cancelled(failure.value) ==> forall k :: 0 <= k < |steps| ==> !steps[k].IsAlert())
      && (failure.Some? && !Cancelled(failure.value) ==>
            steps[|steps| - 1] == ShowAlert(ClassifyGoogle(failure.value), false)
            && forall k :: 0 <= k < |steps| - 1 ==> !steps[k].IsAlert())
  {
  }

  /** With the task context as written, a sign-in that succeeds is still
      reported as failed: the missing `refreshTasks` throws, the generic
      alert shows the `TypeError`'s message, and the modal never closes. */
  lemma MissingRefreshNeverCloses(email: string, password: string)
    requires SignInScreen.CredentialsGiven(email, password)
    ensures !Succeeded(None, Missing)
    ensures EmailSteps(email, password, None, Missing) ==
      [CallSignIn(email, password), CallRefresh,
       ShowAlert(Classified(SignInScreen.SignInFailed("undefined is not a function")), false)]
    ensures GoogleSteps(None, Missing) ==
      [CallGoogleSignIn, CallRefresh, ShowAlert(Classified(SignInScreen.SignInFailed("undefined is not a function")), false)]
  {
    TypeErrorIsGeneric();
  }

  /** The `TypeError`'s message names neither a cancellation nor a
      configuration problem, so it gets the generic alert. */
  lemma TypeErrorIsGeneric()
    ensures !Cancelled(NotAFunction)
    ensures ClassifyGoogle(NotAFunction) == Classified(SignInScreen.SignInFailed("undefined is not a function"))
  {
    var text := "undefined is not a function";
    MissingCharExcludes(text, "cancel", 'l');
    MissingCharExcludes(text, "cancelled", 'l');
    MissingCharExcludes(text, "SHA-1", 'S');
    MissingCharExcludes(text, "configuration error", 'r');
  }

  /** With a refresh that the context provides and that succeeds, a
      successful sign-in closes the modal on either path. */
  lemma ProvidedRefreshCloses(email: string, password: string)
    requires SignInScreen.CredentialsGiven(email, password)
    ensures Succeeded(None, Provided(None))
    ensures EmailSteps(email, password, None, Provided(None)) == [CallSignIn(email, password), CallRefresh, Close]
    ensures GoogleSteps(None, Provided(None)) == [CallGoogleSignIn, CallRefresh, Close]
  {
    assert RefreshFailure(Provided(None)).None?;
  }

  class ModalForm {
    var email: string
    var password: string
    var loading: bool
    var effects: seq<Effect>

    constructor ()
      ensures email == "" && password == "" && !loading && effects == []
    {
      email := "";
      password := "";
      loading := false;
      effects := [];
    }

    /** `handleEmailSignIn`: the fields are cleared only after both calls
        succeeded, and `loading` ends false whenever the call was made. */
    method HandleEmailSignIn(signInError: Option<Thrown>, refresh: Refresh)
      modifies this
      ensures effects == old(effects) + EmailSteps(old(email), old(password), signInError, refresh)
      ensures SignInScreen.CredentialsGiven(old(email), old(password)) && Succeeded(signInError, refresh) ==>
        email == "" && password == ""
      ensures !(SignInScreen.CredentialsGiven(old(email), old(password)) && Succeeded(signInError, refresh)) ==>
        email == old(email) && password == old(password)
      ensures loading == (old(loading) && !SignInScreen.CredentialsGiven(old(email), old(password)))
    {
      if !SignInScreen.CredentialsGiven(email, password) {
        effects := effects + [ValidationAlert];
        return;
      }
      ghost var steps := EmailSteps(email, password, signInError, refresh);
      loading := true;
      var call := CallSignIn(email, password);
      var failure := RefreshFailure(refresh);
      if signInError.Some? {
        assert steps == [call, EmailFailure(signInError.value)];
        effects := effects + [call, EmailFailure(signInError.value)];
      } else if failure.Some? {
        assert steps == [call, CallRefresh, EmailFailure(failure.value)];
        effects := effects + [call, CallRefresh, EmailFailure(failure.value)];
      } else {
        assert steps == [call, CallRefresh, Close];
        effects := effects + [call, CallRefresh, Close];
        email := "";
        password := "";
      }
      loading := false;
    }

    /** `handleGoogleSignIn`: the fields are cleared only after both calls
        succeeded; `loading` ends false, a cancellation included. */
    method HandleGoogleSignIn(signInError: Option<Thrown>, refresh: Refresh)
      modifies this
      ensures effects == old(effects) + GoogleSteps(signInError, refresh)
      ensures Succeeded(signInError, refresh) ==> email == "" && password == ""
      ensures !Succeeded(signInError, refresh) ==> email == old(email) && password == old(password)
      ensures !loading
    {
      loading := true;
      var steps := [CallGoogleSignIn];
      var failure := signInError;
      if signInError.None? {
        steps := steps + [CallRefresh];
        failure := RefreshFailure(refresh);
      }
      if failure.None? {
        steps := steps + [Close];
        email := "";
        password := "";
      } else if !Cancelled(failure.value) {
        steps := steps + [ShowAlert(ClassifyGoogle(failure.value), false)];
      }
      effects := effects + steps;
      loading := false;
    }
  }
}
