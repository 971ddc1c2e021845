/** The sign-up screen: the validation chain, the order of what a
    successful sign-up does, and how failures of the email and Google
    paths are reported. The sign-up is an outside call whose failure is a
    parameter; setting the welcome flag swallows its own errors, so it
    always returns. What the screen does is recorded as a list of
    effects. */
module SignUpScreen {
  import opened Common

  /** The first failing check of `handleEmailSignUp`. */
  datatype Invalid = BlankName | MissingCredentials | ShortPassword | TermsNotAgreed

  /** The checks in their order: a non-blank name, a non-blank email and
      password, a password of at least six UTF-16 code units (counted
      before trimming), and the terms accepted. */
  function SignUpCheck(fullName: string, email: string, password: string, agreed: bool): (r: Option<Invalid>)
    ensures r == Some(BlankName) <==> IsBlank(fullName)
    ensures r == Some(MissingCredentials) <==> !IsBlank(fullName) && (IsBlank(email) || IsBlank(password))
    ensures r == Some(ShortPassword) <==>
      !IsBlank(fullName) && !IsBlank(email) && !IsBlank(password) && Utf16Length(password) < 6
    ensures r == Some(TermsNotAgreed) <==>
      !IsBlank(fullName) && !IsBlank(email) && !IsBlank(password) && Utf16Length(password) >= 6 && !agreed
    ensures r.None? <==> !IsBlank(fullName) && !IsBlank(email) && !IsBlank(password) && Utf16Length(password) >= 6 && agreed
  {
    if IsBlank(fullName) then Some(BlankName)
    else if IsBlank(email) || IsBlank(password) then Some(MissingCredentials)
    else if Utf16Length(password) < 6 then Some(ShortPassword)
    else if !agreed then Some(TermsNotAgreed)
    else None
  }

  /** The length check counts surrounding white space: for every password
      core that neither starts nor ends with white space, padding it with a
      space on each side trims back to the core, yet the padded password is
      too short exactly when the core plus its two spaces is under six code
      units. A core of four or five code units therefore passes while its
      trim is shorter than six. */
  lemma {:induction false} PaddedPasswordAccepted(fullName: string, email: string, core: string, agreed: bool)
    requires Unpadded(core)
    ensures Trim(" " + core + " ") == core
    ensures core != "" ==>
      (SignUpCheck(fullName, email, " " + core + " ", agreed) == Some(ShortPassword) <==>
        !IsBlank(fullName) && !IsBlank(email) && Utf16Length(core) < 4)
  {
    var padded := " " + core + " ";
    assert padded[1..] == core + " ";
    assert TrimStart(padded) == TrimStart(core + " ");
    if core == "" {
      assert TrimStart(core + " ") == TrimStart(" "[1..]);
    } else {
      assert TrimStart(core + " ") == core + " ";
      assert (core + " ")[..|core|] == core;
      assert TrimEnd(core + " ") == TrimEnd(core);
      TrimUnpadded(core);
      assert TrimStart(core) == core;
      assert padded[1] == core[0];
      Utf16LengthAppend(" " + core, " ");
      Utf16LengthAppend(" ", core);
      assert Utf16Length(" ") == 1 by { assert " "[1..] == []; }
    }
  }

  /** The length check counts UTF-16 code units, not characters: a password
      of three characters outside the Basic Multilingual Plane is six code
      units long and passes it. */
  lemma AstralPasswordAccepted(fullName: string, email: string, agreed: bool)
    requires !IsBlank(fullName) && !IsBlank(email) && agreed
    ensures SignUpCheck(fullName, email, "\U{1F600}\U{1F600}\U{1F600}", agreed).None?
  {
    var p := "\U{1F600}\U{1F600}\U{1F600}";
    assert p[1..][1..][1..] == [];
    assert !IsSpace(p[0]);
  }

  /** The alert a failed email sign-up shows. */
  datatype SignUpAlert =
      /** "Account Already Exists", with its fixed text. */
    | AccountExists
      /** The Google path's "Account Exists", whose text is the error's. */
    | AccountExistsWith(text: string)
    | InvalidEmail
    | WeakPassword
    | SignUpFailed(text: string)
    | ConfigurationError

  const EmailFallback: string := "Unable to create account. Please try again."
  const GoogleFallback: string := "Unable to sign up with Google. Please try again."
  const ExistsFallback: string := "An account with this email already exists. Please sign in instead."

  /** The email path's classification: an email already in use, found by
      code or in the message, then two more codes, else the message. */
  function ClassifySignUp(e: Thrown): (a: SignUpAlert)
    ensures a == AccountExists <==> e.code == Some("auth/email-already-in-use") || MessageHas(e, "email-already-in-use")
    ensures a == InvalidEmail <==> !(a == AccountExists) && e.code == Some("auth/invalid-email")
    ensures a == WeakPassword <==> !(a == AccountExists) && e.code == Some("auth/weak-password")
    ensures a.SignUpFailed? ==> a.text == OptOr(e.message, EmailFallback)
    ensures !a.ConfigurationError? && !a.AccountExistsWith?
  {
    if e.code == Some("auth/email-already-in-use") || MessageHas(e, "email-already-in-use") then AccountExists
    else if e.code == Some("auth/invalid-email") then InvalidEmail
    else if e.code == Some("auth/weak-password") then WeakPassword
    else SignUpFailed(OptOr(e.message, EmailFallback))
  }

  /** The Google path's classification by message, once a cancellation is
      ruled out: the configuration alert, then an existing account shown
      with the error's message, else the message. */
  function ClassifyGoogleSignUp(e: Thrown): (a: SignUpAlert)
    ensures a == ConfigurationError <==>
      MessageHas(e, "DEVELOPER_ERROR") || MessageHas(e, "SHA-1") || MessageHas(e, "configuration error")
    ensures a.SignUpFailed? ==> a.text == OptOr(e.message, GoogleFallback)
    ensures a.AccountExistsWith? <==>
      !(MessageHas(e, "DEVELOPER_ERROR") || MessageHas(e, "SHA-1") || MessageHas(e, "configuration error"))
      && (MessageHas(e, "account already exists") || MessageHas(e, "different credential"))
    ensures a.AccountExistsWith? ==> e.message.Some? && a.text == e.message.value
    ensures a != AccountExists && a != InvalidEmail && a != WeakPassword
  {
    if MessageHas(e, "DEVELOPER_ERROR") || MessageHas(e, "SHA-1") || MessageHas(e, "configuration error") then
      ConfigurationError
    else if MessageHas(e, "account already exists") || MessageHas(e, "different credential") then
      AccountExistsWith(OptOr(e.message, ExistsFallback))
    else SignUpFailed(OptOr(e.message, GoogleFallback))
  }

  datatype Effect =
    | ValidationAlert(reason: Invalid)
    | CallSignUp(email: string, password: string, fullName: string)
    | CallGoogleSignUp
    | MarkWelcomeSeen
    | ReplaceWith(screen: string)
      /** An alert; `signInWith` is the email the "Sign In" choice carries
          to the sign-in screen, when the alert offers one. */
    | ShowAlert(alert: SignUpAlert, signInWith: Option<string>)
  {
    predicate IsAlert() {
      ValidationAlert? || ShowAlert?
    }
  }

  /** The screen a successful sign-up replaces this one with. */
  const Landing: string := "Landing"

  /** An alert for a classified failure; an existing account, on either
      path, offers to sign in with the email typed on this screen. */
  function Failure(a: SignUpAlert, email: string): Effect {
    ShowAlert(a, if a == AccountExists || a.AccountExistsWith? then Some(email) else None)
  }

  /** One press of the email sign-up button, in order. Setting the welcome
      flag swallows its own storage errors, so it never fails. */
  function EmailSignUpSteps(fullName: string, email: string, password: string, agreed: bool,
                            signUpError: Option<Thrown>): seq<Effect>
  {
    var check := SignUpCheck(fullName, email, password, agreed);
    if check.Some? then [ValidationAlert(check.value)]
    else if signUpError.Some? then [CallSignUp(email, password, fullName), Failure(ClassifySignUp(signUpError.value), email)]
    else [CallSignUp(email, password, fullName), MarkWelcomeSeen, ReplaceWith(Landing)]
  }

  /** One press of the Google sign-up button, in order; a cancellation
      ends quietly. */
  function GoogleSignUpSteps(email: string, signUpError: Option<Thrown>): seq<Effect> {
    if signUpError.None? then [CallGoogleSignUp, MarkWelcomeSeen, ReplaceWith(Landing)]
    else if Cancelled(signUpError.value) then [CallGoogleSignUp]
    else [CallGoogleSignUp, Failure(ClassifyGoogleSignUp(signUpError.value), email)]
  }

  /** `signUp` is called exactly when every check passes, and first;
      `Landing` is reached exactly when the sign-up succeeds, last and after
      the welcome flag; otherwise exactly one alert shows, the first
      failing check's or the classified error's. */
  lemma EmailSignUpOrder(fullName: string, email: string, password: string, agreed: bool,
                         signUpError: Option<Thrown>)
    ensures var steps := EmailSignUpSteps(fullName, email, password, agreed, signUpError);
      var valid := SignUpCheck(fullName, email, password, agreed).None?;
      && (CallSignUp(email, password, fullName) in steps <==> valid)
      && (valid ==> steps[0] == CallSignUp(email, password, fullName))
      && (!valid ==> steps == [ValidationAlert(SignUpCheck(fullName, email, password, agreed).value)])
      && (ReplaceWith(Landing) in steps <==> valid && signUpError.None?)
      && (ReplaceWith(Landing) in steps ==> steps[|steps| - 1] == ReplaceWith(Landing) && MarkWelcomeSeen in steps[..|steps| - 1])
      && (ReplaceWith(Landing) !in steps ==>
            steps[|steps| - 1].IsAlert() && forall k :: 0 <= k < |steps| - 1 ==> !steps[k].IsAlert())
  {
    var steps := EmailSignUpSteps(fullName, email, password, agreed, signUpError);
    var call := CallSignUp(email, password, fullName);
    if SignUpCheck(fullName, email, password, agreed).None? {
      if signUpError.Some? {
        assert steps == [call, Failure(ClassifySignUp(signUpError.value), email)];
      } else {
        assert steps == [call, MarkWelcomeSeen, ReplaceWith(Landing)];
        assert steps[..2] == [call, MarkWelcomeSeen];
      }
    }
  }

  /** On the Google path a cancelled picker shows nothing; any other
      failure shows exactly one alert; success sets the welcome flag and
      reaches `Landing`. */
  lemma GoogleSignUpOutcomes(email: string, signUpError: Option<Thrown>)
    ensures var steps := GoogleSignUpSteps(email, signUpError);
      && steps[0] == CallGoogleSignUp
      && (ReplaceWith(Landing) in steps <==> signUpError.None?)
      && (MarkWelcomeSeen in steps <==> signUpError.None?)
      && (signUpError.Some? && Cancelled(signUpError.value) ==> forall k :: 0 <= k < |steps| ==> !steps[k].IsAlert())
      && (signUpError.Some? && !Cancelled(signUpError.value) ==>
            steps[|steps| - 1].IsAlert() && forall k :: 0 <= k < |steps| - 1 ==> !steps[k].IsAlert())
  {
  }

  class SignUpForm {
    var fullName: string
    var email: string
    var password: string
    var agreeToTerms: bool
    var loading: bool
    var effects: seq<Effect>

    /** The email is prefilled from the navigation parameter, if any. */
    constructor (prefill: Option<string>)
      ensures fullName == "" && email == OptOr(prefill, "") && password == "" && !agreeToTerms
      ensures !loading && effects == []
    {
      fullName := "";
      email := OptOr(prefill, "");
      password := "";
      agreeToTerms := false;
      loading := false;
      effects := [];
    }

    /** `handleEmailSignUp`; `loading` ends false whenever the call was made. */
    method HandleEmailSignUp(signUpError: Option<Thrown>)
      modifies this
      ensures fullName == old(fullName) && email == old(email) && password == old(password)
      ensures agreeToTerms == old(agreeToTerms)
      ensures effects == old(effects) + EmailSignUpSteps(fullName, email, password, agreeToTerms, signUpError)
      ensures loading == (old(loading) && SignUpCheck(fullName, email, password, agreeToTerms).Some?)
    {
      var check := SignUpCheck(fullName, email, password, agreeToTerms);
      if check.Some? {
        effects := effects + [ValidationAlert(check.value)];
        return;
      }
      loading := true;
      var call := CallSignUp(email, password, fullName);
      if signUpError.Some? {
        effects := effects + [call, Failure(ClassifySignUp(signUpError.value), email)];
      } else {
        effects := effects + [call, MarkWelcomeSeen, ReplaceWith(Landing)];
      }
      loading := false;
    }

    /** `handleGoogleSignUp`: `loading` ends false, a cancellation included. */
    method HandleGoogleSignUp(signUpError: Option<Thrown>)
      modifies this
      ensures fullName == old(fullName) && email == old(email) && password == old(password)
      ensures agreeToTerms == old(agreeToTerms) && !loading
      ensures effects == old(effects) + GoogleSignUpSteps(email, signUpError)
    {
      loading := true;
      if signUpError.None? {
        effects := effects + [CallGoogleSignUp, MarkWelcomeSeen, ReplaceWith(Landing)];
      } else if Cancelled(signUpError.value) {
        effects := effects + [CallGoogleSignUp];
      } else {
        effects := effects + [CallGoogleSignUp, Failure(ClassifyGoogleSignUp(signUpError.value), email)];
      }
      loading := false;
    }
  }
}
