/** `LoginViewModel`: email/password and Google sign-in, the backend exchange
    and the forgot-password sub-flow. Every asynchronous completion (a Firebase
    task listener, the end of the suspended Retrofit call) is its own method, so
    a sequence of method calls is one order in which the callbacks can arrive. */
module Login {
  import opened AuthModel
  import opened Text

  type LoginState = AuthState

  const BlankFieldsMessage := "Vui lòng nhập đầy đủ Email và Mật khẩu"
  const InvalidEmailMessage := "Email không hợp lệ"
  const EmailSignInFailedMessage := "Login thất bại"
  const GoogleSignInFailedPrefix := "Google login failed: "
  const BackendRejectedMessage := "Login failed"
  const UnknownErrorMessage := "Unknown error"

  const EmailSignInFailure := Fixed(EmailSignInFailedMessage)
  const GoogleSignInFailure := Prefixed(GoogleSignInFailedPrefix)

  /** The `when` chain of `validateAndLogin`: the blank check first, then the
      email pattern (the platform's `Patterns.EMAIL_ADDRESS`, given here as
      `emailPattern`). */
  function ValidateLogin(email: string, password: string, emailPattern: string -> bool): (c: Check)
    ensures c == Reject(BlankFieldsMessage) <==> IsBlank(email) || IsBlank(password)
    ensures c == Reject(InvalidEmailMessage) <==> !IsBlank(email) && !IsBlank(password) && !emailPattern(email)
    ensures c == Pass <==> !IsBlank(email) && !IsBlank(password) && emailPattern(email)
  {
    if IsBlank(email) || IsBlank(password) then Reject(BlankFieldsMessage)
    else if !emailPattern(email) then Reject(InvalidEmailMessage)
    else Pass
  }

  /** The completions a view model can be waiting for: one per registered
      pair of task listeners, or per launched backend coroutine. */
  datatype Listener = EmailSignIn | GoogleSignIn | PasswordReset | Exchange

  /** The message each sign-in's failure listener publishes. */
  function SignInFailure(listener: Listener): FailureText {
    if listener == EmailSignIn then EmailSignInFailure else GoogleSignInFailure
  }

  class LoginViewModel {
    /** `_loginState.value` and `_forgotPasswordState.value`. */
    var loginState: LoginState
    var forgotPasswordState: ForgotPasswordState

    /** Every value assigned to each flow, oldest first. */
    ghost var loginAssigned: seq<LoginState>
    ghost var forgotAssigned: seq<ForgotPasswordState>
    /** Every call made to Firebase or to the backend, in order. */
    ghost var calls: seq<ExternalCall>
    /** How many completions of each kind are still to arrive. */
    ghost var pending: map<Listener, nat>

    ghost predicate Valid()
      reads this
    {
      && AssignedFrom(loginAssigned, AuthState.Idle, loginState)
      && AssignedFrom(forgotAssigned, ForgotPasswordState.Idle, forgotPasswordState)
      && forall l :: l in pending
    }

    constructor ()
      ensures Valid()
      ensures loginState == AuthState.Idle && forgotPasswordState == ForgotPasswordState.Idle
      ensures loginAssigned == [AuthState.Idle] && forgotAssigned == [ForgotPasswordState.Idle]
      ensures calls == [] && forall l :: pending[l] == 0
    {
      loginState := AuthState.Idle;
      forgotPasswordState := ForgotPasswordState.Idle;
      loginAssigned := [AuthState.Idle];
      forgotAssigned := [ForgotPasswordState.Idle];
      calls := [];
      pending := map[EmailSignIn := 0, GoogleSignIn := 0, PasswordReset := 0, Exchange := 0];
      new;
      forall l: Listener
        ensures l in pending && pending[l] == 0
      {
        assert l.EmailSignIn? || l.GoogleSignIn? || l.PasswordReset? || l.Exchange?;
      }
    }

    /** `_loginState.value = s`. */
    method SetLoginState(s: LoginState)
      requires Valid() && s != AuthState.Idle
      modifies this`loginState, this`loginAssigned
      ensures Valid()
      ensures loginState == s && loginAssigned == old(loginAssigned) + [s]
    {
      loginState := s;
      loginAssigned := loginAssigned + [s];
    }

    /** `_forgotPasswordState.value = s`. */
    method SetForgotPasswordState(s: ForgotPasswordState)
      requires Valid() && s != ForgotPasswordState.Idle
      modifies this`forgotPasswordState, this`forgotAssigned
      ensures Valid()
      ensures forgotPasswordState == s && forgotAssigned == old(forgotAssigned) + [s]
    {
      forgotPasswordState := s;
      forgotAssigned := forgotAssigned + [s];
    }

    /** Registers a completion to come. */
    method Await(l: Listener)
      requires Valid()
      modifies this`pending
      ensures Valid() && pending == old(pending)[l := old(pending)[l] + 1]
    {
      pending := pending[l := pending[l] + 1];
    }

    /** Consumes a completion that was awaited. */
    method Arrive(l: Listener)
      requires Valid() && pending[l] > 0
      modifies this`pending
      ensures Valid() && pending == old(pending)[l := old(pending)[l] - 1]
    {
      pending := pending[l := pending[l] - 1];
    }

    /** `loginWithFirebase`: publishes Loading, sends the four arguments to the
        backend as they are and suspends until the call ends. */
    method LoginWithFirebase(uid: string, email: string, name: Option<string>, avatar: Option<string>)
      requires Valid()
      modifies this`loginState, this`loginAssigned, this`calls, this`pending
      ensures Valid()
      ensures loginState == AuthState.Loading && loginAssigned == old(loginAssigned) + [AuthState.Loading]
      ensures calls == old(calls) + [AuthWithFirebase(Request(uid, email, name, avatar))]
      ensures pending == old(pending)[Exchange := old(pending)[Exchange] + 1]
    {
      SetLoginState(AuthState.Loading);
      calls := calls + [AuthWithFirebase(Request(uid, email, name, avatar))];
      Await(Exchange);
    }

    /** The backend call of `loginWithFirebase` returned `res`. */
    method OnBackendResponse(res: UserResponse)
      requires Valid() && pending[Exchange] > 0
      modifies this`loginState, this`loginAssigned, this`pending
      ensures Valid()
      ensures loginState == ExchangeOutcome(res, BackendRejectedMessage)
      ensures loginAssigned == old(loginAssigned) + [loginState]
      ensures pending == old(pending)[Exchange := old(pending)[Exchange] - 1]
    {
      Arrive(Exchange);
      if res.success && res.user.Some? {
        SetLoginState(AuthState.Success(res.user.value));
      } else {
        SetLoginState(AuthState.Error(BackendRejectedMessage));
      }
    }

    /** The backend call of `loginWithFirebase` threw an exception whose
        `message` is `message`. */
    method OnBackendException(message: Option<string>)
      requires Valid() && pending[Exchange] > 0
      modifies this`loginState, this`loginAssigned, this`pending
      ensures Valid()
      ensures loginState == AuthState.Error("Error: " + Render(message))
      ensures loginAssigned == old(loginAssigned) + [loginState]
      ensures pending == old(pending)[Exchange := old(pending)[Exchange] - 1]
    {
      Arrive(Exchange);
      SetLoginState(AuthState.Error("Error: " + Render(message)));
    }

    /** `loginWithEmail`: publishes Loading and starts the email/password sign-in. */
    method LoginWithEmail(email: string, password: string)
      requires Valid()
      modifies this`loginState, this`loginAssigned, this`calls, this`pending
      ensures Valid()
      ensures loginState == AuthState.Loading && loginAssigned == old(loginAssigned) + [AuthState.Loading]
      ensures calls == old(calls) + [SignInWithEmailAndPassword(email, password)]
      ensures pending == old(pending)[EmailSignIn := old(pending)[EmailSignIn] + 1]
    {
      SetLoginState(AuthState.Loading);
      calls := calls + [SignInWithEmailAndPassword(email, password)];
      Await(EmailSignIn);
    }

    /** `loginWithGoogle`: publishes Loading and signs in with the credential
        built from the Google account's (nullable) id token. */
    method LoginWithGoogle(idToken: Option<string>)
      requires Valid()
      modifies this`loginState, this`loginAssigned, this`calls, this`pending
      ensures Valid()
      ensures loginState == AuthState.Loading && loginAssigned == old(loginAssigned) + [AuthState.Loading]
      ensures calls == old(calls) + [SignInWithCredential(idToken)]
      ensures pending == old(pending)[GoogleSignIn := old(pending)[GoogleSignIn] + 1]
    {
      SetLoginState(AuthState.Loading);
      calls := calls + [SignInWithCredential(idToken)];
      Await(GoogleSignIn);
    }

    /** The success listener of either sign-in (the two are the same code): a
        null `result.user` does nothing, otherwise the backend exchange starts
        with the provider's uid, email (or ""), display name and photo URL. */
    method OnSignInSuccess(listener: Listener, user: Option<FirebaseUser>)
      requires Valid() && (listener == EmailSignIn || listener == GoogleSignIn) && pending[listener] > 0
      modifies this`loginState, this`loginAssigned, this`calls, this`pending
      ensures Valid()
      ensures user.None? ==> loginState == old(loginState) && loginAssigned == old(loginAssigned)
      ensures user.None? ==> calls == old(calls) && pending == old(pending)[listener := old(pending)[listener] - 1]
      ensures user.Some? ==> loginState == AuthState.Loading && loginAssigned == old(loginAssigned) + [AuthState.Loading]
      ensures user.Some? ==>
        calls == old(calls) + [AuthWithFirebase(SignedInRequest(user.value, user.value.displayName))]
      ensures user.Some? ==>
        pending == old(pending)[listener := old(pending)[listener] - 1][Exchange := old(pending)[Exchange] + 1]
    {
      Arrive(listener);
      if user.Some? {
        var u := user.value;
        LoginWithFirebase(u.uid, u.email.GetOr(""), u.displayName, u.photoUrl);
      }
    }

    /** The failure listener of the email/password sign-in. */
    method OnEmailSignInFailure()
      requires Valid() && pending[EmailSignIn] > 0
      modifies this`loginState, this`loginAssigned, this`pending
      ensures Valid()
      ensures loginState == AuthState.Error(EmailSignInFailedMessage)
      ensures loginAssigned == old(loginAssigned) + [loginState]
      ensures pending == old(pending)[EmailSignIn := old(pending)[EmailSignIn] - 1]
    {
      Arrive(EmailSignIn);
      SetLoginState(AuthState.Error(EmailSignInFailedMessage));
    }

    /** The failure listener of the Google sign-in; `message` is the exception's. */
    method OnGoogleSignInFailure(message: Option<string>)
      requires Valid() && pending[GoogleSignIn] > 0
      modifies this`loginState, this`loginAssigned, this`pending
      ensures Valid()
      ensures loginState == AuthState.Error(GoogleSignInFailedPrefix + Render(message))
      ensures loginAssigned == old(loginAssigned) + [loginState]
      ensures pending == old(pending)[GoogleSignIn := old(pending)[GoogleSignIn] - 1]
    {
      Arrive(GoogleSignIn);
      SetLoginState(AuthState.Error(GoogleSignInFailedPrefix + Render(message)));
    }

    /** `resetPassword`: drives the forgot-password flow only. */
    method ResetPassword(email: string)
      requires Valid()
      modifies this`forgotPasswordState, this`forgotAssigned, this`calls, this`pending
      ensures Valid()
      ensures forgotPasswordState == ForgotPasswordState.Loading
      ensures forgotAssigned == old(forgotAssigned) + [ForgotPasswordState.Loading]
      ensures calls == old(calls) + [SendPasswordResetEmail(email)]
      ensures pending == old(pending)[PasswordReset := old(pending)[PasswordReset] + 1]
      ensures loginState == old(loginState) && loginAssigned == old(loginAssigned)
    {
      SetForgotPasswordState(ForgotPasswordState.Loading);
      calls := calls + [SendPasswordResetEmail(email)];
      Await(PasswordReset);
    }

    /** The success listener of the password-reset email. */
    method OnResetSuccess()
      requires Valid() && pending[PasswordReset] > 0
      modifies this`forgotPasswordState, this`forgotAssigned, this`pending
      ensures Valid()
      ensures forgotPasswordState == ForgotPasswordState.Success
      ensures forgotAssigned == old(forgotAssigned) + [forgotPasswordState]
      ensures pending == old(pending)[PasswordReset := old(pending)[PasswordReset] - 1]
      ensures loginState == old(loginState) && loginAssigned == old(loginAssigned)
    {
      Arrive(PasswordReset);
      SetForgotPasswordState(ForgotPasswordState.Success);
    }

    /** The failure listener of the password-reset email: the exception's
        message, or "Unknown error" when it has none. */
    method OnResetFailure(message: Option<string>)
      requires Valid() && pending[PasswordReset] > 0
      modifies this`forgotPasswordState, this`forgotAssigned, this`pending
      ensures Valid()
      ensures forgotPasswordState == ForgotPasswordState.Error(message.GetOr(UnknownErrorMessage))
      ensures forgotAssigned == old(forgotAssigned) + [forgotPasswordState]
      ensures pending == old(pending)[PasswordReset := old(pending)[PasswordReset] - 1]
      ensures loginState == old(loginState) && loginAssigned == old(loginAssigned)
    {
      Arrive(PasswordReset);
      SetForgotPasswordState(ForgotPasswordState.Error(message.GetOr(UnknownErrorMessage)));
    }

    /** `validateAndLogin`: a rejected input publishes the first failing
        guard's message and starts nothing; an accepted one is `loginWithEmail`. */
    method ValidateAndLogin(email: string, password: string, emailPattern: string -> bool)
      requires Valid()
      modifies this`loginState, this`loginAssigned, this`calls, this`pending
      ensures Valid()
      ensures ValidateLogin(email, password, emailPattern).Reject? ==>
        && loginState == AuthState.Error(ValidateLogin(email, password, emailPattern).message)
        && loginAssigned == old(loginAssigned) + [loginState]
        && calls == old(calls) && pending == old(pending)
      ensures ValidateLogin(email, password, emailPattern).Pass? ==>
        && loginState == AuthState.Loading
        && loginAssigned == old(loginAssigned) + [AuthState.Loading]
        && calls == old(calls) + [SignInWithEmailAndPassword(email, password)]
        && pending == old(pending)[EmailSignIn := old(pending)[EmailSignIn] + 1]
    {
      if IsBlank(email) || IsBlank(password) {
        SetLoginState(AuthState.Error(BlankFieldsMessage));
      } else if !emailPattern(email) {
        SetLoginState(AuthState.Error(InvalidEmailMessage));
      } else {
        LoginWithEmail(email, password);
      }
    }
  }

  // ---------------------------------------------------------------------------
  // Whole submissions, with every completion arriving in the order the source
  // registers its listeners and no other submission overlapping.

  /** `validateAndLogin`, then the sign-in task's completion, then (when it
      starts one) the backend call's. */
  function EmailLogin(email: string, password: string, emailPattern: string -> bool,
                      signIn: ProviderAnswer, backend: BackendAnswer): Run<LoginState>
  {
    match ValidateLogin(email, password, emailPattern)
    case Reject(m) => Run([AuthState.Error(m)], [])
    case Pass =>
      Then(Run([AuthState.Loading], [SignInWithEmailAndPassword(email, password)]),
           AfterProvider(signIn, EmailSignInFailure, None, backend, BackendRejectedMessage))
  }

  /** `loginWithGoogle`, then the sign-in task's completion, then (when it
      starts one) the backend call's. */
  function GoogleLogin(idToken: Option<string>, signIn: ProviderAnswer, backend: BackendAnswer): Run<LoginState>
  {
    Then(Run([AuthState.Loading], [SignInWithCredential(idToken)]),
         AfterProvider(signIn, GoogleSignInFailure, None, backend, BackendRejectedMessage))
  }

  /** How the password-reset task completes. */
  datatype ResetAnswer = Sent | NotSent(message: Option<string>)

  /** `resetPassword`, then the reset task's completion. */
  function PasswordResetRun(email: string, answer: ResetAnswer): Run<ForgotPasswordState>
  {
    match answer
    case Sent => Run([ForgotPasswordState.Loading, ForgotPasswordState.Success], [SendPasswordResetEmail(email)])
    case NotSent(m) =>
      Run([ForgotPasswordState.Loading, ForgotPasswordState.Error(m.GetOr(UnknownErrorMessage))],
          [SendPasswordResetEmail(email)])
  }

  /** The final state of an email submission: Success(user) exactly when the
      input passes both checks, the provider returns a user and the backend
      accepts it with a user; Loading when the provider returns no user;
      Error otherwise. No sign-in starts when a check fails, and no assigned
      value is Idle. */
  lemma EmailLoginOutcome(email: string, password: string, emailPattern: string -> bool,
                          signIn: ProviderAnswer, backend: BackendAnswer)
    ensures var r := EmailLogin(email, password, emailPattern, signIn, backend);
      && |r.states| > 0
      && (forall i | 0 <= i < |r.states| :: r.states[i] != AuthState.Idle)
      && (r.calls == [] <==> ValidateLogin(email, password, emailPattern).Reject?)
      && (Last(r.states).Success? <==>
            && ValidateLogin(email, password, emailPattern).Pass?
            && signIn.Succeeded? && signIn.user.Some?
            && backend.Responded? && backend.response.success && backend.response.user.Some?)
      && (Last(r.states).Success? ==> Last(r.states).user == backend.response.user.value)
      && (Last(r.states) == AuthState.Loading <==>
            ValidateLogin(email, password, emailPattern).Pass? && signIn == Succeeded(None))
      && (Last(r.states).Error? || Last(r.states).Success? || Last(r.states) == AuthState.Loading)
  {
  }

  /** The blank check wins over the email pattern, and either field of the
      pair being blank is enough. */
  lemma BlankWinsOverPattern(email: string, password: string, emailPattern: string -> bool,
                             signIn: ProviderAnswer, backend: BackendAnswer)
    requires IsBlank(email) || IsBlank(password)
    ensures EmailLogin(email, password, emailPattern, signIn, backend) ==
      Run([AuthState.Error("Vui lòng nhập đầy đủ Email và Mật khẩu")], [])
  {
  }

  /** A successful sign-in followed by an accepting backend makes the flow
      emit exactly Idle, Loading, Success(user): the second Loading, assigned
      when the backend exchange starts, is not emitted. */
  lemma EmailLoginHappyPath(emailPattern: string -> bool, user: User)
    requires emailPattern("a@b.com")
    ensures var r := EmailLogin("a@b.com", "secret", emailPattern,
                                Succeeded(Some(FirebaseUser("u1", Some("a@b.com"), None, None))),
                                Responded(UserResponse(true, Some(user))));
      && r.states == [AuthState.Loading, AuthState.Loading, AuthState.Success(user)]
      && Conflate([AuthState.Idle] + r.states) == [AuthState.Idle, AuthState.Loading, AuthState.Success(user)]
      && r.calls == [SignInWithEmailAndPassword("a@b.com", "secret"),
                     AuthWithFirebase(AuthRequest("u1", "a@b.com", None, None))]
  {
    assert !IsWhitespace("a@b.com"[0]) && !IsWhitespace("secret"[0]);
    assert ValidateLogin("a@b.com", "secret", emailPattern) == Pass;
    ConflateRepeated(AuthState.Idle, AuthState.Loading, AuthState.Success(user));
  }

  /** A nominally successful response without a user is not a login. */
  lemma SuccessFlagWithoutUserFails(email: string, password: string, emailPattern: string -> bool, u: FirebaseUser)
    requires ValidateLogin(email, password, emailPattern).Pass?
    ensures Last(EmailLogin(email, password, emailPattern, Succeeded(Some(u)), Responded(UserResponse(true, None))).states)
      == AuthState.Error("Login failed")
  {
  }

  /** The final state of a Google sign-in, as for the email path but without
      validation; a failure carries the provider's message. */
  lemma GoogleLoginOutcome(idToken: Option<string>, signIn: ProviderAnswer, backend: BackendAnswer)
    ensures var r := GoogleLogin(idToken, signIn, backend);
      && |r.states| > 0 && r.states[0] == AuthState.Loading
      && (forall i | 0 <= i < |r.states| :: r.states[i] != AuthState.Idle)
      && |r.calls| > 0 && r.calls[0] == SignInWithCredential(idToken)
      && (Last(r.states).Success? <==>
            signIn.Succeeded? && signIn.user.Some?
            && backend.Responded? && backend.response.success && backend.response.user.Some?)
      && (signIn.Failed? ==> Last(r.states) == AuthState.Error("Google login failed: " + Render(signIn.message)))
      && (signIn == Succeeded(None) ==> r.states == [AuthState.Loading])
  {
  }

  /** A reset request always ends in Success or Error, never stays Loading,
      and sends exactly one reset email to the address given. */
  lemma PasswordResetOutcome(email: string, answer: ResetAnswer)
    ensures var r := PasswordResetRun(email, answer);
      && r.calls == [SendPasswordResetEmail(email)]
      && |r.states| == 2 && r.states[0] == ForgotPasswordState.Loading
      && (Last(r.states) == ForgotPasswordState.Success <==> answer.Sent?)
      && (answer == NotSent(None) ==> Last(r.states) == ForgotPasswordState.Error("Unknown error"))
  {
  }

  /** Whatever the view model has been asked to do, and in whatever order the
      completions arrived, neither flow has emitted Idle since the view model
      was created, and each flow's last emission is its current value. */
  lemma LoginNeverEmitsIdleAgain(vm: LoginViewModel)
    requires vm.Valid()
    ensures AssignedFrom(Conflate(vm.loginAssigned), AuthState.Idle, vm.loginState)
    ensures AssignedFrom(Conflate(vm.forgotAssigned), ForgotPasswordState.Idle, vm.forgotPasswordState)
  {
    ConflateNeverReturns(vm.loginAssigned, AuthState.Idle, vm.loginState);
    ConflateNeverReturns(vm.forgotAssigned, ForgotPasswordState.Idle, vm.forgotPasswordState);
  }

  /** Delivers the completion of the backend call. */
  method DeliverExchange(vm: LoginViewModel, backend: BackendAnswer)
    requires vm.Valid() && vm.pending[Exchange] > 0
    modifies vm`loginState, vm`loginAssigned, vm`pending
    ensures vm.Valid()
    ensures vm.loginState == BackendOutcome(backend, BackendRejectedMessage)
    ensures vm.loginAssigned == old(vm.loginAssigned) + [vm.loginState]
    ensures vm.pending == old(vm.pending)[Exchange := old(vm.pending)[Exchange] - 1]
  {
    match backend
    case Responded(res) => vm.OnBackendResponse(res);
    case Threw(m) => vm.OnBackendException(m);
  }

  /** Delivers a sign-in task's completion and, when that starts the backend
      exchange, the backend call's. */
  method DeliverSignIn(vm: LoginViewModel, listener: Listener, signIn: ProviderAnswer, backend: BackendAnswer)
    requires vm.Valid() && (listener == EmailSignIn || listener == GoogleSignIn) && vm.pending[listener] > 0
    modifies vm`loginState, vm`loginAssigned, vm`calls, vm`pending
    ensures vm.Valid()
    ensures var r := AfterProvider(signIn, SignInFailure(listener), None, backend, BackendRejectedMessage);
      && vm.loginAssigned == old(vm.loginAssigned) + r.states
      && vm.calls == old(vm.calls) + r.calls
    ensures vm.pending == old(vm.pending)[listener := old(vm.pending)[listener] - 1]
  {
    match signIn
    case Failed(m) =>
      if listener == EmailSignIn {
        vm.OnEmailSignInFailure();
      } else {
        vm.OnGoogleSignInFailure(m);
      }
    case Succeeded(user) =>
      ghost var p0 := vm.pending;
      vm.OnSignInSuccess(listener, user);
      if user.Some? {
        DeliverExchange(vm, backend);
        assert vm.pending == p0[listener := p0[listener] - 1];
      }
  }

  /** Submits the login form and delivers the completions in order. */
  method SubmitEmailLogin(vm: LoginViewModel, email: string, password: string, emailPattern: string -> bool,
                          signIn: ProviderAnswer, backend: BackendAnswer)
    requires vm.Valid()
    modifies vm`loginState, vm`loginAssigned, vm`calls, vm`pending
    ensures vm.Valid()
    ensures var r := EmailLogin(email, password, emailPattern, signIn, backend);
      && vm.loginAssigned == old(vm.loginAssigned) + r.states
      && vm.calls == old(vm.calls) + r.calls
      && vm.loginState == Last(r.states)
    ensures vm.pending == old(vm.pending)
  {
    ghost var p0 := vm.pending;
    vm.ValidateAndLogin(email, password, emailPattern);
    if IsBlank(email) || IsBlank(password) || !emailPattern(email) {
    } else {
      DeliverSignIn(vm, EmailSignIn, signIn, backend);
      assert vm.pending == p0;
    }
  }

  /** Signs in with Google and delivers the completions in order. */
  method SubmitGoogleLogin(vm: LoginViewModel, idToken: Option<string>, signIn: ProviderAnswer, backend: BackendAnswer)
    requires vm.Valid()
    modifies vm`loginState, vm`loginAssigned, vm`calls, vm`pending
    ensures vm.Valid()
    ensures var r := GoogleLogin(idToken, signIn, backend);
      && vm.loginAssigned == old(vm.loginAssigned) + r.states
      && vm.calls == old(vm.calls) + r.calls
      && vm.loginState == Last(r.states)
    ensures vm.pending == old(vm.pending)
  {
    ghost var p0 := vm.pending;
    vm.LoginWithGoogle(idToken);
    DeliverSignIn(vm, GoogleSignIn, signIn, backend);
    assert vm.pending == p0;
  }

  /** Asks for a password-reset email and delivers the completion. */
  method SubmitPasswordReset(vm: LoginViewModel, email: string, answer: ResetAnswer)
    requires vm.Valid()
    modifies vm`forgotPasswordState, vm`forgotAssigned, vm`calls, vm`pending
    ensures vm.Valid()
    ensures var r := PasswordResetRun(email, answer);
      && vm.forgotAssigned == old(vm.forgotAssigned) + r.states
      && vm.calls == old(vm.calls) + r.calls
    ensures vm.pending == old(vm.pending)
    ensures vm.loginState == old(vm.loginState) && vm.loginAssigned == old(vm.loginAssigned)
  {
    ghost var p0 := vm.pending;
    vm.ResetPassword(email);
    match answer
    case Sent => vm.OnResetSuccess();
    case NotSent(m) => vm.OnResetFailure(m);
    assert vm.pending == p0;
  }
}
