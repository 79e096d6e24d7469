/** `RegisterViewModel`: account creation with email and password, followed by
    the same backend exchange as the login flow. As there, every asynchronous
    completion is its own method. */
module Register {
  import opened AuthModel
  import opened Text

  type RegisterState = AuthState

  const BlankFieldsMessage := "Vui lòng nhập đầy đủ các trường"
  const InvalidEmailMessage := "Email không hợp lệ"
  const PasswordTooShortMessage := "Mật khẩu phải có ít nhất 6 ký tự"
  const PasswordMismatchMessage := "Mật khẩu xác nhận không khớp"
  const CreationFailedPrefix := "Registration failed: "
  const BackendRejectedMessage := "Registration failed"

  /** The shortest password accepted, in UTF-16 code units. */
  const MinPasswordLength := 6

  const CreationFailure := Prefixed(CreationFailedPrefix)

  /** The `when` chain of `validateAndRegister`: any of the four fields blank,
      then the email pattern (`Patterns.EMAIL_ADDRESS`, given as
      `emailPattern`), then the password's length, then the confirmation. */
  function ValidateRegister(email: string, password: string, confirmPassword: string, username: string,
                            emailPattern: string -> bool): (c: Check)
    ensures c == Reject(BlankFieldsMessage) <==>
      IsBlank(email) || IsBlank(password) || IsBlank(confirmPassword) || IsBlank(username)
    ensures c == Reject(InvalidEmailMessage) <==>
      && !IsBlank(email) && !IsBlank(password) && !IsBlank(confirmPassword) && !IsBlank(username)
      && !emailPattern(email)
    ensures c == Reject(PasswordTooShortMessage) <==>
      && !IsBlank(email) && !IsBlank(password) && !IsBlank(confirmPassword) && !IsBlank(username)
      && emailPattern(email) && Utf16Length(password) < MinPasswordLength
    ensures c == Reject(PasswordMismatchMessage) <==>
      && !IsBlank(email) && !IsBlank(password) && !IsBlank(confirmPassword) && !IsBlank(username)
      && emailPattern(email) && Utf16Length(password) >= MinPasswordLength && password != confirmPassword
    ensures c == Pass <==>
      && !IsBlank(email) && !IsBlank(password) && !IsBlank(username)
      && emailPattern(email) && Utf16Length(password) >= MinPasswordLength && password == confirmPassword
  {
    if IsBlank(email) || IsBlank(password) || IsBlank(confirmPassword) || IsBlank(username) then
      Reject(BlankFieldsMessage)
    else if !emailPattern(email) then Reject(InvalidEmailMessage)
    else if Utf16Length(password) < MinPasswordLength then Reject(PasswordTooShortMessage)
    else if password != confirmPassword then Reject(PasswordMismatchMessage)
    else Pass
  }

  class RegisterViewModel {
    /** `_registerState.value`. */
    var registerState: RegisterState

    /** Every value assigned to the flow, oldest first. */
    ghost var registerAssigned: seq<RegisterState>
    /** Every call made to Firebase or to the backend, in order. */
    ghost var calls: seq<ExternalCall>
    /** How many account creations are still to complete, by the username
        their success listener captured. */
    ghost var creations: map<string, nat>
    /** How many backend exchanges are still to complete. */
    ghost var exchanges: nat

    ghost predicate Valid()
      reads this
    {
      AssignedFrom(registerAssigned, AuthState.Idle, registerState)
    }

    /** Awaited account creations for `username`. */
    ghost function Creations(username: string): nat
      reads this
    {
      if username in creations then creations[username] else 0
    }

    constructor ()
      ensures Valid()
      ensures registerState == AuthState.Idle && registerAssigned == [AuthState.Idle]
      ensures calls == [] && creations == map[] && exchanges == 0
    {
      registerState := AuthState.Idle;
      registerAssigned := [AuthState.Idle];
      calls := [];
      creations := map[];
      exchanges := 0;
    }

    /** `_registerState.value = s`. */
    method SetRegisterState(s: RegisterState)
      requires Valid() && s != AuthState.Idle
      modifies this`registerState, this`registerAssigned
      ensures Valid()
      ensures registerState == s && registerAssigned == old(registerAssigned) + [s]
    {
      registerState := s;
      registerAssigned := registerAssigned + [s];
    }

    /** `registerWithFirebase`: publishes Loading, sends the four arguments to
        the backend as they are and suspends until the call ends. */
    method RegisterWithFirebase(uid: string, email: string, name: Option<string>, avatar: Option<string>)
      requires Valid()
      modifies this`registerState, this`registerAssigned, this`calls, this`exchanges
      ensures Valid()
      ensures registerState == AuthState.Loading && registerAssigned == old(registerAssigned) + [AuthState.Loading]
      ensures calls == old(calls) + [AuthWithFirebase(Request(uid, email, name, avatar))]
      ensures exchanges == old(exchanges) + 1
    {
      SetRegisterState(AuthState.Loading);
      calls := calls + [AuthWithFirebase(Request(uid, email, name, avatar))];
      exchanges := exchanges + 1;
    }

    /** The backend call of `registerWithFirebase` returned `res`. */
    method OnBackendResponse(res: UserResponse)
      requires Valid() && exchanges > 0
      modifies this`registerState, this`registerAssigned, this`exchanges
      ensures Valid()
      ensures registerState == ExchangeOutcome(res, BackendRejectedMessage)
      ensures registerAssigned == old(registerAssigned) + [registerState]
      ensures exchanges == old(exchanges) - 1
    {
      exchanges := exchanges - 1;
      if res.success && res.user.Some? {
        SetRegisterState(AuthState.Success(res.user.value));
      } else {
        SetRegisterState(AuthState.Error(BackendRejectedMessage));
      }
    }

    /** The backend call of `registerWithFirebase` threw an exception whose
        `localizedMessage` is `message`. */
    method OnBackendException(message: Option<string>)
      requires Valid() && exchanges > 0
      modifies this`registerState, this`registerAssigned, this`exchanges
      ensures Valid()
      ensures registerState == AuthState.Error("Error: " + Render(message))
      ensures registerAssigned == old(registerAssigned) + [registerState]
      ensures exchanges == old(exchanges) - 1
    {
      exchanges := exchanges - 1;
      SetRegisterState(AuthState.Error("Error: " + Render(message)));
    }

    /** `registerWithEmail`: publishes Loading and starts creating the account;
        the success listener remembers `username`. */
    method RegisterWithEmail(email: string, password: string, username: string)
      requires Valid()
      modifies this`registerState, this`registerAssigned, this`calls, this`creations
      ensures Valid()
      ensures registerState == AuthState.Loading && registerAssigned == old(registerAssigned) + [AuthState.Loading]
      ensures calls == old(calls) + [CreateUserWithEmailAndPassword(email, password)]
      ensures creations == old(creations)[username := old(Creations(username)) + 1]
    {
      SetRegisterState(AuthState.Loading);
      calls := calls + [CreateUserWithEmailAndPassword(email, password)];
      creations := creations[username := Creations(username) + 1];
    }

    /** The success listener of an account creation started for `username`:
        a null `result.user` does nothing, otherwise the backend exchange
        starts with the new account's uid, email (or ""), the username typed
        into the form (not the provider's display name) and the photo URL. */
    method OnCreateUserSuccess(username: string, user: Option<FirebaseUser>)
      requires Valid() && Creations(username) > 0
      modifies this`registerState, this`registerAssigned, this`calls, this`creations, this`exchanges
      ensures Valid()
      ensures creations == old(creations)[username := old(Creations(username)) - 1]
      ensures user.None? ==>
        && registerState == old(registerState) && registerAssigned == old(registerAssigned)
        && calls == old(calls) && exchanges == old(exchanges)
      ensures user.Some? ==>
        && registerState == AuthState.Loading && registerAssigned == old(registerAssigned) + [AuthState.Loading]
        && calls == old(calls) + [AuthWithFirebase(SignedInRequest(user.value, Some(username)))]
        && exchanges == old(exchanges) + 1
    {
      creations := creations[username := Creations(username) - 1];
      if user.Some? {
        var u := user.value;
        RegisterWithFirebase(u.uid, u.email.GetOr(""), Some(username), u.photoUrl);
      }
    }

    /** The failure listener of an account creation started for `username`;
        `message` is the exception's. */
    method OnCreateUserFailure(username: string, message: Option<string>)
      requires Valid() && Creations(username) > 0
      modifies this`registerState, this`registerAssigned, this`creations
      ensures Valid()
      ensures registerState == AuthState.Error(CreationFailedPrefix + Render(message))
      ensures registerAssigned == old(registerAssigned) + [registerState]
      ensures creations == old(creations)[username := old(Creations(username)) - 1]
    {
      creations := creations[username := Creations(username) - 1];
      SetRegisterState(AuthState.Error(CreationFailedPrefix + Render(message)));
    }

    /** `validateAndRegister`: a rejected input publishes the first failing
        guard's message and starts nothing; an accepted one is
        `registerWithEmail`. */
    method ValidateAndRegister(email: string, password: string, confirmPassword: string, username: string,
                               emailPattern: string -> bool)
      requires Valid()
      modifies this`registerState, this`registerAssigned, this`calls, this`creations
      ensures Valid()
      ensures ValidateRegister(email, password, confirmPassword, username, emailPattern).Reject? ==>
        && registerState == AuthState.Error(ValidateRegister(email, password, confirmPassword, username, emailPattern).message)
        && registerAssigned == old(registerAssigned) + [registerState]
        && calls == old(calls) && creations == old(creations)
      ensures ValidateRegister(email, password, confirmPassword, username, emailPattern).Pass? ==>
        && registerState == AuthState.Loading
        && registerAssigned == old(registerAssigned) + [AuthState.Loading]
        && calls == old(calls) + [CreateUserWithEmailAndPassword(email, password)]
        && creations == old(creations)[username := old(Creations(username)) + 1]
    {
      if IsBlank(email) || IsBlank(password) || IsBlank(confirmPassword) || IsBlank(username) {
        SetRegisterState(AuthState.Error(BlankFieldsMessage));
      } else if !emailPattern(email) {
        SetRegisterState(AuthState.Error(InvalidEmailMessage));
      } else if Utf16Length(password) < MinPasswordLength {
        SetRegisterState(AuthState.Error(PasswordTooShortMessage));
      } else if password != confirmPassword {
        SetRegisterState(AuthState.Error(PasswordMismatchMessage));
      } else {
        RegisterWithEmail(email, password, username);
      }
    }
  }

  // ---------------------------------------------------------------------------
  // A whole registration, with every completion arriving in order.

  /** `validateAndRegister`, then the account creation's completion, then
      (when it starts one) the backend call's. */
  function Registration(email: string, password: string, confirmPassword: string, username: string,
                        emailPattern: string -> bool, creation: ProviderAnswer, backend: BackendAnswer): Run<RegisterState>
  {
    match ValidateRegister(email, password, confirmPassword, username, emailPattern)
    case Reject(m) => Run([AuthState.Error(m)], [])
    case Pass =>
      Then(Run([AuthState.Loading], [CreateUserWithEmailAndPassword(email, password)]),
           AfterProvider(creation, CreationFailure, Some(username), backend, BackendRejectedMessage))
  }

  /** The final state of a registration: Success(user) exactly when every
      check passes, the account is created with a user and the backend
      accepts it with a user; Loading when the creation returns no user;
      Error otherwise. Nothing is created when a check fails, no assigned
      value is Idle, and the backend always receives the typed username. */
  lemma RegistrationOutcome(email: string, password: string, confirmPassword: string, username: string,
                            emailPattern: string -> bool, creation: ProviderAnswer, backend: BackendAnswer)
    ensures var r := Registration(email, password, confirmPassword, username, emailPattern, creation, backend);
      && |r.states| > 0
      && (forall i | 0 <= i < |r.states| :: r.states[i] != AuthState.Idle)
      && (r.calls == [] <==> ValidateRegister(email, password, confirmPassword, username, emailPattern).Reject?)
      && (Last(r.states).Success? <==>
            && ValidateRegister(email, password, confirmPassword, username, emailPattern).Pass?
            && creation.Succeeded? && creation.user.Some?
            && backend.Responded? && backend.response.success && backend.response.user.Some?)
      && (Last(r.states).Success? ==> Last(r.states).user == backend.response.user.value)
      && (Last(r.states) == AuthState.Loading <==>
            ValidateRegister(email, password, confirmPassword, username, emailPattern).Pass?
            && creation == Succeeded(None))
      && (forall i | 0 <= i < |r.calls| && r.calls[i].AuthWithFirebase? ::
            r.calls[i].request.username == Some(username))
  {
  }

  /** A registration is only ever started for a password of at least six
      UTF-16 units that equals its confirmation. */
  lemma CreationNeedsGoodPassword(email: string, password: string, confirmPassword: string, username: string,
                                  emailPattern: string -> bool, creation: ProviderAnswer, backend: BackendAnswer)
    requires Registration(email, password, confirmPassword, username, emailPattern, creation, backend).calls != []
    ensures Utf16Length(password) >= MinPasswordLength && password == confirmPassword
    ensures Registration(email, password, confirmPassword, username, emailPattern, creation, backend).calls[0] ==
      CreateUserWithEmailAndPassword(email, password)
  {
  }

  /** The length check comes before the confirmation check: a five-character
      password is reported as too short even when the confirmation differs. */
  lemma ShortPasswordReportedBeforeMismatch(emailPattern: string -> bool)
    requires emailPattern("a@b.com")
    ensures ValidateRegister("a@b.com", "abc12", "abc13", "bob", emailPattern) == Reject(PasswordTooShortMessage)
  {
    assert !IsWhitespace("a@b.com"[0]) && !IsWhitespace("abc12"[0]);
    assert !IsWhitespace("abc13"[0]) && !IsWhitespace("bob"[0]);
    Utf16LengthExample();
  }

  /** Kotlin's `length` counts UTF-16 units: three characters outside the
      Basic Multilingual Plane already make a long enough password. */
  lemma SurrogatePairsCountTwice(emailPattern: string -> bool)
    requires emailPattern("a@b.com")
    ensures ValidateRegister("a@b.com", "\U{1F3B5}\U{1F3B5}\U{1F3B5}", "\U{1F3B5}\U{1F3B5}\U{1F3B5}", "bob",
                             emailPattern) == Pass
  {
    assert !IsWhitespace("a@b.com"[0]) && !IsWhitespace("\U{1F3B5}\U{1F3B5}\U{1F3B5}"[0]);
    assert !IsWhitespace("bob"[0]);
    Utf16LengthExample();
  }

  /** Whatever the view model has been asked to do, and in whatever order the
      completions arrived, the flow has not emitted Idle since the view model
      was created, and its last emission is its current value. */
  lemma RegisterNeverEmitsIdleAgain(vm: RegisterViewModel)
    requires vm.Valid()
    ensures AssignedFrom(Conflate(vm.registerAssigned), AuthState.Idle, vm.registerState)
  {
    ConflateNeverReturns(vm.registerAssigned, AuthState.Idle, vm.registerState);
  }

  /** Delivers the completion of the backend call. */
  method DeliverExchange(vm: RegisterViewModel, backend: BackendAnswer)
    requires vm.Valid() && vm.exchanges > 0
    modifies vm`registerState, vm`registerAssigned, vm`exchanges
    ensures vm.Valid()
    ensures vm.registerState == BackendOutcome(backend, BackendRejectedMessage)
    ensures vm.registerAssigned == old(vm.registerAssigned) + [vm.registerState]
    ensures vm.exchanges == old(vm.exchanges) - 1
  {
    match backend
    case Responded(res) => vm.OnBackendResponse(res);
    case Threw(m) => vm.OnBackendException(m);
  }

  /** Delivers an account creation's completion and, when that starts the
      backend exchange, the backend call's. */
  method DeliverCreation(vm: RegisterViewModel, username: string, creation: ProviderAnswer, backend: BackendAnswer)
    requires vm.Valid() && vm.Creations(username) > 0
    modifies vm`registerState, vm`registerAssigned, vm`calls, vm`creations, vm`exchanges
    ensures vm.Valid()
    ensures var r := AfterProvider(creation, CreationFailure, Some(username), backend, BackendRejectedMessage);
      && vm.registerAssigned == old(vm.registerAssigned) + r.states
      && vm.calls == old(vm.calls) + r.calls
    ensures vm.creations == old(vm.creations)[username := old(vm.Creations(username)) - 1]
    ensures vm.exchanges == old(vm.exchanges)
  {
    match creation
    case Failed(m) => vm.OnCreateUserFailure(username, m);
    case Succeeded(user) =>
      vm.OnCreateUserSuccess(username, user);
      if user.Some? {
        DeliverExchange(vm, backend);
      }
  }

  /** Submits the registration form and delivers the completions in order. */
  method SubmitRegistration(vm: RegisterViewModel, email: string, password: string, confirmPassword: string,
                            username: string, emailPattern: string -> bool,
                            creation: ProviderAnswer, backend: BackendAnswer)
    requires vm.Valid()
    modifies vm`registerState, vm`registerAssigned, vm`calls, vm`creations, vm`exchanges
    ensures vm.Valid()
    ensures var r := Registration(email, password, confirmPassword, username, emailPattern, creation, backend);
      && vm.registerAssigned == old(vm.registerAssigned) + r.states
      && vm.calls == old(vm.calls) + r.calls
      && vm.registerState == Last(r.states)
    ensures forall u :: vm.Creations(u) == old(vm.Creations(u))
    ensures vm.exchanges == old(vm.exchanges)
  {
    vm.ValidateAndRegister(email, password, confirmPassword, username, emailPattern);
    if ValidateRegister(email, password, confirmPassword, username, emailPattern).Pass? {
      DeliverCreation(vm, username, creation, backend);
    }
  }
}
