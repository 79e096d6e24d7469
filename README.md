# MusicApp sign-in and registration view models, in Dafny

This project models the two view models of the MusicApp Android client:

- `LoginViewModel` handles email/password sign-in, Google sign-in and the forgot-password sub-flow.
- `RegisterViewModel` handles account creation with a four-step validation chain.

Each view model has a validation chain in front. It then calls the identity
provider (Firebase Auth) and exchanges the result with the backend
(`POST auth/firebase`). It publishes progress as a sealed state,
`Idle | Loading | Success(User) | Error(message)`, held in a `MutableStateFlow`.

Files:

- `auth_model.dfy` (module `AuthModel`) holds the shared material:
  - the data classes `User`, `AuthRequest` and `UserResponse`;
  - the state types and the calls made outside the core;
  - the mapping from a backend answer to a state;
  - a model of what a `MutableStateFlow` emits.
- `text.dfy` (module `Text`) holds the parts of Kotlin's string library the guards use on the JVM:
  - `isBlank()` over `Char.isWhitespace()`;
  - `String.length`, counted in UTF-16 units.
- `login_view_model.dfy` (module `Login`) and `register_view_model.dfy` (module `Register`) hold:
  - the validation chain, as a pure function;
  - the view model, as a class.

The class's fields are the flows' current values (`_loginState.value`, `_forgotPasswordState.value`, `_registerState.value`). Ghost fields record three further things:

- every value assigned to each flow, in order;
- every call made to Firebase or to the backend (`calls`);
- which asynchronous completions are still outstanding.

Every completion is its own method, so a sequence of method calls is one order in which the callbacks can arrive. Examples are `OnSignInSuccess`, `OnBackendResponse` and `OnBackendException`. A method for a completion requires that the completion is outstanding.

Each module also has a function from a submission's inputs and collaborator answers to its `Run`. A `Run` holds the values assigned and the external calls made. Lemmas state what the source promises about runs. Driver methods (`SubmitEmailLogin`, `SubmitRegistration`, …) deliver the completions in order, and their `ensures` tie the class's new state to the run.

Collaborators outside the core become inputs:

- The email regex `Patterns.EMAIL_ADDRESS` is the function parameter `emailPattern`.
- Firebase's answer is a `ProviderAnswer`: a possibly absent user, or a failure with a nullable message.
- The Retrofit call is a `BackendAnswer`: a decoded `UserResponse`, or an exception with a nullable message.

Points where the model follows the code closely:

- The messages are the code's literal strings. These are Vietnamese for validation, then "Login thất bại", "Google login failed: …", "Login failed", "Error: …", "Registration failed: …" and "Registration failed". The backend's failures are not split into kinds: a rejection and a success flag without a user give the same fixed message, and an exception gives "Error: …".
- A rejected input goes straight from the current state to `Error` with no `Loading` in between.
- A provider success without a user leaves the flow in `Loading` for good. A sign-in or account creation that reaches the backend assigns `Loading` twice, once before the provider call and once when the exchange starts; the flow emits only the first (`EmailLoginHappyPath`). A collector that keeps up sees exactly what the flow emits.

The app's screens do not call the validating entry points:

- `LoginScreen.kt` calls Firebase itself and then `loginWithFirebase`.
- `RegisterScreen.kt` only compares the two passwords before `registerWithFirebase`.

The model covers the view-model API as written, not that wiring.

## Model

| member | source | states |
|---|---|---|
| AuthModel.Option.GetOr | app/src/main/java/com/example/musicapp/views/login/LoginViewModel.kt:63 | Kotlin's `?:`: the value when present, the default otherwise |
| AuthModel.Render | app/src/main/java/com/example/musicapp/views/login/LoginViewModel.kt:87 | a nullable message in a string template is the message itself, or "null" |
| AuthModel.Request | app/src/main/java/com/example/musicapp/views/login/LoginViewModel.kt:44 | the request carries uid, email, name and avatar unchanged and in order |
| AuthModel.ExchangeOutcome | app/src/main/java/com/example/musicapp/views/login/LoginViewModel.kt:46-50 | the state is Success exactly when `success` is set and a user is present, and then carries that user; otherwise it is the flow's fixed rejection message |
| AuthModel.ExceptionOutcome | app/src/main/java/com/example/musicapp/views/login/LoginViewModel.kt:51-53 | an exception gives Error("Error: " + its message) |
| AuthModel.BackendOutcome | app/src/main/java/com/example/musicapp/views/login/LoginViewModel.kt:43-53 | the exchange always ends in Success or Error, and in Success exactly when a response with the flag and a user came back |
| AuthModel.SignedInRequest | app/src/main/java/com/example/musicapp/views/login/LoginViewModel.kt:62-64 | the backend gets the provider's uid and photo URL, its email or "" when absent, and the name chosen by the flow |
| AuthModel.FailureMessage | app/src/main/java/com/example/musicapp/views/login/LoginViewModel.kt:66-88 | a provider failure listener's message: a fixed text ("Login thất bại"), or a prefix followed by the rendered exception message |
| AuthModel.AfterProvider | app/src/main/java/com/example/musicapp/views/register/RegisterViewModel.kt:52-64 | what a provider task's completion leads to: a failure assigns the flow's failure message and calls nothing; a success without a user assigns and calls nothing; a success with a user assigns Loading, sends one request and assigns the backend's outcome |
| AuthModel.Conflate | app/src/main/java/com/example/musicapp/views/login/LoginViewModel.kt:33-34 | what the flow emits is no longer than what was assigned, starts with the initial value and ends with the current one |
| AuthModel.ConflateHasNoRepeats | app/src/main/java/com/example/musicapp/views/login/LoginViewModel.kt:33-34 | the flow never emits the same value twice in a row, and emits only values that were assigned |
| AuthModel.ConflateKeepsOrder | app/src/main/java/com/example/musicapp/views/login/LoginViewModel.kt:33-34 | the emissions are a subsequence of the assignments, in their order, that contains every assigned value |
| AuthModel.ConflateCountsChanges | app/src/main/java/com/example/musicapp/views/login/LoginViewModel.kt:33-34 | the flow emits the initial value plus exactly one value per assignment that differs from the one before; with the two lemmas above, only values equal to their predecessor are dropped |
| AuthModel.ConflateNeverReturns | app/src/main/java/com/example/musicapp/views/login/LoginViewModel.kt:33-37 | a flow never assigned its initial value again never emits it again |
| Text.IsWhitespace | app/src/main/java/com/example/musicapp/views/login/LoginViewModel.kt:106 | `Char.isWhitespace()` on the JVM: TAB to CR, the separators U+001C to U+001F, space, and the Unicode space, line and paragraph separators |
| Text.IsBlank | app/src/main/java/com/example/musicapp/views/register/RegisterViewModel.kt:30 | `isBlank()`: every character is whitespace, so the empty string is blank |
| Text.TrimStart | app/src/main/java/com/example/musicapp/views/login/LoginViewModel.kt:106 | a reference definition for `isBlank()` (the code itself never calls `trimStart()`): the suffix left after dropping leading whitespace, which is empty or starts with a visible character; `BlankIffTrimsToEmpty` ties it to `IsBlank` |
| Text.BlankIffTrimsToEmpty | app/src/main/java/com/example/musicapp/views/login/LoginViewModel.kt:106 | `isBlank()` holds exactly when `trimStart()` leaves nothing |
| Text.Utf16Length | app/src/main/java/com/example/musicapp/views/register/RegisterViewModel.kt:36 | `String.length` lies between the number of characters and twice it, and is 0 only for "" |
| Text.Utf16LengthOfBmp | app/src/main/java/com/example/musicapp/views/register/RegisterViewModel.kt:36 | for characters of the Basic Multilingual Plane, `length` is the number of characters |
| Text.Utf16LengthExample | app/src/main/java/com/example/musicapp/views/register/RegisterViewModel.kt:36 | three astral-plane characters have length 6; "abc12" has length 5 |
| Login.ValidateLogin | app/src/main/java/com/example/musicapp/views/login/LoginViewModel.kt:104-116 | blank-fields message iff either field is blank; invalid-email message iff neither is blank and the pattern fails; pass iff both checks pass |
| Login.LoginViewModel.constructor | app/src/main/java/com/example/musicapp/views/login/LoginViewModel.kt:33-37 | both flows start Idle; nothing called, nothing outstanding |
| Login.LoginViewModel.SetLoginState | app/src/main/java/com/example/musicapp/views/login/LoginViewModel.kt:33-34 | an assignment to `_loginState.value` becomes the current value and is recorded |
| Login.LoginViewModel.SetForgotPasswordState | app/src/main/java/com/example/musicapp/views/login/LoginViewModel.kt:36-37 | an assignment to `_forgotPasswordState.value` becomes the current value and is recorded |
| Login.LoginViewModel.LoginWithFirebase | app/src/main/java/com/example/musicapp/views/login/LoginViewModel.kt:40-45 | assigns Loading, sends the request built from the four arguments, and awaits the backend |
| Login.LoginViewModel.OnBackendResponse | app/src/main/java/com/example/musicapp/views/login/LoginViewModel.kt:45-50 | the new state is the response's outcome with "Login failed" as the rejection |
| Login.LoginViewModel.OnBackendException | app/src/main/java/com/example/musicapp/views/login/LoginViewModel.kt:51-53 | the new state is Error("Error: " + message) |
| Login.LoginViewModel.LoginWithEmail | app/src/main/java/com/example/musicapp/views/login/LoginViewModel.kt:58-60 | assigns Loading before starting the email/password sign-in |
| Login.LoginViewModel.LoginWithGoogle | app/src/main/java/com/example/musicapp/views/login/LoginViewModel.kt:72-75 | assigns Loading before signing in with the account's id token |
| Login.LoginViewModel.OnSignInSuccess | app/src/main/java/com/example/musicapp/views/login/LoginViewModel.kt:61-65 | no user: nothing changes (the flow stays where it was); a user: the backend exchange starts with the provider's display name |
| Login.LoginViewModel.OnEmailSignInFailure | app/src/main/java/com/example/musicapp/views/login/LoginViewModel.kt:66-68 | the new state is Error("Login thất bại") |
| Login.LoginViewModel.OnGoogleSignInFailure | app/src/main/java/com/example/musicapp/views/login/LoginViewModel.kt:86-88 | the new state is Error("Google login failed: " + message) |
| Login.LoginViewModel.ResetPassword | app/src/main/java/com/example/musicapp/views/login/LoginViewModel.kt:92-94 | assigns Loading to the forgot-password flow and sends the reset email; the login flow is untouched |
| Login.LoginViewModel.OnResetSuccess | app/src/main/java/com/example/musicapp/views/login/LoginViewModel.kt:95-97 | the forgot-password flow becomes Success; the login flow is untouched |
| Login.LoginViewModel.OnResetFailure | app/src/main/java/com/example/musicapp/views/login/LoginViewModel.kt:98-100 | the forgot-password flow becomes Error(message, or "Unknown error"); the login flow is untouched |
| Login.LoginViewModel.ValidateAndLogin | app/src/main/java/com/example/musicapp/views/login/LoginViewModel.kt:104-116 | a rejected input assigns Error(first failing guard's message) and calls nothing; an accepted one has exactly `loginWithEmail`'s effect |
| Login.EmailLogin | app/src/main/java/com/example/musicapp/views/login/LoginViewModel.kt:40-116 | one email submission with its completions in order: the validation error alone, or Loading and the sign-in call followed by what the provider's answer leads to |
| Login.GoogleLogin | app/src/main/java/com/example/musicapp/views/login/LoginViewModel.kt:72-89 | one Google sign-in: Loading and the credential call, followed by what the provider's answer leads to |
| Login.PasswordResetRun | app/src/main/java/com/example/musicapp/views/login/LoginViewModel.kt:92-101 | one reset: Loading and the reset email, then Success, or Error(message or "Unknown error") |
| Login.EmailLoginOutcome | app/src/main/java/com/example/musicapp/views/login/LoginViewModel.kt:40-116 | a submission assigns no Idle; it calls nothing iff rejected; it ends in Success iff validation, sign-in and backend all succeed, and with the backend's user; it ends in Loading iff the provider returned no user |
| Login.BlankWinsOverPattern | app/src/main/java/com/example/musicapp/views/login/LoginViewModel.kt:105-111 | a blank field gives the blank-fields error and no call, whatever the email pattern says |
| Login.EmailLoginHappyPath | app/src/main/java/com/example/musicapp/views/login/LoginViewModel.kt:40-69 | a good sign-in makes the flow emit Idle, Loading, Success(user), with the sign-in call and then the unchanged request |
| Login.SuccessFlagWithoutUserFails | app/src/main/java/com/example/musicapp/views/login/LoginViewModel.kt:46-50 | `success = true` without a user ends in Error("Login failed") |
| Login.GoogleLoginOutcome | app/src/main/java/com/example/musicapp/views/login/LoginViewModel.kt:72-89 | Google sign-in starts with Loading and the credential call; it ends in Success iff provider and backend succeed; a failure carries the provider's message; no user leaves only Loading |
| Login.PasswordResetOutcome | app/src/main/java/com/example/musicapp/views/login/LoginViewModel.kt:92-101 | one reset email to the given address; Loading then Success iff sent; a failure without a message gives "Unknown error" |
| Login.LoginNeverEmitsIdleAgain | app/src/main/java/com/example/musicapp/views/login/LoginViewModel.kt:33-116 | in every reachable state of the view model, whatever was called and in whatever order completions arrived, neither the login flow nor the forgot-password flow has emitted Idle since creation, and each flow's last emission is its current value |
| Login.DeliverExchange | app/src/main/java/com/example/musicapp/views/login/LoginViewModel.kt:41-54 | delivering the backend's answer assigns that answer's outcome |
| Login.DeliverSignIn | app/src/main/java/com/example/musicapp/views/login/LoginViewModel.kt:61-88 | delivering a sign-in's answer (and the backend's, if it starts one) appends exactly the run's states and calls |
| Login.SubmitEmailLogin | app/src/main/java/com/example/musicapp/views/login/LoginViewModel.kt:104-116 | a whole email submission appends exactly `EmailLogin`'s states and calls, ends in its last state and leaves nothing outstanding |
| Login.SubmitGoogleLogin | app/src/main/java/com/example/musicapp/views/login/LoginViewModel.kt:72-89 | a whole Google sign-in appends exactly `GoogleLogin`'s states and calls |
| Login.SubmitPasswordReset | app/src/main/java/com/example/musicapp/views/login/LoginViewModel.kt:92-101 | a whole reset appends exactly `PasswordResetRun`'s states and calls to the forgot-password flow; the login flow is unchanged |
| Register.ValidateRegister | app/src/main/java/com/example/musicapp/views/register/RegisterViewModel.kt:28-46 | each of the five outcomes holds iff its guard fails and all earlier ones pass: blank (any of four), pattern, UTF-16 length < 6, mismatch, pass |
| Register.RegisterViewModel.constructor | app/src/main/java/com/example/musicapp/views/register/RegisterViewModel.kt:24-25 | the flow starts Idle; nothing called, nothing outstanding |
| Register.RegisterViewModel.SetRegisterState | app/src/main/java/com/example/musicapp/views/register/RegisterViewModel.kt:24-25 | an assignment to `_registerState.value` becomes the current value and is recorded |
| Register.RegisterViewModel.RegisterWithFirebase | app/src/main/java/com/example/musicapp/views/register/RegisterViewModel.kt:68-73 | assigns Loading, sends the request built from the four arguments, and awaits the backend |
| Register.RegisterViewModel.OnBackendResponse | app/src/main/java/com/example/musicapp/views/register/RegisterViewModel.kt:73-78 | the new state is the response's outcome with "Registration failed" as the rejection |
| Register.RegisterViewModel.OnBackendException | app/src/main/java/com/example/musicapp/views/register/RegisterViewModel.kt:79-82 | the new state is Error("Error: " + localized message) |
| Register.RegisterViewModel.RegisterWithEmail | app/src/main/java/com/example/musicapp/views/register/RegisterViewModel.kt:49-51 | assigns Loading before starting account creation, whose listener remembers the username |
| Register.RegisterViewModel.OnCreateUserSuccess | app/src/main/java/com/example/musicapp/views/register/RegisterViewModel.kt:52-61 | no user: nothing changes; a user: the exchange starts with the typed username as name, not the display name |
| Register.RegisterViewModel.OnCreateUserFailure | app/src/main/java/com/example/musicapp/views/register/RegisterViewModel.kt:62-64 | the new state is Error("Registration failed: " + message) |
| Register.RegisterViewModel.ValidateAndRegister | app/src/main/java/com/example/musicapp/views/register/RegisterViewModel.kt:28-46 | a rejected input assigns Error(first failing guard's message) and calls nothing; an accepted one has exactly `registerWithEmail`'s effect |
| Register.Registration | app/src/main/java/com/example/musicapp/views/register/RegisterViewModel.kt:28-84 | one registration with its completions in order: the validation error alone, or Loading and the account creation followed by what the provider's answer leads to, with the typed username as name |
| Register.RegistrationOutcome | app/src/main/java/com/example/musicapp/views/register/RegisterViewModel.kt:28-84 | a registration assigns no Idle; it calls nothing iff rejected; it ends in Success iff every step succeeds, and with the backend's user; it ends in Loading iff no user was created; every backend request carries the typed username |
| Register.CreationNeedsGoodPassword | app/src/main/java/com/example/musicapp/views/register/RegisterViewModel.kt:36-43 | an account is created only for a password of at least 6 units that equals its confirmation, and with the typed email and password |
| Register.ShortPasswordReportedBeforeMismatch | app/src/main/java/com/example/musicapp/views/register/RegisterViewModel.kt:36-41 | a 5-character password with a differing confirmation is reported as too short |
| Register.SurrogatePairsCountTwice | app/src/main/java/com/example/musicapp/views/register/RegisterViewModel.kt:36 | three astral-plane characters pass the length check |
| Register.RegisterNeverEmitsIdleAgain | app/src/main/java/com/example/musicapp/views/register/RegisterViewModel.kt:24-84 | in every reachable state of the view model, whatever was called and in whatever order completions arrived, the flow has not emitted Idle since creation, and its last emission is its current value |
| Register.DeliverExchange | app/src/main/java/com/example/musicapp/views/register/RegisterViewModel.kt:69-83 | delivering the backend's answer assigns that answer's outcome |
| Register.DeliverCreation | app/src/main/java/com/example/musicapp/views/register/RegisterViewModel.kt:52-64 | delivering the creation's answer (and the backend's, if it starts one) appends exactly the run's states and calls |
| Register.SubmitRegistration | app/src/main/java/com/example/musicapp/views/register/RegisterViewModel.kt:28-84 | a whole registration appends exactly `Registration`'s states and calls, ends in its last state and leaves nothing outstanding |

The data classes are datatypes of the same fields:

- `User` (`app/src/main/java/com/example/musicapp/model/User.kt:3-9`), with the Kotlin `Int` id as a 32-bit newtype;
- `AuthRequest` (`app/src/main/java/com/example/musicapp/model/AuthRequest.kt:3-8`);
- `UserResponse` (`app/src/main/java/com/example/musicapp/model/UserResponse.kt:5-8`).

Nullable fields are `Option`.

## Left out

- Compose screens, dialogs, navigation and `MainActivity`: layout and rendering only, with no state logic of the core.
- `GoogleAuthHelper`: a wrapper over the Google Sign-In SDK. `loginWithGoogle` receives only the account's nullable id token.
- `RetrofitInstance` and `ApiService`: HTTP configuration, JSON decoding and the network.
  - The backend call is an input answer, either a decoded `UserResponse` or an exception.
  - A Gson-decoded non-null field that arrives as null is not modelled.
- Firebase Auth internals (credential exchange, account creation, the reset email): each is a recorded call plus callbacks with its answer.
- `Patterns.EMAIL_ADDRESS`: a platform regex whose text is not part of this model. Here it is an uninterpreted `emailPattern` parameter.
- Coroutine scheduling of `viewModelScope.launch`: the body of `loginWithFirebase`/`registerWithFirebase` is taken to start at once, so Loading is assigned in the same step as the call.
- Overlapping submissions: the outstanding-completion counters allow any order of delivery to the class methods. The `Run` functions and the driver methods describe only one submission at a time, with completions in order.
- Cancellation of the view-model scope, and `printStackTrace`: not modelled. A `CancellationException` caught by `catch (e: Exception)` is treated as an ordinary exception.
- `Char.isWhitespace`: the set used is that of current JVMs. It follows Unicode's space separators and does not track changes between Unicode versions.
- `Screen.kt`: route constants only.
- Slow collectors of a `StateFlow`: the model describes what the flow emits. A collector that falls behind can skip distinct intermediate values (it may see `Idle`, then `Success(user)` without `Loading`); only the most recent value is guaranteed to it.
