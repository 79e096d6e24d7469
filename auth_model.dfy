/** Data classes, observable states and the backend-exchange mapping shared by
    the login and register view models of the MusicApp client. */
module AuthModel {

  datatype Option<+T> = None | Some(value: T) {
    function GetOr(default: T): (r: T)
      ensures Some? ==> r == value
      ensures None? ==> r == default
    {
      match this
      case Some(v) => v
      case None => default
    }
  }

  /** Kotlin's `Int`: the backend's numeric user id is a 32-bit signed value. */
  newtype Int32 = x: int | -0x8000_0000 <= x < 0x8000_0000

  /** `User`: the application user record returned by the backend. */
  datatype User = User(
    id: Int32,
    firebaseUid: string,
    email: string,
    username: Option<string>,
    avatarUrl: Option<string>)

  /** `AuthRequest`: the body of `POST auth/firebase`. */
  datatype AuthRequest = AuthRequest(
    uid: string,
    email: string,
    username: Option<string>,
    avatarUrl: Option<string>)

  /** `UserResponse`: the backend's answer. */
  datatype UserResponse = UserResponse(success: bool, user: Option<User>)

  /** The fields of the identity provider's `FirebaseUser` the view models read;
      `photoUrl` is the URI already rendered with `toString()`. */
  datatype FirebaseUser = FirebaseUser(
    uid: string,
    email: Option<string>,
    displayName: Option<string>,
    photoUrl: Option<string>)

  /** `LoginState` and `RegisterState`: two sealed classes of identical shape. */
  datatype AuthState = Idle | Loading | Success(user: User) | Error(message: string)

  /** `ForgotPasswordState`: like AuthState, but `Success` carries nothing. */
  datatype ForgotPasswordState = Idle | Loading | Success | Error(message: string)

  /** The outcome of a validation chain: the first failing guard's message, or a pass. */
  datatype Check = Pass | Reject(message: string)

  /** Every call the view models make to a collaborator outside the core. */
  datatype ExternalCall =
    | SignInWithEmailAndPassword(email: string, password: string)
    | SignInWithCredential(idToken: Option<string>)
    | SendPasswordResetEmail(resetEmail: string)
    | CreateUserWithEmailAndPassword(newEmail: string, newPassword: string)
    | AuthWithFirebase(request: AuthRequest)

  /** How an identity-provider task completes: its success listener receives
      `result.user`, its failure listener the exception's `message`. */
  datatype ProviderAnswer = Succeeded(user: Option<FirebaseUser>) | Failed(message: Option<string>)

  /** How the suspended backend call completes: a decoded response or an
      exception with its (nullable) message. */
  datatype BackendAnswer = Responded(response: UserResponse) | Threw(message: Option<string>)

  /** A nullable string inside a Kotlin string template: `null` prints as "null". */
  function Render(m: Option<string>): (r: string)
    ensures m.Some? ==> r == m.value
    ensures m.None? ==> r == "null"
  {
    match m
    case Some(s) => s
    case None => "null"
  }

  /** The request the source builds for `loginWithFirebase(uid, email, name, avatar)`
      and `registerWithFirebase(...)`: the four arguments, unchanged and in order. */
  function Request(uid: string, email: string, name: Option<string>, avatar: Option<string>): (req: AuthRequest)
    ensures req.uid == uid && req.email == email
    ensures req.username == name && req.avatarUrl == avatar
  {
    AuthRequest(uid, email, name, avatar)
  }

  /** The state a decoded backend response leads to: success needs both the
      `success` flag and a user; every other response is the fixed `rejected`
      message of the calling flow. */
  function ExchangeOutcome(res: UserResponse, rejected: string): (s: AuthState)
    ensures s.Success? <==> res.success && res.user.Some?
    ensures s.Success? ==> s.user == res.user.value
    ensures !s.Success? ==> s == AuthState.Error(rejected)
  {
    if res.success && res.user.Some? then AuthState.Success(res.user.value) else AuthState.Error(rejected)
  }

  /** The state an exception from the backend call leads to. */
  function ExceptionOutcome(message: Option<string>): (s: AuthState)
    ensures s.Error? && s.message == "Error: " + Render(message)
  {
    AuthState.Error("Error: " + Render(message))
  }

  /** The terminal state of the backend exchange, whichever way the call ends. */
  function BackendOutcome(answer: BackendAnswer, rejected: string): (s: AuthState)
    ensures s.Success? || s.Error?
    ensures s.Success? <==> answer.Responded? && answer.response.success && answer.response.user.Some?
  {
    match answer
    case Responded(res) => ExchangeOutcome(res, rejected)
    case Threw(m) => ExceptionOutcome(m)
  }

  /** What one submission does when its completions arrive in order: the
      values assigned to the state flow, and the calls made outside the core. */
  datatype Run<S> = Run(states: seq<S>, calls: seq<ExternalCall>)

  /** Runs `a` and then `b`. */
  function Then<S>(a: Run<S>, b: Run<S>): Run<S> {
    Run(a.states + b.states, a.calls + b.calls)
  }

  function Last<T>(s: seq<T>): T
    requires |s| > 0
  {
    s[|s| - 1]
  }

  /** The template of a provider task's failure listener: a fixed message,
      or a prefix followed by the exception's message. */
  datatype FailureText = Fixed(text: string) | Prefixed(prefix: string)

  function FailureMessage(t: FailureText, m: Option<string>): string {
    match t
    case Fixed(text) => text
    case Prefixed(prefix) => prefix + Render(m)
  }

  /** The backend request a signed-in provider user leads to: the provider's
      uid, its email or "" when it has none, `name`, and the photo URL. */
  function SignedInRequest(u: FirebaseUser, name: Option<string>): (req: AuthRequest)
    ensures req.uid == u.uid && req.username == name && req.avatarUrl == u.photoUrl
    ensures req.email == if u.email.Some? then u.email.value else ""
  {
    Request(u.uid, u.email.GetOr(""), name, u.photoUrl)
  }

  /** What follows the completion of an identity-provider task, for both view
      models: a failure publishes the flow's failure message; a success
      without a user does nothing; a success with a user starts the backend
      exchange (sending `fixedName` as the name when given, the provider's
      display name otherwise), which publishes Loading and then the outcome
      of the backend call. */
  function AfterProvider(answer: ProviderAnswer, failure: FailureText, fixedName: Option<string>,
                         backend: BackendAnswer, rejected: string): Run<AuthState>
  {
    match answer
    case Failed(m) => Run([AuthState.Error(FailureMessage(failure, m))], [])
    case Succeeded(None) => Run([], [])
    case Succeeded(Some(u)) =>
      var name := if fixedName.Some? then fixedName else u.displayName;
      Run([AuthState.Loading, BackendOutcome(backend, rejected)], [AuthWithFirebase(SignedInRequest(u, name))])
  }

  // ---------------------------------------------------------------------------
  // A `MutableStateFlow`. The view models' ghost state records every value
  // assigned to a flow, in order. The flow emits that sequence with each
  // value equal to its predecessor dropped, because assigning the value it
  // already holds emits nothing. A collector that keeps up sees exactly the
  // emissions; a slower one is only guaranteed the most recent value.

  /** What every assignment history of a view model's flow satisfies: it
      starts at the initial value, never returns to it and ends at the
      current value. */
  ghost predicate AssignedFrom<T>(h: seq<T>, initial: T, current: T) {
    && |h| > 0 && h[0] == initial && h[|h| - 1] == current
    && forall i | 0 < i < |h| :: h[i] != initial
  }

  /** The values the flow emits, given every value assigned to it. */
  function Conflate<T(==)>(h: seq<T>): (r: seq<T>)
    ensures |r| <= |h|
    ensures |h| > 0 ==> |r| > 0 && r[0] == h[0] && r[|r| - 1] == h[|h| - 1]
    decreases |h|
  {
    if |h| <= 1 then h
    else if h[|h| - 1] == h[|h| - 2] then Conflate(h[..|h| - 1])
    else Conflate(h[..|h| - 1]) + [h[|h| - 1]]
  }

  /** No two neighbours of the emitted sequence are equal, and every emitted
      value was assigned. */
  lemma {:induction false} ConflateHasNoRepeats<T>(h: seq<T>)
    ensures forall i | 0 < i < |Conflate(h)| :: Conflate(h)[i - 1] != Conflate(h)[i]
    ensures forall i | 0 <= i < |Conflate(h)| :: Conflate(h)[i] in h
    decreases |h|
  {
    if |h| > 1 {
      var p := h[..|h| - 1];
      ConflateHasNoRepeats(p);
      assert forall x | x in p :: x in h;
    }
  }

  /** A flow that is never assigned its initial value again never emits it
      again. */
  lemma {:induction false} ConflateNeverReturns<T>(h: seq<T>, initial: T, current: T)
    requires AssignedFrom(h, initial, current)
    ensures AssignedFrom(Conflate(h), initial, current)
  {
    ConflateHasNoRepeats(h);
    var c := Conflate(h);
    forall i | 0 < i < |c|
      ensures c[i] != initial
    {
      ConflateTail(h, i);
    }
  }

  /** Every emitted value after the first one was assigned after the first. */
  lemma {:induction false} ConflateTail<T>(h: seq<T>, i: nat)
    requires 0 < i < |Conflate(h)|
    ensures exists j | 0 < j < |h| :: Conflate(h)[i] == h[j]
    decreases |h|
  {
    var p := h[..|h| - 1];
    if h[|h| - 1] == h[|h| - 2] {
      ConflateTail(p, i);
      var j :| 0 < j < |p| && Conflate(p)[i] == p[j];
      assert h[j] == p[j];
    } else if i < |Conflate(p)| {
      ConflateTail(p, i);
      var j :| 0 < j < |p| && Conflate(p)[i] == p[j];
      assert h[j] == p[j];
    } else {
      assert Conflate(h)[i] == h[|h| - 1];
    }
  }

  /** `r` is `h` with some elements left out, the rest kept in order. */
  ghost predicate SubsequenceOf<T>(r: seq<T>, h: seq<T>)
    decreases |h|
  {
    || r == []
    || (&& h != []
        && (|| (r[|r| - 1] == h[|h| - 1] && SubsequenceOf(r[..|r| - 1], h[..|h| - 1]))
            || SubsequenceOf(r, h[..|h| - 1])))
  }

  lemma {:induction false} SubsequenceOfSelf<T>(h: seq<T>)
    ensures SubsequenceOf(h, h)
    decreases |h|
  {
    if h != [] {
      SubsequenceOfSelf(h[..|h| - 1]);
    }
  }

  /** The flow emits assigned values in the order they were assigned, and
      every assigned value is emitted: only repeats are dropped. */
  lemma {:induction false} ConflateKeepsOrder<T>(h: seq<T>)
    ensures SubsequenceOf(Conflate(h), h)
    ensures forall x | x in h :: x in Conflate(h)
    decreases |h|
  {
    if |h| <= 1 {
      SubsequenceOfSelf(h);
    } else {
      var p := h[..|h| - 1];
      ConflateKeepsOrder(p);
      assert h == p + [h[|h| - 1]];
      if h[|h| - 1] == h[|h| - 2] {
        assert h[|h| - 1] in p by { assert p[|p| - 1] == h[|h| - 2]; }
      } else {
        var r := Conflate(h);
        assert r[..|r| - 1] == Conflate(p);
      }
    }
  }

  /** The positions at which an assignment differs from the one before it. */
  ghost function Changes<T>(h: seq<T>): set<nat> {
    set i: nat | 0 < i < |h| && ChangedAt(h, i)
  }

  ghost predicate ChangedAt<T>(h: seq<T>, i: nat)
    requires 0 < i < |h|
  {
    h[i] != h[i - 1]
  }

  /** The flow emits the initial value and one value per change, and nothing
      else: with `ConflateKeepsOrder` and `ConflateHasNoRepeats` this pins the
      emissions down, so no value that differs from its predecessor is
      skipped. */
  lemma {:induction false} ConflateCountsChanges<T>(h: seq<T>)
    requires |h| > 0
    ensures |Conflate(h)| == 1 + |Changes(h)|
    decreases |h|
  {
    if |h| > 1 {
      var p := h[..|h| - 1];
      ConflateCountsChanges(p);
      var last := |h| - 1;
      if h[last] == h[last - 1] {
        assert Changes(h) == Changes(p);
      } else {
        assert Changes(h) == Changes(p) + {last};
        assert last !in Changes(p);
      }
    }
  }

  /** A value assigned twice in a row is emitted once. */
  lemma ConflateRepeated<T>(a: T, b: T, c: T)
    requires a != b && b != c
    ensures Conflate([a, b, b, c]) == [a, b, c]
  {
  }
}
