/**
 * The auth slice as a pure reducer, the session test the navigator uses, and
 * the presence test loadStoredAuth applies to the two stored strings. Storage
 * itself is outside the model: the stored values and JSON.parse are parameters.
 */
module AuthSlice {
  import opened Base
  import opened Types

  datatype AuthState = AuthState(
    user: Option<User>,
    token: Option<string>,
    isLoading: bool,
    error: Option<string>)

  const InitialState: AuthState := AuthState(None, None, false, None)

  /** A `Partial<User>`: the fields present in an updateUser payload. */
  datatype UserPatch = UserPatch(
    id: Option<string>,
    name: Option<string>,
    email: Option<string>,
    age: Option<real>,
    weight: Option<real>,
    height: Option<real>,
    activityLevel: Option<ActivityLevel>,
    dailyCalorieTarget: Option<real>,
    goal: Option<Goal>,
    createdAt: Option<string>)

  /** `{...user, ...patch}`: present fields overwrite, absent fields keep their values. */
  function ApplyPatch(u: User, p: UserPatch): (r: User)
    ensures p.id.Some? ==> r.id == p.id.value
    ensures p.id.None? ==> r.id == u.id
    ensures p.name.Some? ==> r.name == p.name.value
    ensures p.name.None? ==> r.name == u.name
    ensures p.email.Some? ==> r.email == p.email.value
    ensures p.email.None? ==> r.email == u.email
    ensures p.age.Some? ==> r.age == p.age.value
    ensures p.age.None? ==> r.age == u.age
    ensures p.weight.Some? ==> r.weight == p.weight.value
    ensures p.weight.None? ==> r.weight == u.weight
    ensures p.height.Some? ==> r.height == p.height.value
    ensures p.height.None? ==> r.height == u.height
    ensures p.activityLevel.Some? ==> r.activityLevel == p.activityLevel.value
    ensures p.activityLevel.None? ==> r.activityLevel == u.activityLevel
    ensures p.dailyCalorieTarget.Some? ==> r.dailyCalorieTarget == p.dailyCalorieTarget.value
    ensures p.dailyCalorieTarget.None? ==> r.dailyCalorieTarget == u.dailyCalorieTarget
    ensures p.goal.Some? ==> r.goal == p.goal.value
    ensures p.goal.None? ==> r.goal == u.goal
    ensures p.createdAt.Some? ==> r.createdAt == p.createdAt.value
    ensures p.createdAt.None? ==> r.createdAt == u.createdAt
  {
    User(
      p.id.GetOr(u.id),
      p.name.GetOr(u.name),
      p.email.GetOr(u.email),
      p.age.GetOr(u.age),
      p.weight.GetOr(u.weight),
      p.height.GetOr(u.height),
      p.activityLevel.GetOr(u.activityLevel),
      p.dailyCalorieTarget.GetOr(u.dailyCalorieTarget),
      p.goal.GetOr(u.goal),
      p.createdAt.GetOr(u.createdAt))
  }

  const EmptyPatch: UserPatch := UserPatch(None, None, None, None, None, None, None, None, None, None)

  /** Patching with no fields leaves a user unchanged. */
  lemma EmptyPatchIsIdentity(u: User)
    ensures ApplyPatch(u, EmptyPatch) == u
  {
  }

  /** Applying the same patch twice is applying it once. */
  lemma ApplyPatchIdempotent(u: User, p: UserPatch)
    ensures ApplyPatch(ApplyPatch(u, p), p) == ApplyPatch(u, p)
  {
  }

  datatype AuthAction =
    | ClearError
    | UpdateUser(patch: UserPatch)
    | LoginPending
    | LoginFulfilled(response: LoginResponse)
    | LoginRejected(message: string)
    | SignupPending
    | SignupFulfilled(response: LoginResponse)
    | SignupRejected(message: string)
    | LoadStoredPending
    | LoadStoredFulfilled(storedToken: string, storedUser: Option<User>)
    | LoadStoredRejected(message: string)
    | LogoutPending
    | LogoutFulfilled
    | LogoutRejected(message: string)
  {
    predicate IsRequestPending() {
      LoginPending? || SignupPending?
    }

    predicate IsRequestFulfilled() {
      LoginFulfilled? || SignupFulfilled?
    }

    predicate IsRequestRejected() {
      LoginRejected? || SignupRejected?
    }
  }

  /** The slice's reducer: the reducers and every extraReducers case. */
  function Reduce(s: AuthState, a: AuthAction): (r: AuthState)
    ensures a.IsRequestPending() ==>
      r.isLoading && r.error == None && r.user == s.user && r.token == s.token
    ensures a.IsRequestFulfilled() ==>
      !r.isLoading && r.error == s.error
      && r.user == Some(a.response.user) && r.token == Some(a.response.token)
    ensures a.IsRequestRejected() ==>
      !r.isLoading && r.error == Some(a.message) && r.user == s.user && r.token == s.token
    ensures !a.IsRequestPending() && !a.IsRequestFulfilled() && !a.IsRequestRejected() ==>
      r.isLoading == s.isLoading
    ensures a.LoadStoredPending? || a.LoadStoredRejected? || a.LogoutPending? || a.LogoutRejected? ==> r == s
    ensures a.LogoutFulfilled? ==> r.user == None && r.token == None && r.error == s.error
    ensures a.LoadStoredFulfilled? ==>
      r.user == a.storedUser && r.token == Some(a.storedToken) && r.error == s.error
  {
    match a
    case ClearError => s.(error := None)
    case UpdateUser(p) =>
      if s.user.Some? then s.(user := Some(ApplyPatch(s.user.value, p))) else s
    case LoginPending => s.(isLoading := true, error := None)
    case LoginFulfilled(resp) => s.(isLoading := false, user := Some(resp.user), token := Some(resp.token))
    case LoginRejected(msg) => s.(isLoading := false, error := Some(msg))
    case SignupPending => s.(isLoading := true, error := None)
    case SignupFulfilled(resp) => s.(isLoading := false, user := Some(resp.user), token := Some(resp.token))
    case SignupRejected(msg) => s.(isLoading := false, error := Some(msg))
    case LoadStoredPending => s
    case LoadStoredFulfilled(t, u) => s.(user := u, token := Some(t))
    case LoadStoredRejected(_) => s
    case LogoutPending => s
    case LogoutFulfilled => s.(user := None, token := None)
    case LogoutRejected(_) => s
  }

  /** `!!token && !!user`: a non-empty token and a user. */
  function IsAuthenticated(s: AuthState): (ok: bool)
    ensures ok ==> s.user.Some? && s.token.Some?
    ensures s.token == Some("") ==> !ok
    ensures s.user.Some? && s.token.Some? && s.token.value != "" ==> ok
  {
    s.token.Some? && s.token.value != "" && s.user.Some?
  }

  /** The slice starts with no session, idle and without error. */
  lemma InitialStateSignedOut()
    ensures InitialState.user == None && InitialState.token == None
    ensures !InitialState.isLoading && InitialState.error == None
    ensures !IsAuthenticated(InitialState)
  {
  }

  /** logout.fulfilled ends the session and touches nothing else. */
  lemma LogoutEndsSession(s: AuthState)
    ensures var r := Reduce(s, LogoutFulfilled);
      && r.user == None && r.token == None
      && !IsAuthenticated(r) && r.isLoading == s.isLoading && r.error == s.error
  {
  }

  /** After a successful login or signup the app is signed in exactly when the token is non-empty. */
  lemma LoginAuthenticates(s: AuthState, response: LoginResponse)
    ensures IsAuthenticated(Reduce(s, LoginFulfilled(response))) <==> response.token != ""
    ensures IsAuthenticated(Reduce(s, SignupFulfilled(response))) <==> response.token != ""
  {
  }

  /** clearError changes only the error. */
  lemma ClearErrorOnlyError(s: AuthState)
    ensures Reduce(s, ClearError) == s.(error := None)
  {
  }

  /** updateUser does nothing without a user, and otherwise patches only the user. */
  lemma UpdateUserFrame(s: AuthState, p: UserPatch)
    ensures s.user.None? ==> Reduce(s, UpdateUser(p)) == s
    ensures s.user.Some? ==> Reduce(s, UpdateUser(p)) == s.(user := Some(ApplyPatch(s.user.value, p)))
    ensures Reduce(Reduce(s, UpdateUser(p)), UpdateUser(p)) == Reduce(s, UpdateUser(p))
  {
    if s.user.Some? {
      ApplyPatchIdempotent(s.user.value, p);
    }
  }

  // ---------------------------------------------------------------------------
  // loadStoredAuth

  /** What JSON.parse makes of the stored user text. */
  datatype ParsedUser = ParseFailed(message: string) | ParsedNull | Parsed(user: User)

  /** How the loadStoredAuth thunk settles. */
  datatype StoredAuth = Restored(token: string, user: Option<User>) | NotRestored(message: string)

  const NoStoredAuthMessage: string := "No stored auth"

  /**
   * loadStoredAuth: both stored strings must be present and non-empty; then the
   * user text is parsed, and a parse error rejects with its message.
   */
  function LoadStoredAuth(token: Option<string>, userText: Option<string>, parse: string -> ParsedUser): (r: StoredAuth)
    ensures r.Restored? <==>
      token.Some? && token.value != "" && userText.Some? && userText.value != ""
      && !parse(userText.value).ParseFailed?
    ensures r.Restored? ==> token == Some(r.token)
    ensures r.Restored? ==> r.user == (match parse(userText.value) case Parsed(u) => Some(u) case _ => None)
    ensures (token.Some? && token.value != "" && userText.Some? && userText.value != ""
      && parse(userText.value).ParseFailed?) ==> r == NotRestored(parse(userText.value).message)
    ensures (token.None? || token.value == "" || userText.None? || userText.value == "") ==>
      r == NotRestored(NoStoredAuthMessage)
  {
    if token.Some? && token.value != "" && userText.Some? && userText.value != "" then
      match parse(userText.value)
      case ParseFailed(msg) => NotRestored(msg)
      case ParsedNull => Restored(token.value, None)
      case Parsed(u) => Restored(token.value, Some(u))
    else
      NotRestored(NoStoredAuthMessage)
  }

  /** The action the settled thunk dispatches. */
  function StoredAuthAction(outcome: StoredAuth): AuthAction {
    match outcome
    case Restored(t, u) => LoadStoredFulfilled(t, u)
    case NotRestored(msg) => LoadStoredRejected(msg)
  }

  /** A failed restore leaves the state unchanged, since the slice has no rejected case for it. */
  lemma FailedRestoreChangesNothing(s: AuthState, message: string)
    ensures Reduce(s, StoredAuthAction(NotRestored(message))) == s
  {
  }

  /** From a signed-out start, two non-empty stored strings whose user text parses to a user restore that session. */
  lemma RestoredSessionSignsIn(token: string, userText: string, parse: string -> ParsedUser, u: User)
    requires token != "" && userText != "" && parse(userText) == Parsed(u)
    ensures var r := Reduce(InitialState, StoredAuthAction(LoadStoredAuth(Some(token), Some(userText), parse)));
      IsAuthenticated(r) && r.user == Some(u) && r.token == Some(token)
  {
  }

  /** From a signed-out start, restoring signs in only if both stored strings were present and non-empty. */
  lemma RestoredSessionNeedsBothValues(token: Option<string>, userText: Option<string>, parse: string -> ParsedUser)
    ensures var r := Reduce(InitialState, StoredAuthAction(LoadStoredAuth(token, userText, parse)));
      IsAuthenticated(r) ==> token.Some? && token.value != "" && userText.Some? && userText.value != ""
  {
  }
}
