/** The `auth` slice of the redux store: the current access token and the
    signed-in user's profile, changed only through three reducers. */
module AuthSlice {

  /** The profile object of the signed-in user, as its property names and values;
      the empty map is the object literal `{}`. */
  type SessionUser = map<string, string>

  datatype AuthState = AuthState(token: string, sessionUser: SessionUser)

  /** The actions the slice exports, plus any action of another slice, which the
      reducer passes through untouched. */
  datatype AuthAction =
    | SetTokenAction(token: string)
    | SetSessionUserAction(user: SessionUser)
    | ClearAuthAction
    | Unrelated

  /** The state the store starts from: no token and an empty profile. */
  const Initial: AuthState := AuthState("", map[])

  /** The route guard lets a user through exactly when the stored token is non-empty. */
  predicate SignedIn(s: AuthState) {
    s.token != ""
  }

  /** `setToken`: replaces the token wholesale and keeps the profile. */
  function SetToken(s: AuthState, token: string): (r: AuthState)
    ensures r.token == token
    ensures r.sessionUser == s.sessionUser
    ensures SignedIn(r) <==> token != ""
  {
    s.(token := token)
  }

  /** `setSessionUser`: replaces the profile and keeps the token. */
  function SetSessionUser(s: AuthState, user: SessionUser): (r: AuthState)
    ensures r.sessionUser == user
    ensures r.token == s.token
    ensures SignedIn(r) == SignedIn(s)
  {
    s.(sessionUser := user)
  }

  /** `clearAuth`: forgets both fields, whatever the state was. */
  function ClearAuth(s: AuthState): (r: AuthState)
    ensures r == Initial
    ensures !SignedIn(r)
  {
    AuthState("", map[])
  }

  /** The slice reducer: one action applied to one state. */
  function Reduce(s: AuthState, a: AuthAction): (r: AuthState)
    ensures a.Unrelated? ==> r == s
    ensures a.SetTokenAction? ==> r.token == a.token && r.sessionUser == s.sessionUser
    ensures a.SetSessionUserAction? ==> r.sessionUser == a.user && r.token == s.token
    ensures a.ClearAuthAction? ==> r == Initial
  {
    match a
    case SetTokenAction(t) => SetToken(s, t)
    case SetSessionUserAction(u) => SetSessionUser(s, u)
    case ClearAuthAction => ClearAuth(s)
    case Unrelated => s
  }

  /** The store after dispatching `acts` in order, starting from `s`. */
  function ReduceAll(s: AuthState, acts: seq<AuthAction>): AuthState
    decreases |acts|
  {
    if acts == [] then s else ReduceAll(Reduce(s, acts[0]), acts[1..])
  }

  /** An independent reading of the token after a run of actions: the payload of
      the last action that wrote the token, looking backwards from the end. */
  function TokenAfter(s: AuthState, acts: seq<AuthAction>): string
    decreases |acts|
  {
    if acts == [] then s.token
    else match acts[|acts| - 1]
      case SetTokenAction(t) => t
      case ClearAuthAction => ""
      case _ => TokenAfter(s, acts[..|acts| - 1])
  }

  /** Dispatching one more action extends the run by one reducer step. */
  lemma {:induction false} ReduceAllSnoc(s: AuthState, acts: seq<AuthAction>, a: AuthAction)
    ensures ReduceAll(s, acts + [a]) == Reduce(ReduceAll(s, acts), a)
    decreases |acts|
  {
    if acts == [] {
      assert acts + [a] == [a];
      assert ReduceAll(s, [a]) == ReduceAll(Reduce(s, a), []);
    } else {
      assert (acts + [a])[1..] == acts[1..] + [a];
      ReduceAllSnoc(Reduce(s, acts[0]), acts[1..], a);
    }
  }

  /** The token held after any run of actions is the one the last token-writing
      action left there, or the starting token when no action wrote it. */
  lemma {:induction false} ReduceAllToken(s: AuthState, acts: seq<AuthAction>)
    ensures ReduceAll(s, acts).token == TokenAfter(s, acts)
    decreases |acts|
  {
    if acts != [] {
      var init := acts[..|acts| - 1];
      var last := acts[|acts| - 1];
      assert acts == init + [last];
      ReduceAllSnoc(s, init, last);
      ReduceAllToken(s, init);
    }
  }

  /** A run that never writes the profile leaves it as it was. */
  lemma {:induction false} ReduceAllKeepsProfile(s: AuthState, acts: seq<AuthAction>)
    requires forall i :: 0 <= i < |acts| ==> acts[i].SetTokenAction? || acts[i].Unrelated?
    ensures ReduceAll(s, acts).sessionUser == s.sessionUser
    decreases |acts|
  {
    if acts != [] {
      ReduceAllKeepsProfile(Reduce(s, acts[0]), acts[1..]);
    }
  }

  /** The store starts signed out, with an empty profile. */
  lemma InitialIsSignedOut()
    ensures !SignedIn(Initial)
    ensures Initial.token == "" && Initial.sessionUser == map[]
  {
  }

  /** `clearAuth` is idempotent. */
  lemma ClearAuthIdempotent(s: AuthState)
    ensures ClearAuth(ClearAuth(s)) == ClearAuth(s)
  {
  }

  /** Writing the same token twice is the same as writing it once. */
  lemma SetTokenIdempotent(s: AuthState, token: string)
    ensures SetToken(SetToken(s, token), token) == SetToken(s, token)
  {
  }

  /** A later token write wins over an earlier one. */
  lemma SetTokenOverwrites(s: AuthState, first: string, second: string)
    ensures SetToken(SetToken(s, first), second) == SetToken(s, second)
  {
  }

  /** The two setters write disjoint fields, so their order does not matter. */
  lemma SetTokenSetSessionUserCommute(s: AuthState, token: string, user: SessionUser)
    ensures SetSessionUser(SetToken(s, token), user) == SetToken(SetSessionUser(s, user), token)
  {
  }
}
