/**
 * The session reducer and its action creators
 * (`frontend/src/store/reducers/auth.js`): the signed-in user, or `null`.
 */
module Session {
  import opened JsValues

  const LoginType: string := "auth/login"
  const LogoutType: string := "auth/logout"

  datatype SessionAction = SessionAction(kind: string, payload: JsValue)

  /** The session before any action: `null`. */
  function Initial(): (s: JsValue)
    ensures !Truthy(s)
  {
    Null
  }

  /** `trackSession(user)`: whatever the session was, it becomes `user`. */
  function TrackSession(user: JsValue): (a: SessionAction)
    ensures forall s :: Reduce(s, a) == user
  {
    SessionAction(LoginType, user)
  }

  /** `untrackSession()`: whatever the session was, no one is signed in. */
  function UntrackSession(): (a: SessionAction)
    ensures forall s :: Reduce(s, a) == Null && !Truthy(Reduce(s, a))
  {
    SessionAction(LogoutType, Null)
  }

  /**
   * LOGIN stores the payload, LOGOUT clears, anything else keeps the session.
   * The parameter default replaces an `undefined` state by the initial one
   * before the switch, so the first action of any other type yields `null`.
   */
  function Reduce(state: JsValue, a: SessionAction): (r: JsValue)
    ensures a.kind == LoginType ==> r == a.payload
    ensures a.kind == LogoutType ==> r == Null
    ensures a.kind != LoginType && a.kind != LogoutType && !state.Undefined? ==> r == state
    ensures a.kind != LoginType && a.kind != LogoutType && state.Undefined? ==> r == Initial()
    ensures !r.Undefined? || (a.kind == LoginType && a.payload.Undefined?)
  {
    var current := if state.Undefined? then Initial() else state;
    if a.kind == LoginType then a.payload
    else if a.kind == LogoutType then Null
    else current
  }

  /** Signing in as `u` and then out again leaves no session, whatever came before. */
  lemma LoginThenLogout(state: JsValue, u: JsValue)
    ensures Reduce(state, TrackSession(u)) == u
    ensures Reduce(Reduce(state, TrackSession(u)), UntrackSession()) == Initial()
  {
  }
}
