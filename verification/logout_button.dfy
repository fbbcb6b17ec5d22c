/** The stand-alone logout button. It clears the two session keys from
    storage and navigates to the login page, but never calls the context's
    `logout`, so the in-memory state is left as it was. */
module LogoutButton {
  import opened Outcomes
  import Session

  /** Storage after the click, and the path pushed. */
  datatype Click = Click(storage: Session.Storage, nav: Option<string>)

  /** `handleLogout`: removes the token and user keys only. The context state
      is not an input, so it cannot change. */
  function HandleLogout(s: Session.Storage): (r: Click)
    ensures Session.TokenKey !in r.storage && Session.UserKey !in r.storage
    ensures forall k :: k != Session.TokenKey && k != Session.UserKey ==>
              (k in r.storage <==> k in s) && (k in s ==> r.storage[k] == s[k])
    ensures r.nav == Some(Session.LoginPath)
  {
    Click(s - {Session.TokenKey} - {Session.UserKey}, Some(Session.LoginPath))
  }

  /** A second click leaves the storage the first one left. */
  lemma HandleLogoutIdempotent(s: Session.Storage)
    ensures HandleLogout(HandleLogout(s).storage) == HandleLogout(s)
  {
    assert HandleLogout(s).storage - {Session.TokenKey} - {Session.UserKey} == HandleLogout(s).storage;
  }

  /** The button leaves storage exactly as the context's `logout` does. */
  lemma SameStorageAsContextLogout(s: Session.Storage)
    ensures HandleLogout(s).storage == Session.Logout(s).storage
  {
    assert s - {Session.TokenKey} - {Session.UserKey} == s - {Session.TokenKey, Session.UserKey};
  }

  /** The click never touches the context: `HandleLogout` takes no context
      state, so an in-memory logged-in state stays as it was and, by
      construction, still grants unguarded routes until the page reloads;
      the reload restores the signed-out state from the cleared storage. */
  lemma ContextLeftStale(s: Session.Storage, c: Session.Codec, a: Session.Auth)
    requires a.isLoggedIn
    ensures Session.ProtectRoute(a, None).allowed
    ensures Session.Restore(HandleLogout(s).storage, c) == Success(Session.SignedOut)
  {
  }
}
