/**
 * The start page's server `load`: administrators are sent to the admin
 * area, other signed-in users to the chat, and everyone else stays.
 */
module RootPage {
  import opened Wrappers
  import opened AuthCallbacks
  import opened Hooks

  /** `load` either returns normally or throws a redirect. */
  datatype LoadResult = Stay | RedirectTo(status: int, location: string)

  /**
   * `load`: a session whose roles include "admin" goes to "/admin", even
   * with a user; otherwise a session with a user goes to "/chat"; otherwise
   * the page loads without a redirect.
   */
  function Load(session: Option<Session>): (r: LoadResult)
    ensures r == RedirectTo(SeeOther, "/admin") <==> session.Some? && HasAdminRole(session.value)
    ensures r == RedirectTo(SeeOther, "/chat") <==>
      session.Some? && !HasAdminRole(session.value) && session.value.user.Some?
    ensures r == Stay <==> session.None? || (!HasAdminRole(session.value) && session.value.user.None?)
  {
    if session.Some? && HasAdminRole(session.value) then RedirectTo(SeeOther, "/admin")
    else if session.Some? && session.value.user.Some? then RedirectTo(SeeOther, "/chat")
    else Stay
  }

  /**
   * Where the start page sends someone, the authorization guard lets them
   * in, and the start page itself is never guarded: the two never redirect
   * in a loop.
   */
  lemma NoRedirectLoop(session: Option<Session>)
    ensures Authorize("/", session) == Resolve
    ensures Load(session).RedirectTo? ==> Authorize(Load(session).location, session) == Resolve
  {
    assert !("/chat" <= "/") && !("/admin" <= "/");
    if Load(session) == RedirectTo(SeeOther, "/chat") {
      assert "/chat"[1] != "/admin"[1];
    }
  }
}
