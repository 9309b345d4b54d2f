/**
 * The frontend's server hook: authentication (the library's handle, which
 * supplies the session), then the authorization guards on path prefixes,
 * then the locale step that writes the language into the page.
 */
module Hooks {
  import opened Wrappers
  import opened AuthCallbacks

  const SeeOther: int := 303
  const Placeholder := "%paraglide.lang%"

  /** `String.prototype.startsWith`. */
  function StartsWith(s: string, prefix: string): (r: bool)
    ensures r <==> prefix <= s
  {
    |prefix| <= |s| && s[..|prefix|] == prefix
  }

  /** What a guard decides: continue to `resolve`, or throw a redirect. */
  datatype Decision = Resolve | Redirect(status: int, location: string)

  /**
   * `authorizationHandle`: paths beginning with "/chat" need a session;
   * paths beginning with "/admin" need a session with the admin role. A
   * failed guard redirects (303) to the start page.
   */
  function Authorize(path: string, session: Option<Session>): (r: Decision)
    ensures r == Resolve || r == Redirect(SeeOther, "/")
    ensures r.Redirect? <==>
      ("/chat" <= path && session.None?) || ("/admin" <= path && !(session.Some? && HasAdminRole(session.value)))
  {
    if StartsWith(path, "/chat") && session.None? then Redirect(SeeOther, "/")
    else if StartsWith(path, "/admin") && !(session.Some? && HasAdminRole(session.value)) then Redirect(SeeOther, "/")
    else Resolve
  }

  /** The guards test a raw prefix, so longer paths sharing it are guarded too. */
  lemma PrefixGuardsLongerPaths(session: Session)
    requires !HasAdminRole(session)
    ensures Authorize("/chatroom", None) == Redirect(SeeOther, "/")
    ensures Authorize("/administrator", Some(session)) == Redirect(SeeOther, "/")
    ensures Authorize("/chatroom", Some(session)) == Resolve
  {
    assert "/chat" <= "/chatroom";
    assert "/admin" <= "/administrator";
    assert "/chatroom"[1] != "/admin"[1];
  }

  /** Whether `p` occurs in `s` at position `i`. */
  predicate OccursAt(s: string, p: string, i: nat) {
    i + |p| <= |s| && s[i..i + |p|] == p
  }

  /** The first position at or after `from` where `p` occurs. */
  function FindFrom(s: string, p: string, from: nat): (r: Option<nat>)
    requires from <= |s| + 1
    ensures r.Some? ==> from <= r.value && OccursAt(s, p, r.value)
    ensures r.Some? ==> forall j :: from <= j < r.value ==> !OccursAt(s, p, j)
    ensures r.None? ==> forall j :: from <= j ==> !OccursAt(s, p, j)
    decreases |s| + 1 - from
  {
    if from + |p| > |s| then None
    else if s[from..from + |p|] == p then Some(from)
    else FindFrom(s, p, from + 1)
  }

  /**
   * `s.replace(p, rep)` with a string pattern: the first occurrence only.
   * `rep` is inserted literally; JavaScript would expand `$&`, `$'` and the
   * other `$` patterns in it, which a locale tag never contains.
   */
  function ReplaceFirst(s: string, p: string, rep: string): string {
    match FindFrom(s, p, 0)
    case None => s
    case Some(i) => s[..i] + rep + s[i + |p|..]
  }

  /**
   * `ReplaceFirst` against its definition: with no occurrence the text is
   * unchanged; otherwise the first occurrence, and nothing else, is replaced.
   */
  lemma ReplaceFirstSpec(s: string, p: string, rep: string, i: nat)
    requires OccursAt(s, p, i)
    requires forall j :: 0 <= j < i ==> !OccursAt(s, p, j)
    ensures ReplaceFirst(s, p, rep) == s[..i] + rep + s[i + |p|..]
  {
    var k := FindFrom(s, p, 0);
    assert k.Some?;
    assert !(k.value < i) && !(i < k.value);
  }

  lemma ReplaceAbsent(s: string, p: string, rep: string)
    requires forall j :: 0 <= j ==> !OccursAt(s, p, j)
    ensures ReplaceFirst(s, p, rep) == s
  {
    var k := FindFrom(s, p, 0);
    assert k.None?;
  }

  /** The response of the whole hook sequence. */
  datatype Response = Redirected(status: int, location: string) | Rendered(html: string)

  /**
   * `sequence(authenticationHandle, authorizationHandle, paraglideHandle)`:
   * `session` is what authentication produced, `page` the HTML `resolve`
   * renders. A guard's redirect ends the request before the locale step; a
   * request that passes is rendered with the locale written into the page.
   */
  function Handle(path: string, session: Option<Session>, locale: string, page: string): (r: Response)
    ensures Authorize(path, session).Redirect? <==> r.Redirected?
    ensures r.Redirected? ==> r == Redirected(SeeOther, "/")
    ensures r.Rendered? ==> r.html == ReplaceFirst(page, Placeholder, locale)
  {
    match Authorize(path, session)
    case Redirect(status, location) => Redirected(status, location)
    case Resolve => Rendered(ReplaceFirst(page, Placeholder, locale))
  }

  /** A path under neither guarded prefix is always rendered, whoever asks. */
  lemma UnguardedPathsRender(path: string, session: Option<Session>, locale: string, page: string)
    requires !("/chat" <= path) && !("/admin" <= path)
    ensures Handle(path, session, locale, page) == Rendered(ReplaceFirst(page, Placeholder, locale))
  {
  }

  /** A page with the placeholder at its start gets the locale there and keeps the rest. */
  lemma LocaleWrittenOnce(locale: string, rest: string)
    ensures ReplaceFirst(Placeholder + rest, Placeholder, locale) == locale + rest
  {
    var s := Placeholder + rest;
    assert OccursAt(s, Placeholder, 0) by { assert s[0..|Placeholder|] == Placeholder; }
    ReplaceFirstSpec(s, Placeholder, locale, 0);
    assert s[|Placeholder|..] == rest;
  }
}
