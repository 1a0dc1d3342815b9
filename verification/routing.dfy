/** Navigation decisions made outside the pages: the discover page's
    filter links (query-parameter rewrite), the request middleware that
    sends signed-out visitors of protected paths to sign-in, and the
    client-side check that sends signed-in users without a role to
    onboarding. */
module Routing {
  import opened Wrappers
  import Feeds
  import SubmitPage
  import Model

  // ---------------------------------------------------------------------
  // Query parameters

  /** URLSearchParams: name/value pairs in order; a name may repeat. */
  type Params = seq<(string, string)>

  /** `params.get(key)`: the value of the first pair with that name. */
  function Get(params: Params, key: string): (r: Option<string>)
    ensures r.None? <==> forall i :: 0 <= i < |params| ==> params[i].0 != key
    ensures r.Some? ==> (key, r.value) in params
  {
    if |params| == 0 then None
    else if params[0].0 == key then Some(params[0].1)
    else Get(params[1..], key)
  }

  /** The pairs whose name is not `key`, in order. */
  function Others(params: Params, key: string): (r: Params)
    ensures forall p :: p in r <==> p in params && p.0 != key
  {
    if |params| == 0 then []
    else if params[0].0 == key then Others(params[1..], key)
    else [params[0]] + Others(params[1..], key)
  }

  /** `params.delete(key)`: every pair with that name removed. */
  function Delete(params: Params, key: string): (r: Params)
    ensures Get(r, key).None?
    ensures Others(r, key) == Others(params, key)
  {
    OthersTwice(params, key);
    Others(params, key)
  }

  /** `params.set(key, value)`: the first pair with that name takes the
      value and later ones are dropped; with no such pair, one is appended. */
  function Set(params: Params, key: string, value: string): (r: Params)
    ensures Get(r, key) == Some(value)
    ensures forall p :: p in r && p.0 == key ==> p.1 == value
    ensures Others(r, key) == Others(params, key)
  {
    if |params| == 0 then [(key, value)]
    else if params[0].0 == key then
      OthersTwice(params[1..], key);
      [(key, value)] + Others(params[1..], key)
    else [params[0]] + Set(params[1..], key, value)
  }

  lemma {:induction false} OthersTwice(params: Params, key: string)
    ensures Others(Others(params, key), key) == Others(params, key)
  {
    if |params| > 0 {
      OthersTwice(params[1..], key);
    }
  }

  /** `updateFilter(key, value)` on the current parameters: "ALL" and
      "trending" clear the parameter, any other value sets it. Returns the
      rewritten parameters; the pairs of every other name stay as they were,
      in order. */
  function UpdateFilter(params: Params, key: string, value: string): (r: Params)
    ensures value == "ALL" || value == "trending" ==> Get(r, key).None?
    ensures value != "ALL" && value != "trending" ==> Get(r, key) == Some(value)
    ensures Others(r, key) == Others(params, key)
  {
    if value == "ALL" || value == "trending" then Delete(params, key) else Set(params, key, value)
  }

  /** `params.toString()`, without percent-encoding. */
  function Serialize(params: Params): (s: string)
    ensures s == "" <==> params == []
  {
    if |params| == 0 then ""
    else
      var pair := params[0].0 + "=" + params[0].1;
      if |params| == 1 then pair else pair + "&" + Serialize(params[1..])
  }

  /** The link a filter pill or sort button follows. */
  function FilterTarget(params: Params, key: string, value: string): (url: string)
    ensures "/discover?" <= url
    ensures UpdateFilter(params, key, value) == [] <==> url == "/discover?"
  {
    "/discover?" + Serialize(UpdateFilter(params, key, value))
  }

  /** Following a category pill shows the category it names: the page
      reads back the chosen value, and "ALL" falls back to the default
      "ALL". A non-empty value other than "trending" is needed, since an
      empty value reads as absent and "trending" clears the parameter. */
  lemma CategoryPillSelects(params: Params, value: string)
    requires value != "" && value != "trending"
    ensures Feeds.OrDefault(Get(UpdateFilter(params, "category", value), "category"), "ALL") == value
  {
  }

  /** Following a sort button shows that sort: "trending" clears the
      parameter and the page falls back to "trending". */
  lemma SortButtonSelects(params: Params, value: string)
    requires value != "" && value != "ALL"
    ensures Feeds.OrDefault(Get(UpdateFilter(params, "sort", value), "sort"), "trending") == value
  {
  }

  /** Choosing a sort leaves the chosen category alone, and the other way
      round. */
  lemma FiltersIndependent(params: Params, value: string)
    ensures Get(UpdateFilter(params, "sort", value), "category") == Get(params, "category")
    ensures Get(UpdateFilter(params, "category", value), "sort") == Get(params, "sort")
  {
    GetThroughOthers(params, "sort", "category");
    GetThroughOthers(UpdateFilter(params, "sort", value), "sort", "category");
    GetThroughOthers(params, "category", "sort");
    GetThroughOthers(UpdateFilter(params, "category", value), "category", "sort");
  }

  /** Dropping the pairs of another name does not change a lookup. */
  lemma {:induction false} GetThroughOthers(params: Params, dropped: string, key: string)
    requires dropped != key
    ensures Get(Others(params, dropped), key) == Get(params, key)
  {
    if |params| > 0 {
      GetThroughOthers(params[1..], dropped, key);
    }
  }

  // ---------------------------------------------------------------------
  // Middleware

  /** Both session cookie names; the secure one is used over HTTPS. */
  const SessionCookie := "next-auth.session-token"
  const SecureSessionCookie := "__Secure-next-auth.session-token"

  /** A session token is present: either cookie with a non-empty value
      (an empty value is falsy in `a || b`). */
  predicate HasSessionToken(cookies: map<string, string>) {
    || (SessionCookie in cookies && cookies[SessionCookie] != "")
    || (SecureSessionCookie in cookies && cookies[SecureSessionCookie] != "")
  }

  /** Paths that need a session: any path starting with "/submit" or
      "/settings". */
  predicate NeedsAuth(path: string) {
    "/submit" <= path || "/settings" <= path
  }

  datatype Decision = Next | SignIn(callbackUrl: string)

  /** The middleware: a protected path without a session token goes to
      "/sign-in" with the original path as `callbackUrl`; everything else
      passes. */
  function Middleware(path: string, cookies: map<string, string>): (r: Decision)
    ensures r.SignIn? <==> NeedsAuth(path) && !HasSessionToken(cookies)
    ensures r.SignIn? ==> r.callbackUrl == path
  {
    if NeedsAuth(path) && !HasSessionToken(cookies) then SignIn(path) else Next
  }

  /** The sign-in page is never protected, so the redirect cannot loop. */
  lemma SignInPasses(cookies: map<string, string>)
    ensures Middleware("/sign-in", cookies) == Next
  {
    assert !("/submit" <= "/sign-in") by {
      assert "/sign-in"[2] != "/submit"[2];
    }
    assert !("/settings" <= "/sign-in") by {
      assert "/sign-in"[2] != "/settings"[2];
    }
  }

  /** Either cookie alone is enough to pass. */
  lemma EitherCookieCounts(path: string, token: string)
    requires token != ""
    ensures Middleware(path, map[SessionCookie := token]) == Next
    ensures Middleware(path, map[SecureSessionCookie := token]) == Next
  {
  }

  /** The `matcher` configuration ("/submit/:path*", "/settings/:path*"):
      the framework runs the middleware on "/submit" and "/settings" and on
      the paths below them, and on nothing else. */
  predicate Matched(path: string) {
    || path == "/submit" || "/submit/" <= path
    || path == "/settings" || "/settings/" <= path
  }

  /** Every path the matcher lets through is one the middleware protects. */
  lemma MatchedIsProtected(path: string)
    ensures Matched(path) ==> NeedsAuth(path)
  {
    if "/submit/" <= path {
      assert path[..7] == "/submit/"[..7] == "/submit";
    }
    if "/settings/" <= path {
      assert path[..9] == "/settings/"[..9] == "/settings";
    }
  }

  /** A request as the framework handles it: the middleware runs only on
      matched paths; every other request passes. */
  function Handle(path: string, cookies: map<string, string>): (r: Decision)
    ensures r.SignIn? <==> Matched(path) && !HasSessionToken(cookies)
    ensures r.SignIn? ==> r.callbackUrl == path
  {
    MatchedIsProtected(path);
    if Matched(path) then Middleware(path, cookies) else Next
  }

  /** The middleware's own test is on characters, not path segments, so it
      would send "/submitted" and "/settingsx" to sign in; the matcher never
      runs it on them, so such requests pass. */
  lemma PrefixNotSegment()
    ensures NeedsAuth("/submitted") && Middleware("/submitted", map[]) == SignIn("/submitted")
    ensures NeedsAuth("/settingsx") && Middleware("/settingsx", map[]) == SignIn("/settingsx")
    ensures Handle("/submitted", map[]) == Next && Handle("/settingsx", map[]) == Next
  {
    assert "/submitted"[..7] == "/submit";
    assert "/settingsx"[..9] == "/settings";
    assert "/submitted"[7] != "/submit/"[7];
    assert "/settingsx"[9] != "/settings/"[9];
  }

  /** The middleware and the submit page agree: without a session a visit
      to "/submit" is sent to sign in with "/submit" to come back to. */
  lemma MiddlewareAgreesWithSubmitPage(db: Model.Db)
    ensures Middleware("/submit", map[]) == SignIn("/submit")
    ensures Handle("/submit", map[]) == SignIn("/submit")
    ensures SubmitPage.GuardFor(db, None) == SubmitPage.ToSignIn("/sign-in?callbackUrl=" + "/submit")
  {
  }

  // ---------------------------------------------------------------------
  // Onboarding check

  datatype SessionStatus = Loading | Authenticated | Unauthenticated

  /** The client session's user: its role, if any ("" is falsy too). */
  datatype SessionUser = SessionUser(role: Option<string>)

  /** Pages that make their own redirects. */
  predicate SelfHandled(path: string) {
    "/sign-in" <= path || "/onboarding" <= path || "/settings" <= path || "/submit" <= path
  }

  predicate HasRole(u: SessionUser) {
    u.role.Some? && u.role.value != ""
  }

  datatype Action = Stay | ReplaceWith(target: string)

  /** `OnboardingCheck`: a signed-in user without a role, on a page that
      does not handle this itself, is sent to "/onboarding". */
  function OnboardingCheck(status: SessionStatus, user: Option<SessionUser>, path: string): (r: Action)
    ensures r.ReplaceWith? <==>
              status == Authenticated && user.Some? && !SelfHandled(path) && !HasRole(user.value)
    ensures r.ReplaceWith? ==> r.target == "/onboarding"
  {
    if status != Authenticated || user.None? then Stay
    else if SelfHandled(path) then Stay
    else if !HasRole(user.value) then ReplaceWith("/onboarding")
    else Stay
  }

  /** The check never fires where it sends people, so it cannot loop. */
  lemma OnboardingIsFinal(status: SessionStatus, user: Option<SessionUser>)
    ensures OnboardingCheck(status, user, "/onboarding") == Stay
  {
  }

  /** A user with a role, and anyone not signed in, is never redirected. */
  lemma OnlyRolelessUsersRedirected(status: SessionStatus, user: Option<SessionUser>, path: string)
    requires status != Authenticated || user.None? || HasRole(user.value)
    ensures OnboardingCheck(status, user, path) == Stay
  {
  }
}
