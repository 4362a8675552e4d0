/** The route guards of src/Router.jsx and the route table of src/App.jsx, resolved together:
    a path either renders a page, matches no route, or redirects to another path. */
module Routing {
  import opened Wrappers
  import opened Session

  datatype Page = Login | Register | Dashboard

  /** What a route's element is: a `<Navigate>` or a page wrapped in one of the two guards. */
  datatype RouteElement = NavigateTo(to: string) | AuthGuarded(page: Page) | PrivateGuarded(page: Page)

  /** What a guard or a route yields for the current storage: the page, or a replacing redirect. */
  datatype View = Render(page: Page) | Redirect(to: string)

  /** The `<Routes>` of `App`, in declaration order. */
  const RouteTable: seq<(string, RouteElement)> := [
    ("/", NavigateTo("/login")),
    ("/login", AuthGuarded(Login)),
    ("/register", AuthGuarded(Register)),
    ("/dashboard", PrivateGuarded(Dashboard))
  ]

  /** `PrivateRoute`: the page when the stored token is truthy, else a redirect to the login page. */
  function PrivateRoute(storage: map<string, string>, page: Page): View {
    if HasToken(storage) then Render(page) else Redirect("/login")
  }

  /** `AuthRoute`: the page when the stored token is falsy, else a redirect to the dashboard. */
  function AuthRoute(storage: map<string, string>, page: Page): View {
    if !HasToken(storage) then Render(page) else Redirect("/dashboard")
  }

  /** One step of the i-flag comparison: an ASCII capital is compared as its small letter. */
  function LowerAscii(c: char): char {
    if 'A' <= c <= 'Z' then (c as int + 32) as char else c
  }

  /** The path with its ASCII letters lower-cased. */
  function LowerPath(s: string): (r: string)
    ensures |r| == |s| && forall i :: 0 <= i < |s| ==> r[i] == LowerAscii(s[i])
  {
    if s == [] then [] else [LowerAscii(s[0])] + LowerPath(s[1..])
  }

  /** The path without its trailing slashes, keeping the first character. */
  function TrimSlashes(s: string): (r: string)
    ensures |r| <= |s| && r == s[..|r|]
    ensures |s| > 0 ==> |r| > 0
    ensures |r| <= 1 || r[|r| - 1] != '/'
    ensures forall i :: |r| <= i < |s| ==> s[i] == '/'
    decreases |s|
  {
    if |s| > 1 && s[|s| - 1] == '/' then TrimSlashes(s[..|s| - 1]) else s
  }

  /** The form in which a location is compared with the declared paths: `<Routes>` matches
      without regard to ASCII case and ignores trailing slashes. */
  function CanonicalPath(path: string): string {
    LowerPath(TrimSlashes(path))
  }

  /** A declared route path: a leading slash, no capitals, and no trailing slash unless it is "/". */
  predicate DeclaredForm(key: string) {
    |key| > 0 && key[0] == '/' && LowerPath(key) == key && (|key| == 1 || key[|key| - 1] != '/')
  }

  /** The pattern the router compiles for `key`, read directly: the location starts with `key`
      up to ASCII case and continues with slashes only (the pattern `^key` followed by any run of slashes, with the `i` flag). */
  predicate RouterMatches(key: string, path: string) {
    |key| <= |path| && LowerPath(path[..|key|]) == key && forall i :: |key| <= i < |path| ==> path[i] == '/'
  }

  lemma {:induction false} TrimSlashesTo(s: string, n: nat)
    requires 1 <= n <= |s| && (n == 1 || s[n - 1] != '/')
    requires forall i :: n <= i < |s| ==> s[i] == '/'
    ensures TrimSlashes(s) == s[..n]
    decreases |s|
  {
    if |s| > n {
      var t := s[..|s| - 1];
      assert t[..n] == s[..n];
      TrimSlashesTo(t, n);
    } else {
      assert s[..n] == s;
    }
  }

  /** Comparing canonical forms is exactly the router's pattern, for every declared form. */
  lemma CanonicalMatchesPattern(key: string, path: string)
    requires DeclaredForm(key)
    ensures CanonicalPath(path) == key <==> RouterMatches(key, path)
  {
    var r := TrimSlashes(path);
    if CanonicalPath(path) == key {
      assert |r| == |key| && r == path[..|key|];
    }
    if RouterMatches(key, path) {
      var n := |key|;
      assert LowerAscii(path[n - 1]) == key[n - 1];
      TrimSlashesTo(path, n);
    }
  }

  lemma LowerPathFixed(s: string)
    requires forall i :: 0 <= i < |s| ==> !('A' <= s[i] <= 'Z')
    ensures LowerPath(s) == s
  {
  }

  /** Lower-casing again and trimming again change nothing. */
  lemma CanonicalIdempotent(path: string)
    ensures CanonicalPath(CanonicalPath(path)) == CanonicalPath(path)
  {
    var r := TrimSlashes(path);
    var c := LowerPath(r);
    if |c| > 1 {
      assert c[|c| - 1] == LowerAscii(r[|r| - 1]);
    }
    assert TrimSlashes(c) == c;
    assert LowerPath(c) == c;
  }

  /** A path in declared form is its own canonical form. */
  lemma DeclaredFormCanonical(key: string)
    requires DeclaredForm(key)
    ensures CanonicalPath(key) == key
  {
    assert TrimSlashes(key) == key;
  }

  /** The paths `App` declares. */
  predicate IsDeclaredPath(c: string) {
    c == "/" || c == "/login" || c == "/register" || c == "/dashboard"
  }

  /** Each declared path is in declared form and is its own canonical form. */
  lemma DeclaredPathCanonical(key: string)
    requires IsDeclaredPath(key)
    ensures DeclaredForm(key) && CanonicalPath(key) == key
  {
    if key == "/" {
      LowerPathFixed("/");
      DeclaredFormCanonical("/");
    } else if key == "/login" {
      LowerPathFixed("/login");
      DeclaredFormCanonical("/login");
    } else if key == "/register" {
      LowerPathFixed("/register");
      DeclaredFormCanonical("/register");
    } else {
      LowerPathFixed("/dashboard");
      DeclaredFormCanonical("/dashboard");
    }
  }

  /** The element of the first route whose path is `path`. */
  function MatchIn(routes: seq<(string, RouteElement)>, path: string): (r: Option<RouteElement>)
    ensures r.Some? <==> exists i :: 0 <= i < |routes| && routes[i].0 == path
    ensures r.Some? ==> exists i :: 0 <= i < |routes| && routes[i] == (path, r.value)
  {
    if routes == [] then None
    else if routes[0].0 == path then Some(routes[0].1)
    else MatchIn(routes[1..], path)
  }

  /** The element of the route that the location `path` selects, if any. */
  function MatchRoute(path: string): Option<RouteElement> {
    MatchIn(RouteTable, CanonicalPath(path))
  }

  /** One render of `path`: None when no route matches. */
  function Step(storage: map<string, string>, path: string): Option<View> {
    match MatchRoute(path)
    case None => None
    case Some(NavigateTo(to)) => Some(Redirect(to))
    case Some(AuthGuarded(page)) => Some(AuthRoute(storage, page))
    case Some(PrivateGuarded(page)) => Some(PrivateRoute(storage, page))
  }

  /** Where following redirects ends: a page after some redirects, an unmatched path, or still
      redirecting when `fuel` runs out. */
  datatype Resolution = Shown(page: Page, redirects: nat) | Unmatched(path: string, redirects: nat) | StillRedirecting

  function AfterRedirect(r: Resolution): Resolution {
    match r
    case Shown(page, n) => Shown(page, n + 1)
    case Unmatched(path, n) => Unmatched(path, n + 1)
    case StillRedirecting => StillRedirecting
  }

  function Resolve(storage: map<string, string>, path: string, fuel: nat): Resolution
    decreases fuel
  {
    if fuel == 0 then StillRedirecting
    else match Step(storage, path)
      case None => Unmatched(path, 0)
      case Some(Render(page)) => Shown(page, 0)
      case Some(Redirect(to)) => AfterRedirect(Resolve(storage, to, fuel - 1))
  }

  /** The paths visited while resolving, in order. */
  function Trace(storage: map<string, string>, path: string, fuel: nat): seq<string>
    decreases fuel
  {
    if fuel == 0 then []
    else match Step(storage, path)
      case Some(Redirect(to)) => [path] + Trace(storage, to, fuel - 1)
      case _ => [path]
  }

  /** Each guard renders its page exactly in its own token state and otherwise redirects to the
      other side; for every storage exactly one of the two renders. */
  lemma GuardsPartitionTokenStates(storage: map<string, string>, page: Page)
    ensures PrivateRoute(storage, page) == (if HasToken(storage) then Render(page) else Redirect("/login"))
    ensures AuthRoute(storage, page) == (if HasToken(storage) then Redirect("/dashboard") else Render(page))
    ensures PrivateRoute(storage, page).Render? != AuthRoute(storage, page).Render?
  {
  }

  /** A stored empty string counts as no token for both guards, as does a missing key. */
  lemma EmptyTokenIsAbsent(storage: map<string, string>, page: Page)
    requires TokenKey !in storage || storage[TokenKey] == ""
    ensures PrivateRoute(storage, page) == Redirect("/login")
    ensures AuthRoute(storage, page) == Render(page)
  {
  }

  /** The route table read entry by entry, for a canonical form `c`. */
  lemma TableMatch(c: string)
    ensures MatchIn(RouteTable, c).Some? <==> IsDeclaredPath(c)
    ensures c == "/" ==> MatchIn(RouteTable, c) == Some(NavigateTo("/login"))
    ensures c == "/login" ==> MatchIn(RouteTable, c) == Some(AuthGuarded(Login))
    ensures c == "/register" ==> MatchIn(RouteTable, c) == Some(AuthGuarded(Register))
    ensures c == "/dashboard" ==> MatchIn(RouteTable, c) == Some(PrivateGuarded(Dashboard))
  {
    assert MatchIn(RouteTable, c).Some? <==> exists i :: 0 <= i < 4 && RouteTable[i].0 == c;
    if IsDeclaredPath(c) {
      assert c == RouteTable[0].0 || c == RouteTable[1].0 || c == RouteTable[2].0 || c == RouteTable[3].0;
    }
  }

  /** Each route's compiled pattern matches a location exactly when the location's canonical form
      is that route's path. */
  lemma TablePatterns(path: string)
    ensures forall i :: 0 <= i < |RouteTable| ==> DeclaredForm(RouteTable[i].0)
    ensures forall i :: 0 <= i < |RouteTable| ==>
      (RouterMatches(RouteTable[i].0, path) <==> CanonicalPath(path) == RouteTable[i].0)
  {
    forall i | 0 <= i < |RouteTable|
      ensures DeclaredForm(RouteTable[i].0)
      ensures RouterMatches(RouteTable[i].0, path) <==> CanonicalPath(path) == RouteTable[i].0
    {
      DeclaredPathCanonical(RouteTable[i].0);
      CanonicalMatchesPattern(RouteTable[i].0, path);
    }
  }

  /** Exactly four paths are declared, each in declared form; a location selects a route iff the
      router's pattern for that route's path matches it; "/" always redirects to "/login", the two
      auth pages are behind `AuthRoute` and the dashboard behind `PrivateRoute`. */
  lemma RouteTableShape(storage: map<string, string>, path: string)
    ensures MatchRoute(path).Some? <==> IsDeclaredPath(CanonicalPath(path))
    ensures forall i :: 0 <= i < |RouteTable| ==> DeclaredForm(RouteTable[i].0)
    ensures forall i :: 0 <= i < |RouteTable| ==>
      (RouterMatches(RouteTable[i].0, path) <==> CanonicalPath(path) == RouteTable[i].0)
    ensures CanonicalPath(path) == "/" ==> Step(storage, path) == Some(Redirect("/login"))
    ensures CanonicalPath(path) == "/login" ==> MatchRoute(path) == Some(AuthGuarded(Login))
    ensures CanonicalPath(path) == "/register" ==> MatchRoute(path) == Some(AuthGuarded(Register))
    ensures CanonicalPath(path) == "/dashboard" ==> MatchRoute(path) == Some(PrivateGuarded(Dashboard))
  {
    TableMatch(CanonicalPath(path));
    TablePatterns(path);
  }

  /** A location and its canonical form select the same route, so upper-case letters and
      trailing slashes do not change where a path leads. */
  lemma StepIgnoresCaseAndSlashes(storage: map<string, string>, path: string)
    ensures Step(storage, path) == Step(storage, CanonicalPath(path))
  {
    CanonicalIdempotent(path);
  }

  /** Capitals select the same route: "/Login" is the login route. */
  lemma LoginInCapitals()
    ensures CanonicalPath("/Login") == "/login"
  {
  }

  /** Capitals select the same route: "/DASHBOARD" is the dashboard route. */
  lemma DashboardInCapitals()
    ensures CanonicalPath("/DASHBOARD") == "/dashboard"
  {
  }

  /** A trailing slash is ignored: "/login/" is the login route. */
  lemma LoginWithSlash()
    ensures CanonicalPath("/login/") == "/login"
  {
    TrimSlashesTo("/login/", 6);
    assert "/login/"[..6] == "/login";
    LowerPathFixed("/login");
  }

  /** Slashes only: "//" is the root route. */
  lemma RootOfSlashes()
    ensures CanonicalPath("//") == "/"
  {
    TrimSlashesTo("//", 1);
    assert "//"[..1] == "/";
    LowerPathFixed("/");
  }

  /** With a token, the three public paths reach the dashboard within two redirects. */
  lemma SignedInResolution(storage: map<string, string>)
    requires HasToken(storage)
    ensures Resolve(storage, "/", 3) == Shown(Dashboard, 2)
    ensures Resolve(storage, "/login", 3) == Shown(Dashboard, 1)
    ensures Resolve(storage, "/register", 3) == Shown(Dashboard, 1)
    ensures Resolve(storage, "/dashboard", 3) == Shown(Dashboard, 0)
  {
    DeclaredPathCanonical("/");
    DeclaredPathCanonical("/login");
    DeclaredPathCanonical("/register");
    DeclaredPathCanonical("/dashboard");
    ResolveAsExpected(storage, "/", 3);
    ResolveAsExpected(storage, "/login", 3);
    ResolveAsExpected(storage, "/register", 3);
    ResolveAsExpected(storage, "/dashboard", 3);
  }

  /** Without a token, "/" and "/dashboard" reach the login page within two redirects. */
  lemma SignedOutResolution(storage: map<string, string>)
    requires !HasToken(storage)
    ensures Resolve(storage, "/", 3) == Shown(Login, 1)
    ensures Resolve(storage, "/dashboard", 3) == Shown(Login, 1)
    ensures Resolve(storage, "/login", 3) == Shown(Login, 0)
    ensures Resolve(storage, "/register", 3) == Shown(Register, 0)
  {
    DeclaredPathCanonical("/");
    DeclaredPathCanonical("/login");
    DeclaredPathCanonical("/register");
    DeclaredPathCanonical("/dashboard");
    ResolveAsExpected(storage, "/", 3);
    ResolveAsExpected(storage, "/login", 3);
    ResolveAsExpected(storage, "/register", 3);
    ResolveAsExpected(storage, "/dashboard", 3);
  }

  /** Every location that no declared route's pattern matches is unmatched. */
  lemma UnknownPathUnmatched(storage: map<string, string>, path: string, fuel: nat)
    requires !IsDeclaredPath(CanonicalPath(path)) && fuel > 0
    ensures Resolve(storage, path, fuel) == Unmatched(path, 0)
  {
    TableMatch(CanonicalPath(path));
  }

  /** The end of every resolution, written out by the route the location selects: the resolution
      and the paths visited. */
  function ExpectedEnd(storage: map<string, string>, path: string): (Resolution, seq<string>) {
    var signedIn := HasToken(storage);
    var c := CanonicalPath(path);
    if c == "/" then
      (if signedIn then (Shown(Dashboard, 2), [path, "/login", "/dashboard"]) else (Shown(Login, 1), [path, "/login"]))
    else if c == "/login" then
      (if signedIn then (Shown(Dashboard, 1), [path, "/dashboard"]) else (Shown(Login, 0), [path]))
    else if c == "/register" then
      (if signedIn then (Shown(Dashboard, 1), [path, "/dashboard"]) else (Shown(Register, 0), [path]))
    else if c == "/dashboard" then
      (if signedIn then (Shown(Dashboard, 0), [path]) else (Shown(Login, 1), [path, "/login"]))
    else (Unmatched(path, 0), [path])
  }

  /** What one render of a location yields, by the route its canonical form selects. */
  lemma StepByRoute(storage: map<string, string>, path: string)
    ensures CanonicalPath(path) == "/" ==> Step(storage, path) == Some(Redirect("/login"))
    ensures CanonicalPath(path) == "/login" ==> Step(storage, path) == Some(AuthRoute(storage, Login))
    ensures CanonicalPath(path) == "/register" ==> Step(storage, path) == Some(AuthRoute(storage, Register))
    ensures CanonicalPath(path) == "/dashboard" ==> Step(storage, path) == Some(PrivateRoute(storage, Dashboard))
    ensures !IsDeclaredPath(CanonicalPath(path)) ==> Step(storage, path) == None
  {
    TableMatch(CanonicalPath(path));
  }

  /** Following one redirect adds one to the count and the target to the trace. */
  lemma RedirectStep(storage: map<string, string>, path: string, to: string, fuel: nat)
    requires fuel >= 1 && Step(storage, path) == Some(Redirect(to))
    ensures Resolve(storage, path, fuel) == AfterRedirect(Resolve(storage, to, fuel - 1))
    ensures Trace(storage, path, fuel) == [path] + Trace(storage, to, fuel - 1)
  {
  }

  lemma ResolveDashboardSignedIn(storage: map<string, string>, path: string, fuel: nat)
    requires fuel >= 1 && HasToken(storage) && CanonicalPath(path) == "/dashboard"
    ensures Resolve(storage, path, fuel) == Shown(Dashboard, 0) && Trace(storage, path, fuel) == [path]
  {
    StepByRoute(storage, path);
  }

  lemma ResolveAuthSignedOut(storage: map<string, string>, path: string, fuel: nat)
    requires fuel >= 1 && !HasToken(storage)
    requires CanonicalPath(path) == "/login" || CanonicalPath(path) == "/register"
    ensures Resolve(storage, path, fuel) == Shown(if CanonicalPath(path) == "/login" then Login else Register, 0)
    ensures Trace(storage, path, fuel) == [path]
  {
    StepByRoute(storage, path);
  }

  lemma DashboardSignedIn(storage: map<string, string>, fuel: nat)
    requires fuel >= 1 && HasToken(storage)
    ensures Resolve(storage, "/dashboard", fuel) == Shown(Dashboard, 0)
    ensures Trace(storage, "/dashboard", fuel) == ["/dashboard"]
  {
    DeclaredPathCanonical("/dashboard");
    ResolveDashboardSignedIn(storage, "/dashboard", fuel);
  }

  lemma LoginSignedOut(storage: map<string, string>, fuel: nat)
    requires fuel >= 1 && !HasToken(storage)
    ensures Resolve(storage, "/login", fuel) == Shown(Login, 0)
    ensures Trace(storage, "/login", fuel) == ["/login"]
  {
    DeclaredPathCanonical("/login");
    ResolveAuthSignedOut(storage, "/login", fuel);
  }

  lemma ResolveAuthSignedIn(storage: map<string, string>, path: string, fuel: nat)
    requires fuel >= 2 && HasToken(storage)
    requires CanonicalPath(path) == "/login" || CanonicalPath(path) == "/register"
    ensures Resolve(storage, path, fuel) == Shown(Dashboard, 1)
    ensures Trace(storage, path, fuel) == [path, "/dashboard"]
  {
    StepByRoute(storage, path);
    assert AuthRoute(storage, Login) == Redirect("/dashboard") == AuthRoute(storage, Register);
    assert Step(storage, path) == Some(Redirect("/dashboard"));
    DashboardSignedIn(storage, fuel - 1);
    RedirectStep(storage, path, "/dashboard", fuel);
  }

  lemma ResolveDashboardSignedOut(storage: map<string, string>, path: string, fuel: nat)
    requires fuel >= 2 && !HasToken(storage) && CanonicalPath(path) == "/dashboard"
    ensures Resolve(storage, path, fuel) == Shown(Login, 1)
    ensures Trace(storage, path, fuel) == [path, "/login"]
  {
    StepByRoute(storage, path);
    RedirectStep(storage, path, "/login", fuel);
    LoginSignedOut(storage, fuel - 1);
  }

  lemma LoginSignedIn(storage: map<string, string>, fuel: nat)
    requires fuel >= 2 && HasToken(storage)
    ensures Resolve(storage, "/login", fuel) == Shown(Dashboard, 1)
    ensures Trace(storage, "/login", fuel) == ["/login", "/dashboard"]
  {
    DeclaredPathCanonical("/login");
    ResolveAuthSignedIn(storage, "/login", fuel);
  }

  lemma ResolveRoot(storage: map<string, string>, path: string, fuel: nat)
    requires fuel >= 3 && CanonicalPath(path) == "/"
    ensures Resolve(storage, path, fuel) == ExpectedEnd(storage, path).0
    ensures Trace(storage, path, fuel) == ExpectedEnd(storage, path).1
  {
    StepByRoute(storage, path);
    RedirectStep(storage, path, "/login", fuel);
    if HasToken(storage) {
      LoginSignedIn(storage, fuel - 1);
    } else {
      LoginSignedOut(storage, fuel - 1);
    }
  }

  /** Resolution with enough fuel ends exactly as written out above. */
  lemma ResolveAsExpected(storage: map<string, string>, path: string, fuel: nat)
    requires fuel >= 3
    ensures Resolve(storage, path, fuel) == ExpectedEnd(storage, path).0
    ensures Trace(storage, path, fuel) == ExpectedEnd(storage, path).1
  {
    var c := CanonicalPath(path);
    if c == "/" {
      ResolveRoot(storage, path, fuel);
    } else if c == "/dashboard" {
      if HasToken(storage) {
        ResolveDashboardSignedIn(storage, path, fuel);
      } else {
        ResolveDashboardSignedOut(storage, path, fuel);
      }
    } else if c == "/login" || c == "/register" {
      if HasToken(storage) {
        ResolveAuthSignedIn(storage, path, fuel);
      } else {
        ResolveAuthSignedOut(storage, path, fuel);
      }
    } else {
      UnknownPathUnmatched(storage, path, fuel);
    }
  }

  lemma ExpectedEndRedirects(storage: map<string, string>, path: string)
    ensures !ExpectedEnd(storage, path).0.StillRedirecting? && ExpectedEnd(storage, path).0.redirects <= 2
    ensures 1 <= |ExpectedEnd(storage, path).1| <= 3 && ExpectedEnd(storage, path).1[0] == path
  {
  }

  /** A location whose canonical form is not a declared path's is not that path. */
  lemma OtherThanDeclared(path: string, key: string)
    requires IsDeclaredPath(key) && CanonicalPath(path) != key
    ensures path != key
  {
    DeclaredPathCanonical(key);
  }

  lemma ExpectedEndDistinct(storage: map<string, string>, path: string)
    ensures var t := ExpectedEnd(storage, path).1;
      forall i, j :: 0 <= i < j < |t| ==> t[i] != t[j]
  {
    var c := CanonicalPath(path);
    if c != "/login" {
      OtherThanDeclared(path, "/login");
    }
    if c != "/dashboard" {
      OtherThanDeclared(path, "/dashboard");
    }
    var t := ExpectedEnd(storage, path).1;
    assert t == [path] || t == [path, "/login"] || t == [path, "/dashboard"] || t == [path, "/login", "/dashboard"];
  }

  /** Resolution never cycles: from any path, in either token state, it ends after at most two
      redirects, visits each path at most once, and more fuel changes nothing. */
  lemma ResolutionTerminates(storage: map<string, string>, path: string, fuel: nat)
    requires fuel >= 3
    ensures Resolve(storage, path, fuel) == Resolve(storage, path, 3)
    ensures !Resolve(storage, path, fuel).StillRedirecting?
    ensures Resolve(storage, path, fuel).redirects <= 2
    ensures Trace(storage, path, fuel) == Trace(storage, path, 3)
    ensures 1 <= |Trace(storage, path, fuel)| <= 3 && Trace(storage, path, fuel)[0] == path
    ensures forall i, j :: 0 <= i < j < |Trace(storage, path, fuel)| ==>
      Trace(storage, path, fuel)[i] != Trace(storage, path, fuel)[j]
  {
    ResolveAsExpected(storage, path, fuel);
    ResolveAsExpected(storage, path, 3);
    ExpectedEndRedirects(storage, path);
    ExpectedEndDistinct(storage, path);
  }

  /** After logout removes the token, the dashboard sends the user to the login page. */
  lemma LoggedOutDashboard(storage: map<string, string>)
    ensures Resolve(storage - {TokenKey}, "/dashboard", 3) == Shown(Login, 1)
  {
    GetItemRoundTrip(storage, TokenKey, "", TokenKey);
    SignedOutResolution(storage - {TokenKey});
  }

  /** After login stores a non-empty token under the same key, the login page forwards to the dashboard. */
  lemma LoggedInLogin(storage: map<string, string>, token: string)
    requires token != ""
    ensures Resolve(storage[TokenKey := token], "/login", 3) == Shown(Dashboard, 1)
  {
    GetItemRoundTrip(storage, TokenKey, token, TokenKey);
    SignedInResolution(storage[TokenKey := token]);
  }
}
