/**
 * The frontend's page routes: parsing the pathname (and the `uid` query
 * parameter) of the browser's URL, printing a route, linking to it and the
 * sign-in gate. The segment skipping before the match is shared with the
 * backend router.
 */
module FrontendRoute {
  import opened Wrappers
  import Text
  import BackendRoute

  datatype Dashboard = Actions | Destinations
  datatype NotFoundReason = NoAuth | BadUrl
  datatype AuthRoute = RegisterStart(startUid: Option<string>) | RegisterComplete(uid: string) | Signin
  datatype Landing = Welcome(uid: Option<string>) | Auth(auth: AuthRoute)

  datatype Route =
    | Landing(landing: Landing)
    | Dashboard(dashboard: Dashboard)
    | NotFound(reason: NotFoundReason)
    | TermsOfService
    | PrivacyPolicy

  /** The slice match of `Route::from_url`; `uid` is the URL's `uid` query parameter. */
  function FromSegments(paths: seq<string>, uid: Option<string>): (r: Route)
    ensures paths == [""] ==> r == Route.Landing(Welcome(uid))
    ensures paths == ["dashboard"] ==> r == Route.Dashboard(Actions)
    ensures |paths| == 2 && paths[0] == "dashboard" && paths[1] != "actions" && paths[1] != "destinations"
      ==> r == NotFound(BadUrl)
    ensures paths == ["register", "start"] ==> r == Route.Landing(Auth(RegisterStart(uid)))
  {
    if paths == [""] then Route.Landing(Welcome(uid))
    else if paths == ["no-auth"] then NotFound(NoAuth)
    else if paths == ["dashboard"] then Route.Dashboard(Actions)
    else if |paths| == 2 && paths[0] == "dashboard" then
      if paths[1] == "actions" then Route.Dashboard(Actions)
      else if paths[1] == "destinations" then Route.Dashboard(Destinations)
      else NotFound(BadUrl)
    else if paths == ["register", "start"] then Route.Landing(Auth(RegisterStart(uid)))
    else if |paths| == 3 && paths[0] == "register" && paths[1] == "complete" then
      Route.Landing(Auth(RegisterComplete(paths[2])))
    else if paths == ["signin"] then Route.Landing(Auth(Signin))
    else if paths == ["terms-of-service"] then TermsOfService
    else if paths == ["privacy-policy"] then PrivacyPolicy
    else NotFound(BadUrl)
  }

  /** The segment lists the slice match recognises; every other list falls through to NotFound(BadUrl). */
  predicate Recognised(paths: seq<string>) {
    paths == [""] || paths == ["no-auth"] || paths == ["dashboard"]
    || paths == ["dashboard", "actions"] || paths == ["dashboard", "destinations"]
    || paths == ["register", "start"] || (|paths| == 3 && paths[0] == "register" && paths[1] == "complete")
    || paths == ["signin"] || paths == ["terms-of-service"] || paths == ["privacy-policy"]
  }

  /** The segment lists that give each route, with `uid` the URL's `uid` parameter. */
  predicate Matches(paths: seq<string>, uid: Option<string>, r: Route) {
    match r
    case Landing(Welcome(u)) => paths == [""] && u == uid
    case Landing(Auth(RegisterStart(u))) => paths == ["register", "start"] && u == uid
    case Landing(Auth(RegisterComplete(u))) => paths == ["register", "complete", u]
    case Landing(Auth(Signin)) => paths == ["signin"]
    case Dashboard(Actions) => paths == ["dashboard"] || paths == ["dashboard", "actions"]
    case Dashboard(Destinations) => paths == ["dashboard", "destinations"]
    case NotFound(NoAuth) => paths == ["no-auth"]
    case NotFound(BadUrl) => !Recognised(paths)
    case TermsOfService => paths == ["terms-of-service"]
    case PrivacyPolicy => paths == ["privacy-policy"]
  }

  /**
   * The slice match, arm by arm: a segment list gives a route exactly when
   * it is one of that route's lists, and the unrecognised lists give
   * NotFound(BadUrl).
   */
  lemma ParseExact(paths: seq<string>, uid: Option<string>, r: Route)
    ensures FromSegments(paths, uid) == r <==> Matches(paths, uid, r)
  {
    if |paths| == 3 && paths[0] == "register" && paths[1] == "complete" {
      assert paths == ["register", "complete", paths[2]];
    }
    if |paths| == 2 && paths[0] == "dashboard" {
      assert paths == ["dashboard", paths[1]];
    }
  }

  /** A page needs a signed-in user exactly when its URL is one of the dashboard's. */
  lemma RequiresAuthOfUrl(paths: seq<string>, uid: Option<string>)
    ensures RequiresAuth(FromSegments(paths, uid))
      <==> paths == ["dashboard"] || paths == ["dashboard", "actions"] || paths == ["dashboard", "destinations"]
  {
    ParseExact(paths, uid, Route.Dashboard(Actions));
    ParseExact(paths, uid, Route.Dashboard(Destinations));
  }

  /** `Route::from_url` as written, on the URL's pathname and `uid` parameter. */
  function FromUrlAsWritten(pathname: string, rootPath: string, uid: Option<string>): Route {
    FromSegments(BackendRoute.Drop(Text.Split(pathname, '/'), BackendRoute.SkipAsWritten(rootPath)), uid)
  }

  /** `Route::from_url` with the corrected skip count. */
  function FromUrl(pathname: string, rootPath: string, uid: Option<string>): Route {
    FromSegments(BackendRoute.Drop(Text.Split(pathname, '/'), BackendRoute.Skip(rootPath)), uid)
  }

  /** `Display for Route` */
  function ToString(r: Route): string {
    match r
    case Landing(Welcome(Some(uid))) => "/?uid=" + uid
    case Landing(Welcome(None)) => "/"
    case Landing(Auth(RegisterStart(Some(uid)))) => "register/start?uid=" + uid
    case Landing(Auth(RegisterStart(None))) => "register/start"
    case Landing(Auth(RegisterComplete(uid))) => "register/complete/" + uid
    case Landing(Auth(Signin)) => "signin"
    case Dashboard(Actions) => "dashboard/actions"
    case Dashboard(Destinations) => "dashboard/destinations"
    case NotFound(BadUrl) => "404"
    case NotFound(NoAuth) => "no-auth"
    case TermsOfService => "terms-of-service"
    case PrivacyPolicy => "privacy-policy"
  }

  /** `Route::link_url`: the link with every trailing `//` removed. */
  function LinkUrl(r: Route, domain: string, rootPath: string): (url: string)
    ensures !Text.EndsWith(url, "//")
  {
    Text.TrimEndMatches(domain + BackendRoute.RootedPath(rootPath, ToString(r)), "//")
  }

  /** `Route::requires_auth`: only the dashboard pages need a signed-in user. */
  function RequiresAuth(r: Route): (b: bool)
    ensures b <==> r.Dashboard?
  {
    match r
    case Dashboard(_) => true
    case _ => false
  }

  /** Routes whose printed form is a path alone, with no query and no stray `/` in a parameter. */
  predicate PathOnly(r: Route) {
    match r
    case Landing(Welcome(_)) => false
    case Landing(Auth(RegisterStart(uid))) => uid.None?
    case Landing(Auth(RegisterComplete(uid))) => '/' !in uid
    case _ => true
  }

  /** The segments of a path-only route. */
  function Segments(r: Route): seq<string>
    requires PathOnly(r)
  {
    match r
    case Landing(Auth(RegisterStart(_))) => ["register", "start"]
    case Landing(Auth(RegisterComplete(uid))) => ["register", "complete", uid]
    case Landing(Auth(Signin)) => ["signin"]
    case Dashboard(Actions) => ["dashboard", "actions"]
    case Dashboard(Destinations) => ["dashboard", "destinations"]
    case NotFound(BadUrl) => ["404"]
    case NotFound(NoAuth) => ["no-auth"]
    case TermsOfService => ["terms-of-service"]
    case PrivacyPolicy => ["privacy-policy"]
  }

  lemma SplitToString(r: Route)
    requires PathOnly(r)
    ensures Text.Split(ToString(r), '/') == Segments(r)
  {
    match r
    case Landing(Auth(RegisterStart(_))) =>
      assert ToString(r) == "register" + ['/'] + "start";
      Text.SplitTwo("register", "start", '/');
    case Landing(Auth(RegisterComplete(uid))) => SplitRegisterComplete(uid);
    case Dashboard(d) => SplitDashboard(d);
    case _ => Text.SplitNoSeparator(ToString(r), '/');
  }

  lemma SplitRegisterComplete(uid: string)
    requires PathOnly(Route.Landing(Auth(RegisterComplete(uid))))
    ensures Text.Split(ToString(Route.Landing(Auth(RegisterComplete(uid)))), '/')
      == Segments(Route.Landing(Auth(RegisterComplete(uid))))
  {
    assert ToString(Route.Landing(Auth(RegisterComplete(uid)))) == "register" + ['/'] + "complete" + ['/'] + uid;
    Text.SplitThree("register", "complete", uid, '/');
  }

  lemma SplitDashboard(d: Dashboard)
    ensures Text.Split(ToString(Route.Dashboard(d)), '/') == Segments(Route.Dashboard(d))
  {
    match d
    case Actions =>
      assert ToString(Route.Dashboard(d)) == "dashboard" + ['/'] + "actions";
      Text.SplitTwo("dashboard", "actions", '/');
    case Destinations =>
      assert ToString(Route.Dashboard(d)) == "dashboard" + ['/'] + "destinations";
      Text.SplitTwo("dashboard", "destinations", '/');
  }

  /** The parser maps the segments of a path-only route, with no query, back to it. */
  lemma ParseSegments(r: Route)
    requires PathOnly(r)
    ensures FromSegments(Segments(r), None) == r
  {
    match r
    case Landing(Auth(RegisterComplete(u))) =>
      var p := Segments(r);
      assert |p| == 3 && p[0] == "register" && p[1] == "complete" && p[2] == u;
      assert p != [""] && p != ["no-auth"] && p != ["dashboard"] && p != ["register", "start"];
    case Landing(Auth(RegisterStart(_))) =>
    case Landing(Auth(Signin)) =>
    case Dashboard(Actions) =>
    case Dashboard(Destinations) =>
    case NotFound(BadUrl) =>
    case NotFound(NoAuth) =>
    case TermsOfService =>
    case PrivacyPolicy =>
  }

  /** A path-only route printed below the root parses back to itself. */
  lemma PathRoundTrip(r: Route, rootPath: string)
    requires PathOnly(r)
    ensures FromUrl(BackendRoute.RootedPath(rootPath, ToString(r)), rootPath, None) == r
  {
    BackendRoute.SkipRootedPath(rootPath, ToString(r));
    SplitToString(r);
    ParseSegments(r);
  }

  /** The printed form of a path-only route has at least two characters and does not end in `//`. */
  lemma PathOnlyShape(r: Route)
    requires PathOnly(r)
    ensures |ToString(r)| >= 2 && !Text.EndsWith(ToString(r), "//")
  {
    var s := ToString(r);
    match r
    case Landing(Auth(RegisterComplete(uid))) =>
      if uid == "" {
        assert s[|s| - 2..] == "e/";
      } else {
        assert s[|s| - 1] == uid[|uid| - 1];
      }
    case _ =>
  }

  /** Text that does not end in `//` is left alone by the trim. */
  lemma TrimNoDoubleSlash(s: string)
    requires !Text.EndsWith(s, "//")
    ensures Text.TrimEndMatches(s, "//") == s
  {
  }

  /** A path-only route is never cut by the trailing `//` trim: its link is the domain, then its path. */
  lemma LinkUrlOfPathOnly(r: Route, domain: string, rootPath: string)
    requires PathOnly(r)
    ensures LinkUrl(r, domain, rootPath) == domain + BackendRoute.RootedPath(rootPath, ToString(r))
  {
    var s := ToString(r);
    PathOnlyShape(r);
    var url := domain + BackendRoute.RootedPath(rootPath, s);
    assert url[|url| - 2..] == s[|s| - 2..];
    TrimNoDoubleSlash(url);
  }

  /** The welcome page links to the bare domain, and the bare pathname is the welcome page. */
  lemma WelcomeLink(domain: string, uid: Option<string>)
    requires !Text.EndsWith(domain, "//")
    ensures LinkUrl(Route.Landing(Welcome(None)), domain, "") == domain
    ensures FromUrl("/", "", uid) == Route.Landing(Welcome(uid))
  {
    var s := domain + "/" + "/";
    assert Text.EndsWith(s, "//");
    assert s[..|s| - 2] == domain;
    TrimNoDoubleSlash(domain);
    assert Text.TrimEndMatches(s, "//") == domain;
    assert Text.Split("/", '/') == ["", ""];
  }

  /** The `uid` query parameter is carried into the register-start page. */
  lemma UidCarried(uid: Option<string>)
    ensures FromUrl("/register/start", "", uid) == Route.Landing(Auth(RegisterStart(uid)))
  {
    assert "/register/start" == "" + ['/'] + "register" + ['/'] + "start";
    Text.SplitThree("", "register", "start", '/');
  }

  /** Below the root `foo`, any route printed as `dashboard/actions`, read both ways. */
  lemma RootedDashboard(rest: string)
    requires Text.Split(rest, '/') == ["dashboard", "actions"]
    ensures FromUrlAsWritten(BackendRoute.RootedPath("foo", rest), "foo", None) == NotFound(BadUrl)
    ensures FromUrl(BackendRoute.RootedPath("foo", rest), "foo", None) == Route.Dashboard(Actions)
  {
    BackendRoute.SplitRootedPath("foo", rest);
    Text.SplitNoSeparator("foo", '/');
    var segs := ["", "foo", "dashboard", "actions"];
    assert Text.Split(BackendRoute.RootedPath("foo", rest), '/') == segs;
    assert Text.Count("foo", '/') == 0;
    assert BackendRoute.Drop(segs, 1) == ["foo", "dashboard", "actions"];
    assert BackendRoute.Drop(segs, 2) == ["dashboard", "actions"];
  }

  /** As written, the dashboard below the root `foo` is not found; with the corrected count it is. */
  lemma AsWrittenLosesRootedPage()
    ensures FromUrlAsWritten(BackendRoute.RootedPath("foo", ToString(Route.Dashboard(Actions))), "foo", None)
      == NotFound(BadUrl)
    ensures FromUrl(BackendRoute.RootedPath("foo", ToString(Route.Dashboard(Actions))), "foo", None)
      == Route.Dashboard(Actions)
  {
    SplitToString(Route.Dashboard(Actions));
    RootedDashboard(ToString(Route.Dashboard(Actions)));
  }
}
