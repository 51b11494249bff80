/**
 * The backend's route table: parsing the segments of a request path,
 * printing a route, linking to it, and the credential policy of each route.
 * URL parsing is left to the caller: parsers take the URL's pathname.
 */
module BackendRoute {
  import Wrappers
  import Text

  datatype AuthRoute = Register | Signin | Check | Signout
  datatype AdminRoute = TelegramSetWebHook | PopulateFakeUser
  datatype ActionRoute = ListDestinations | AddAction | DeleteAction | ListActions

  datatype Route =
    | Info
    | Auth(auth: AuthRoute)
    | Admin(admin: AdminRoute)
    | Action(action: ActionRoute)
    | TelegramWebHook
    | OmiWebHook

  /** Which credentials a route demands. */
  datatype RouteAuthKind =
    | None
    | Admin
    | Full
    | NoAuthCookieSetter
    | PartialAuthTokenOnly

  /** `AuthRoute::try_from_paths` */
  function AuthFromPaths(paths: seq<string>): Wrappers.Option<AuthRoute> {
    if paths == ["register"] then Wrappers.Some(Register)
    else if paths == ["check"] then Wrappers.Some(Check)
    else if paths == ["signout"] then Wrappers.Some(Signout)
    else if paths == ["signin"] then Wrappers.Some(Signin)
    else Wrappers.None
  }

  /** `AdminRoute::try_from_paths` */
  function AdminFromPaths(paths: seq<string>): Wrappers.Option<AdminRoute> {
    if paths == ["tg", "set-web-hook"] then Wrappers.Some(TelegramSetWebHook)
    else if paths == ["populate-fake-user"] then Wrappers.Some(PopulateFakeUser)
    else Wrappers.None
  }

  /** `ActionRoute::try_from_paths` */
  function ActionFromPaths(paths: seq<string>): Wrappers.Option<ActionRoute> {
    if paths == ["list-destinations"] then Wrappers.Some(ListDestinations)
    else if paths == ["add-action"] then Wrappers.Some(AddAction)
    else if paths == ["delete-action"] then Wrappers.Some(DeleteAction)
    else if paths == ["list-actions"] then Wrappers.Some(ListActions)
    else Wrappers.None
  }

  /** The slice match of `Route::try_from_url`, on the segments left after the root. */
  function FromSegments(paths: seq<string>): Wrappers.Option<Route> {
    if |paths| >= 1 && paths[0] == "auth" then
      match AuthFromPaths(paths[1..])
      case Some(a) => Wrappers.Some(Route.Auth(a))
      case None => Wrappers.None
    else if |paths| >= 1 && paths[0] == "admin" then
      match AdminFromPaths(paths[1..])
      case Some(a) => Wrappers.Some(Route.Admin(a))
      case None => Wrappers.None
    else if |paths| >= 1 && paths[0] == "action" then
      match ActionFromPaths(paths[1..])
      case Some(a) => Wrappers.Some(Action(a))
      case None => Wrappers.None
    else if paths == ["info"] then Wrappers.Some(Info)
    else if paths == ["tg"] then Wrappers.Some(TelegramWebHook)
    else if paths == ["omi"] then Wrappers.Some(OmiWebHook)
    else Wrappers.None
  }

  function AuthToString(a: AuthRoute): string {
    match a
    case Register => "register"
    case Signout => "signout"
    case Check => "check"
    case Signin => "signin"
  }

  function AdminToString(a: AdminRoute): string {
    match a
    case TelegramSetWebHook => "tg/set-web-hook"
    case PopulateFakeUser => "populate-fake-user"
  }

  function ActionToString(a: ActionRoute): string {
    match a
    case ListDestinations => "list-destinations"
    case AddAction => "add-action"
    case DeleteAction => "delete-action"
    case ListActions => "list-actions"
  }

  /** `Display for Route` */
  function ToString(r: Route): string {
    match r
    case Auth(a) => "auth/" + AuthToString(a)
    case Admin(a) => "admin/" + AdminToString(a)
    case Action(a) => "action/" + ActionToString(a)
    case Info => "info"
    case TelegramWebHook => "tg"
    case OmiWebHook => "omi"
  }

  /** The path segments that name each route, written out. */
  function Segments(r: Route): seq<string> {
    match r
    case Auth(a) => ["auth", AuthToString(a)]
    case Admin(TelegramSetWebHook) => ["admin", "tg", "set-web-hook"]
    case Admin(PopulateFakeUser) => ["admin", "populate-fake-user"]
    case Action(a) => ["action", ActionToString(a)]
    case Info => ["info"]
    case TelegramWebHook => ["tg"]
    case OmiWebHook => ["omi"]
  }

  /** Splitting a printed route on `/` gives its segments. */
  lemma SplitToString(r: Route)
    ensures Text.Split(ToString(r), '/') == Segments(r)
  {
    match r
    case Auth(a) => SplitAuth(a);
    case Admin(a) => SplitAdmin(a);
    case Action(a) => SplitAction(a);
    case Info => Text.SplitNoSeparator(ToString(r), '/');
    case TelegramWebHook => Text.SplitNoSeparator(ToString(r), '/');
    case OmiWebHook => Text.SplitNoSeparator(ToString(r), '/');
  }

  lemma SplitAuth(a: AuthRoute)
    ensures Text.Split(ToString(Route.Auth(a)), '/') == Segments(Route.Auth(a))
  {
    assert ToString(Route.Auth(a)) == "auth" + ['/'] + AuthToString(a);
    Text.SplitTwo("auth", AuthToString(a), '/');
  }

  lemma SplitAdmin(a: AdminRoute)
    ensures Text.Split(ToString(Route.Admin(a)), '/') == Segments(Route.Admin(a))
  {
    match a
    case TelegramSetWebHook =>
      assert ToString(Route.Admin(a)) == "admin" + ['/'] + "tg" + ['/'] + "set-web-hook";
      Text.SplitThree("admin", "tg", "set-web-hook", '/');
    case PopulateFakeUser =>
      assert ToString(Route.Admin(a)) == "admin" + ['/'] + "populate-fake-user";
      Text.SplitTwo("admin", "populate-fake-user", '/');
  }

  lemma SplitAction(a: ActionRoute)
    ensures Text.Split(ToString(Action(a)), '/') == Segments(Action(a))
  {
    assert ToString(Action(a)) == "action" + ['/'] + ActionToString(a);
    Text.SplitTwo("action", ActionToString(a), '/');
  }

  /**
   * The parser accepts exactly the segments of some route and gives back that
   * route: every other segment list, for instance one with a trailing empty
   * segment, is rejected.
   */
  lemma ParseExact(paths: seq<string>, r: Route)
    ensures FromSegments(paths) == Wrappers.Some(r) <==> paths == Segments(r)
  {
    if paths == Segments(r) {
      match r
      case Auth(a) => assert paths[1..] == [AuthToString(a)];
      case Admin(a) => assert paths[1..] == Segments(r)[1..];
      case Action(a) => assert paths[1..] == [ActionToString(a)];
      case _ =>
    }
    if FromSegments(paths) == Wrappers.Some(r) {
      assert paths == [paths[0]] + paths[1..];
    }
  }

  /** Printing a route and parsing its segments gives the route back. */
  lemma RoundTrip(r: Route)
    ensures FromSegments(Text.Split(ToString(r), '/')) == Wrappers.Some(r)
  {
    SplitToString(r);
    ParseExact(Segments(r), r);
  }

  lemma TrailingEmptySegmentRejected()
    ensures FromSegments(["info", ""]) == Wrappers.None
    ensures FromSegments(["auth", "signin", ""]) == Wrappers.None
  {
  }

  /** `Route::auth_kind`: the credential policy, total over all routes. */
  function AuthKind(r: Route): (k: RouteAuthKind)
    ensures k == Full <==> r == Route.Auth(Check) || r.Action?
    ensures k == RouteAuthKind.Admin <==> r.Admin?
    ensures k == PartialAuthTokenOnly <==> r == Route.Auth(Signout)
    ensures k == NoAuthCookieSetter <==> r == Route.Auth(Register) || r == Route.Auth(Signin)
    ensures k == RouteAuthKind.None <==> r == Info || r == TelegramWebHook || r == OmiWebHook
  {
    match r
    case Auth(a) =>
      (match a
       case Check => Full
       case Register => NoAuthCookieSetter
       case Signin => NoAuthCookieSetter
       case Signout => PartialAuthTokenOnly)
    case Action(_) => Full
    case Admin(_) => RouteAuthKind.Admin
    case Info => RouteAuthKind.None
    case TelegramWebHook => RouteAuthKind.None
    case OmiWebHook => RouteAuthKind.None
  }

  /** Rust's `Iterator::skip(n)`: nothing is left when there are fewer than `n` items. */
  function Drop(segs: seq<string>, n: nat): (r: seq<string>)
    ensures n <= |segs| ==> r == segs[n..]
    ensures n > |segs| ==> r == []
  {
    if n <= |segs| then segs[n..] else []
  }

  /** Segments skipped before matching, as the source counts them: one per `/` of the root, plus one. */
  function SkipAsWritten(rootPath: string): nat {
    Text.Count(rootPath, '/') + 1
  }

  /** `Route::try_from_url` as written, on the URL's pathname. */
  function TryFromPathnameAsWritten(pathname: string, rootPath: string): Wrappers.Option<Route> {
    FromSegments(Drop(Text.Split(pathname, '/'), SkipAsWritten(rootPath)))
  }

  /**
   * Segments to skip so that the leading empty segment and every segment of a
   * non-empty root are dropped.
   */
  function Skip(rootPath: string): (n: nat)
    ensures n == |Text.Split("/", '/')| - 1 + (if rootPath == "" then 0 else |Text.Split(rootPath, '/')|)
  {
    assert Text.Split("/", '/') == ["", ""];
    if rootPath == "" then 1 else Text.Count(rootPath, '/') + 2
  }

  /** `Route::try_from_url` with the corrected skip count. */
  function TryFromPathname(pathname: string, rootPath: string): Wrappers.Option<Route> {
    FromSegments(Drop(Text.Split(pathname, '/'), Skip(rootPath)))
  }

  /** A path below the root: `/root/rest`, or `/rest` when the root is empty. */
  function RootedPath(rootPath: string, rest: string): string {
    if rootPath == "" then "/" + rest else "/" + rootPath + "/" + rest
  }

  /** A rooted path splits into the leading empty segment, the root's segments and the rest's. */
  lemma SplitRootedPath(rootPath: string, rest: string)
    ensures rootPath == "" ==> Text.Split(RootedPath(rootPath, rest), '/') == [""] + Text.Split(rest, '/')
    ensures rootPath != "" ==>
      (Text.Split(RootedPath(rootPath, rest), '/') == [""] + Text.Split(rootPath, '/') + Text.Split(rest, '/'))
  {
    if rootPath == "" {
      assert RootedPath(rootPath, rest) == "" + ['/'] + rest;
      Text.SplitConcat("", rest, '/');
    } else {
      assert RootedPath(rootPath, rest) == "" + ['/'] + (rootPath + ['/'] + rest);
      Text.SplitConcat("", rootPath + ['/'] + rest, '/');
      Text.SplitConcat(rootPath, rest, '/');
    }
  }

  /** The corrected skip count drops exactly the leading empty segment and the root's segments. */
  lemma SkipRootedPath(rootPath: string, rest: string)
    ensures Drop(Text.Split(RootedPath(rootPath, rest), '/'), Skip(rootPath)) == Text.Split(rest, '/')
  {
    SplitRootedPath(rootPath, rest);
  }

  /** The path part of `Route::link`. */
  function LinkPath(r: Route, rootPath: string): string {
    RootedPath(rootPath, ToString(r))
  }

  /** `Route::link`: the domain, then the root if there is one, then the route. */
  function Link(r: Route, domain: string, rootPath: string): (url: string)
    ensures url == domain + LinkPath(r, rootPath)
  {
    if rootPath == "" then domain + "/" + ToString(r)
    else domain + "/" + rootPath + "/" + ToString(r)
  }

  /** A link to a route, below any root, parses back to that route. */
  lemma LinkRoundTrip(r: Route, rootPath: string)
    ensures TryFromPathname(LinkPath(r, rootPath), rootPath) == Wrappers.Some(r)
  {
    SkipRootedPath(rootPath, ToString(r));
    RoundTrip(r);
  }

  /** With the deployed empty root both skip counts agree. */
  lemma SkipAgreesOnEmptyRoot(pathname: string)
    ensures TryFromPathnameAsWritten(pathname, "") == TryFromPathname(pathname, "")
  {
  }

  /** As written, a link below the root `foo` does not parse: the root's own segment is left in front. */
  lemma AsWrittenRejectsRootedLink()
    ensures TryFromPathnameAsWritten(LinkPath(Info, "foo"), "foo") == Wrappers.None
    ensures TryFromPathname(LinkPath(Info, "foo"), "foo") == Wrappers.Some(Info)
  {
    AsWrittenKeepsRoot();
    LinkRoundTrip(Info, "foo");
  }

  lemma AsWrittenKeepsRoot()
    ensures TryFromPathnameAsWritten(LinkPath(Info, "foo"), "foo") == Wrappers.None
  {
    RootedInfoSegments();
    assert SkipAsWritten("foo") == 1 by {
      assert Text.Count("foo", '/') == 0;
    }
    assert Drop(["", "foo", "info"], 1) == ["foo", "info"];
    assert |"foo"| == 3;
  }

  lemma RootedInfoSegments()
    ensures Text.Split(LinkPath(Info, "foo"), '/') == ["", "foo", "info"]
  {
    assert ToString(Info) == "info";
    assert LinkPath(Info, "foo") == "" + ['/'] + ("foo" + ['/'] + "info");
    Text.SplitConcat("", "foo" + ['/'] + "info", '/');
    Text.SplitTwo("foo", "info", '/');
    Text.SplitNoSeparator("", '/');
  }
}
