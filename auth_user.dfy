/**
 * The request authenticator. A route's auth kind decides whether credentials
 * are read at all; a configured admin code lets an operator impersonate any
 * user; otherwise the token id comes from a header or the `Cookie` header, the
 * token key from a header only, the session is validated (and slid forward),
 * and the account's revocation token must still match the session's.
 *
 * `Authenticate` is the reference definition: its result and the session
 * namespace afterwards. `Validate` and `TryNew` perform it on the stores.
 */
module AuthUser {
  import opened Wrappers
  import opened ApiResult
  import Text
  import Uuid
  import Config
  import Cloudflare
  import Http
  import KvAuth
  import Accounts
  import BackendRoute

  const HEADER_AUTH_TOKEN_ID: string := "X-OMI-TOKEN-ID"
  const HEADER_AUTH_TOKEN_KEY: string := "X-OMI-TOKEN-KEY"
  const HEADER_ADMIN_CODE: string := "X-OMI-ADMIN-CODE"
  /** Lets an admin act as another user. */
  const HEADER_ADMIN_UID: string := "X-OMI-ADMIN-UID"

  datatype AuthUser = AuthUser(account: Accounts.UserAccount, tokenId: string)

  type Users = map<Accounts.UserId, Accounts.UserAccount>

  /** Admin holds when the configured admin code is set and the request presents exactly it. */
  function IsAdmin(env: Cloudflare.Env, req: Http.Request): (admin: bool)
    ensures admin ==> Cloudflare.SecretOrEmpty(env, Config.ENV_KEY_ADMIN_CODE) != ""
    ensures admin <==> (Cloudflare.SecretOrEmpty(env, Config.ENV_KEY_ADMIN_CODE) != ""
      && Http.Header(req, HEADER_ADMIN_CODE) == Cloudflare.SecretOrEmpty(env, Config.ENV_KEY_ADMIN_CODE))
  {
    var expected := Cloudflare.SecretOrEmpty(env, Config.ENV_KEY_ADMIN_CODE);
    if expected != "" then expected == Http.Header(req, HEADER_ADMIN_CODE) else false
  }

  /** Each piece trimmed (`.map(|x| x.trim())`). */
  function TrimAll(parts: seq<string>): (r: seq<string>)
    ensures |r| == |parts|
    ensures forall i :: 0 <= i < |r| ==> r[i] == Text.Trim(parts[i])
  {
    if |parts| == 0 then [] else [Text.Trim(parts[0])] + TrimAll(parts[1..])
  }

  /** The text after the first `=` of a cookie piece, or empty without one. */
  function PairValue(piece: string): string {
    match Text.SplitOnce(piece, '=')
    case None => ""
    case Some((_, value)) => value
  }

  /** The value of the first piece that starts with `name`, or empty when none does. */
  function FirstValue(parts: seq<string>, name: string): (v: string)
    ensures forall k :: (0 <= k < |parts| && Text.StartsWith(parts[k], name)
                         && forall j :: 0 <= j < k ==> !Text.StartsWith(parts[j], name)) ==>
      v == PairValue(parts[k])
    ensures (forall k :: 0 <= k < |parts| ==> !Text.StartsWith(parts[k], name)) ==> v == ""
    ensures v != "" ==> exists k :: (0 <= k < |parts| && Text.StartsWith(parts[k], name)
      && Text.SplitOnce(parts[k], '=').Some? && Text.SplitOnce(parts[k], '=').value.1 == v)
  {
    match Text.FindPrefixed(parts, name)
    case None => ""
    case Some(k) => PairValue(parts[k])
  }

  /**
   * The value of the cookie `name` in a `Cookie` header: the text after the
   * first `=` of the first `;`-separated, trimmed piece that starts with
   * `name`; empty when there is none.
   */
  function CookieValue(cookie: string, name: string): (v: string)
    ensures !Text.Contains(cookie, name) ==> v == ""
    ensures v != "" ==> exists k :: (0 <= k < |Text.Split(cookie, ';')|
      && Text.StartsWith(Text.Trim(Text.Split(cookie, ';')[k]), name)
      && Text.SplitOnce(Text.Trim(Text.Split(cookie, ';')[k]), '=').Some?
      && Text.SplitOnce(Text.Trim(Text.Split(cookie, ';')[k]), '=').value.1 == v)
    ensures var parts := TrimAll(Text.Split(cookie, ';'));
      forall k :: (0 <= k < |parts| && Text.StartsWith(parts[k], name)
                   && forall j :: 0 <= j < k ==> !Text.StartsWith(parts[j], name)) ==>
        v == PairValue(parts[k])
    ensures var parts := TrimAll(Text.Split(cookie, ';'));
      (forall k :: 0 <= k < |parts| ==> !Text.StartsWith(parts[k], name)) ==> v == ""
  {
    if !Text.Contains(cookie, name) then NoPieceWithoutName(cookie, name); ""
    else FirstValue(TrimAll(Text.Split(cookie, ';')), name)
  }

  /** Every trimmed piece of a jar is a slice of it, so none starts with a name the jar lacks. */
  lemma NoPieceWithoutName(cookie: string, name: string)
    requires !Text.Contains(cookie, name)
    ensures forall k :: 0 <= k < |TrimAll(Text.Split(cookie, ';'))| ==>
      !Text.StartsWith(TrimAll(Text.Split(cookie, ';'))[k], name)
  {
    var pieces := Text.Split(cookie, ';');
    var parts := TrimAll(pieces);
    forall k | 0 <= k < |parts|
      ensures !Text.StartsWith(parts[k], name)
    {
      Text.SplitPiecesInfix(cookie, ';', k);
      Text.TrimInfix(pieces[k]);
      Text.InfixTransitive(parts[k], pieces[k], cookie);
      Text.InfixContains(parts[k], cookie, name);
    }
  }

  /** The token id carried by a `Cookie` header. */
  function TokenIdFromCookie(cookie: string): string {
    CookieValue(cookie, HEADER_AUTH_TOKEN_ID)
  }

  /** The token id: the header when it is non-empty, the cookie otherwise. */
  function TokenId(req: Http.Request): (id: string)
    ensures Http.Header(req, HEADER_AUTH_TOKEN_ID) != "" ==> id == Http.Header(req, HEADER_AUTH_TOKEN_ID)
    ensures Http.Header(req, HEADER_AUTH_TOKEN_ID) == "" ==> id == TokenIdFromCookie(Http.Header(req, "cookie"))
  {
    var header := Http.Header(req, HEADER_AUTH_TOKEN_ID);
    if header != "" then header else TokenIdFromCookie(Http.Header(req, "cookie"))
  }

  /** The account an admin acts as: the stored one, or a made-up one with an empty user token. */
  function Impersonated(users: Users, uid: Accounts.UserId): (a: Accounts.UserAccount)
    ensures a.id == uid || uid in users
    ensures uid in users ==> a == users[uid]
    ensures uid !in users ==> a == Accounts.UserAccount(uid, "")
  {
    if uid in users then users[uid] else Accounts.UserAccount(uid, "")
  }

  datatype AuthOutcome = AuthOutcome(result: ApiResult<AuthUser>, store: KvAuth.Store)

  /** What the session validation of an authenticated request does to a signin token. */
  const SLIDE: KvAuth.AfterValidation := KvAuth.ExtendExpiresMs(Config.AUTH_TOKEN_SIGNIN_EXPIRES)

  /**
   * The session checks: a token id, a token key, a valid signin session (which
   * is slid forward), an existing account and, unless the route only needs a
   * valid token, a matching revocation token.
   */
  function SessionCheck(req: Http.Request, kind: BackendRoute.RouteAuthKind, users: Users,
                        store: KvAuth.Store, now: nat): (o: AuthOutcome)
    ensures TokenId(req) == "" ==> o == AuthOutcome(Err(Unknown("missing token id")), store)
    ensures TokenId(req) != "" && Http.Header(req, HEADER_AUTH_TOKEN_KEY) == "" ==>
      o == AuthOutcome(Err(Unknown("missing token key")), store)
    ensures o.result.Ok? ==> KvAuth.Accepts(store, KvAuth.Signin, TokenId(req), Http.Header(req, HEADER_AUTH_TOKEN_KEY), now)
    ensures o.result.Ok? ==> (o.result.value.tokenId == TokenId(req)
      && store[TokenId(req)].uid in users && o.result.value.account == users[store[TokenId(req)].uid])
    ensures o.result.Ok? && kind != BackendRoute.PartialAuthTokenOnly ==>
      o.result.value.account.userToken == store[TokenId(req)].userToken
    ensures forall other :: other != TokenId(req) ==>
      (other in o.store <==> other in store) && (other in store ==> o.store[other] == store[other])
  {
    var tokenId := TokenId(req);
    if tokenId == "" then AuthOutcome(Err(Unknown("missing token id")), store)
    else
      var tokenKey := Http.Header(req, HEADER_AUTH_TOKEN_KEY);
      if tokenKey == "" then AuthOutcome(Err(Unknown("missing token key")), store)
      else
        var v := KvAuth.ValidateTransition(store, KvAuth.Signin, tokenId, tokenKey, SLIDE, now);
        match v.result
        case Err(e) => AuthOutcome(Err(e), v.store)
        case Ok(session) =>
          if session.uid !in users then
            AuthOutcome(Err(Accounts.NeedToRegister("id " + Accounts.UserIdText(session.uid))), v.store)
          else
            var account := users[session.uid];
            if kind != BackendRoute.PartialAuthTokenOnly && account.userToken != session.userToken then
              AuthOutcome(Err(Unknown("user token mismatch for user id " + Accounts.UserIdText(session.uid))), v.store)
            else AuthOutcome(Ok(AuthUser(account, tokenId)), v.store)
  }

  /** `AuthUser::validate`: the admin override first, then the session checks. */
  function Authenticate(env: Cloudflare.Env, req: Http.Request, kind: BackendRoute.RouteAuthKind,
                        users: Users, store: KvAuth.Store, now: nat): (o: AuthOutcome)
    ensures !IsAdmin(env, req) && kind == BackendRoute.RouteAuthKind.Admin ==>
      o == AuthOutcome(Err(Unknown("not an admin")), store)
    ensures IsAdmin(env, req) && Http.Header(req, HEADER_ADMIN_UID) != "" ==> o.store == store
    ensures o.result.Ok? && o.result.value.tokenId != "" ==>
      KvAuth.Accepts(store, KvAuth.Signin, TokenId(req), Http.Header(req, HEADER_AUTH_TOKEN_KEY), now)
    ensures !(IsAdmin(env, req) && Http.Header(req, HEADER_ADMIN_UID) != "")
            && !(!IsAdmin(env, req) && kind == BackendRoute.RouteAuthKind.Admin) ==>
      o == SessionCheck(req, kind, users, store, now)
  {
    var admin := IsAdmin(env, req);
    var adminUid := Http.Header(req, HEADER_ADMIN_UID);
    if admin && adminUid != "" then
      match Uuid.Parse(adminUid)
      case None => AuthOutcome(Err(Unknown("invalid admin uid")), store)
      case Some(uid) => AuthOutcome(Ok(AuthUser(Impersonated(users, uid), "")), store)
    else if !admin && kind == BackendRoute.RouteAuthKind.Admin then
      AuthOutcome(Err(Unknown("not an admin")), store)
    else SessionCheck(req, kind, users, store, now)
  }

  /** `AuthUser::validate` on the account table and the session namespace. */
  method Validate(env: Cloudflare.Env, req: Http.Request, kind: BackendRoute.RouteAuthKind,
                  db: Accounts.AccountDb, kv: Cloudflare.Kv<KvAuth.TokenData>, now: nat)
    returns (r: ApiResult<AuthUser>)
    requires kv.namespace == Config.KV_BINDING_AUTH_TOKEN_SIGNIN
    modifies kv
    ensures AuthOutcome(r, kv.entries) == Authenticate(env, req, kind, db.users, old(kv.entries), now)
  {
    var expectedAdminCode := Cloudflare.SecretOrEmpty(env, Config.ENV_KEY_ADMIN_CODE);
    var headerAdminCode := Http.Header(req, HEADER_ADMIN_CODE);
    var admin := if expectedAdminCode != "" then expectedAdminCode == headerAdminCode else false;
    assert admin == IsAdmin(env, req);

    if admin {
      var headerAdminUid := Http.Header(req, HEADER_ADMIN_UID);
      if headerAdminUid != "" {
        var parsed := Uuid.Parse(headerAdminUid);
        if parsed.None? {
          return Err(Unknown("invalid admin uid"));
        }
        var uid := parsed.value;
        var loaded := db.LoadUser(uid);
        var account := if loaded.Ok? then loaded.value else Accounts.UserAccount(uid, "");
        return Ok(AuthUser(account, ""));
      }
    } else if kind == BackendRoute.RouteAuthKind.Admin {
      return Err(Unknown("not an admin"));
    }
    ghost var before := kv.entries;
    r := CheckSession(req, kind, db, kv, now);
    assert Authenticate(env, req, kind, db.users, before, now) == SessionCheck(req, kind, db.users, before, now);
  }

  /** The token id as `validate` reads it: the header, else the cookie when the jar names it. */
  method ReadTokenId(req: Http.Request) returns (tokenId: string)
    ensures tokenId == TokenId(req)
  {
    tokenId := Http.Header(req, HEADER_AUTH_TOKEN_ID);
    if tokenId == "" {
      var cookieHeader := Http.Header(req, "cookie");
      if Text.Contains(cookieHeader, HEADER_AUTH_TOKEN_ID) {
        tokenId := TokenIdFromCookie(cookieHeader);
      }
    }
  }

  /** The session half of `AuthUser::validate`: token id, key, the session record and the account. */
  method CheckSession(req: Http.Request, kind: BackendRoute.RouteAuthKind,
                      db: Accounts.AccountDb, kv: Cloudflare.Kv<KvAuth.TokenData>, now: nat)
    returns (r: ApiResult<AuthUser>)
    requires kv.namespace == Config.KV_BINDING_AUTH_TOKEN_SIGNIN
    modifies kv
    ensures AuthOutcome(r, kv.entries) == SessionCheck(req, kind, db.users, old(kv.entries), now)
  {
    var tokenId := ReadTokenId(req);
    if tokenId == "" {
      return Err(Unknown("missing token id"));
    }

    var tokenKey := Http.Header(req, HEADER_AUTH_TOKEN_KEY);
    if tokenKey == "" {
      return Err(Unknown("missing token key"));
    }

    r := CheckStoredSession(req, tokenId, tokenKey, kind, db, kv, now);
  }

  /** The session record and the account behind a token id and key the request carries. */
  method CheckStoredSession(req: Http.Request, tokenId: string, tokenKey: string, kind: BackendRoute.RouteAuthKind,
                            db: Accounts.AccountDb, kv: Cloudflare.Kv<KvAuth.TokenData>, now: nat)
    returns (r: ApiResult<AuthUser>)
    requires tokenId == TokenId(req) && tokenId != ""
    requires tokenKey == Http.Header(req, HEADER_AUTH_TOKEN_KEY) && tokenKey != ""
    requires kv.namespace == Config.KV_BINDING_AUTH_TOKEN_SIGNIN
    modifies kv
    ensures AuthOutcome(r, kv.entries) == SessionCheck(req, kind, db.users, old(kv.entries), now)
  {
    var session := KvAuth.Validate(kv, KvAuth.Signin, tokenId, tokenKey, SLIDE, now);
    if session.Err? {
      return Err(session.error);
    }
    var uid := session.value.uid;
    var loaded := db.LoadUser(uid);
    if loaded.Err? {
      return Err(loaded.error);
    }
    var account := loaded.value;
    if kind != BackendRoute.PartialAuthTokenOnly && account.userToken != session.value.userToken {
      return Err(Unknown("user token mismatch for user id " + Accounts.UserIdText(uid)));
    }
    r := Ok(AuthUser(account, tokenId));
  }

  datatype TryNewOutcome = TryNewOutcome(result: ApiResult<Option<AuthUser>>, store: KvAuth.Store)

  /**
   * `AuthUser::try_new`: routes that need no credentials are let through with
   * no user and no store access; for the others, any failure of the checks is
   * reported as one `NotAuthorized`, whatever its cause.
   */
  function TryNewSpec(env: Cloudflare.Env, req: Http.Request, route: BackendRoute.Route,
                      users: Users, store: KvAuth.Store, now: nat): (o: TryNewOutcome)
    ensures BackendRoute.AuthKind(route) in {BackendRoute.RouteAuthKind.None, BackendRoute.NoAuthCookieSetter}
      ==> o == TryNewOutcome(Ok(None), store)
    ensures o.result.Err? ==> o.result.error == Auth(NotAuthorized)
    ensures BackendRoute.AuthKind(route) !in {BackendRoute.RouteAuthKind.None, BackendRoute.NoAuthCookieSetter}
      ==> (o.result.Ok? <==> Authenticate(env, req, BackendRoute.AuthKind(route), users, store, now).result.Ok?)
    ensures o.result.Ok? && o.result.value.Some? ==>
      Authenticate(env, req, BackendRoute.AuthKind(route), users, store, now).result == Ok(o.result.value.value)
  {
    var kind := BackendRoute.AuthKind(route);
    if kind == BackendRoute.RouteAuthKind.None || kind == BackendRoute.NoAuthCookieSetter then
      TryNewOutcome(Ok(None), store)
    else
      var o := Authenticate(env, req, kind, users, store, now);
      match o.result
      case Ok(user) => TryNewOutcome(Ok(Some(user)), o.store)
      case Err(_) => TryNewOutcome(Err(Auth(NotAuthorized)), o.store)
  }

  /** `AuthUser::try_new` on the account table and the session namespace. */
  method TryNew(env: Cloudflare.Env, req: Http.Request, route: BackendRoute.Route,
                db: Accounts.AccountDb, kv: Cloudflare.Kv<KvAuth.TokenData>, now: nat)
    returns (r: ApiResult<Option<AuthUser>>)
    requires kv.namespace == Config.KV_BINDING_AUTH_TOKEN_SIGNIN
    modifies kv
    ensures TryNewOutcome(r, kv.entries) == TryNewSpec(env, req, route, db.users, old(kv.entries), now)
  {
    var kind := BackendRoute.AuthKind(route);
    if kind == BackendRoute.RouteAuthKind.None || kind == BackendRoute.NoAuthCookieSetter {
      return Ok(None);
    }
    var user := Validate(env, req, kind, db, kv, now);
    match user {
      case Ok(u) => r := Ok(Some(u));
      case Err(_) => r := Err(Auth(NotAuthorized));
    }
  }

  /** With no admin code configured, no request is an admin, whatever it sends. */
  lemma {:induction false} EmptyAdminCodeNeverAdmin(env: Cloudflare.Env, req: Http.Request)
    requires Cloudflare.SecretOrEmpty(env, Config.ENV_KEY_ADMIN_CODE) == ""
    ensures !IsAdmin(env, req)
  {
  }

  /**
   * An admin naming a user by its UUID acts as that user (or a made-up one
   * when there is no such account) with no token id, without any session
   * check and without touching the session namespace.
   */
  lemma {:induction false} AdminImpersonates(env: Cloudflare.Env, req: Http.Request, kind: BackendRoute.RouteAuthKind,
                          users: Users, store: KvAuth.Store, now: nat, u: Accounts.UserId)
    requires IsAdmin(env, req) && Uuid.WellFormed(u)
    requires Http.Header(req, HEADER_ADMIN_UID) == Uuid.Hyphenated(u)
    ensures Authenticate(env, req, kind, users, store, now)
      == AuthOutcome(Ok(AuthUser(Impersonated(users, u), "")), store)
  {
    Uuid.ParseHyphenated(u);
  }

  /** An admin uid header that is not a UUID fails, and changes nothing. */
  lemma {:induction false} AdminBadUidFails(env: Cloudflare.Env, req: Http.Request, kind: BackendRoute.RouteAuthKind,
                         users: Users, store: KvAuth.Store, now: nat)
    requires IsAdmin(env, req) && Http.Header(req, HEADER_ADMIN_UID) != ""
    requires Uuid.Parse(Http.Header(req, HEADER_ADMIN_UID)).None?
    ensures Authenticate(env, req, kind, users, store, now)
      == AuthOutcome(Err(Unknown("invalid admin uid")), store)
  {
  }

  /** An admin without a uid header goes through the ordinary session checks, even on an admin route. */
  lemma {:induction false} AdminWithoutUidNeedsSession(env: Cloudflare.Env, req: Http.Request, users: Users,
                                    store: KvAuth.Store, now: nat)
    requires IsAdmin(env, req) && Http.Header(req, HEADER_ADMIN_UID) == ""
    ensures Authenticate(env, req, BackendRoute.RouteAuthKind.Admin, users, store, now)
      == Authenticate(env, req, BackendRoute.Full, users, store, now)
  {
  }

  /**
   * The key is read from its header only: without it every non-impersonating
   * request fails, whatever cookies it carries.
   */
  lemma {:induction false} KeyNeverFromCookie(env: Cloudflare.Env, req: Http.Request, kind: BackendRoute.RouteAuthKind,
                           users: Users, store: KvAuth.Store, now: nat)
    requires Http.Header(req, HEADER_AUTH_TOKEN_KEY) == ""
    requires !(IsAdmin(env, req) && Http.Header(req, HEADER_ADMIN_UID) != "")
    ensures Authenticate(env, req, kind, users, store, now).result.Err?
    ensures Authenticate(env, req, kind, users, store, now).store == store
  {
  }

  /**
   * Signing out everywhere revokes: once the account's user token differs
   * from the one the session was created with, the session is refused on
   * every route that checks it, though it may still be used to sign out.
   */
  lemma {:induction false} RotatedTokenRevokes(req: Http.Request, kind: BackendRoute.RouteAuthKind, users: Users,
                            store: KvAuth.Store, now: nat)
    requires TokenId(req) in store && store[TokenId(req)].uid in users
    requires users[store[TokenId(req)].uid].userToken != store[TokenId(req)].userToken
    ensures kind != BackendRoute.PartialAuthTokenOnly ==> SessionCheck(req, kind, users, store, now).result.Err?
    ensures KvAuth.Accepts(store, KvAuth.Signin, TokenId(req), Http.Header(req, HEADER_AUTH_TOKEN_KEY), now)
      && TokenId(req) != "" && Http.Header(req, HEADER_AUTH_TOKEN_KEY) != ""
      ==> SessionCheck(req, BackendRoute.PartialAuthTokenOnly, users, store, now).result.Ok?
  {
  }

  /** A successful check slides the session: its expiry is two weeks from now, and nothing else moves. */
  lemma {:induction false} SessionSlides(req: Http.Request, kind: BackendRoute.RouteAuthKind, users: Users,
                      store: KvAuth.Store, now: nat)
    requires SessionCheck(req, kind, users, store, now).result.Ok?
    ensures var id := TokenId(req);
      SessionCheck(req, kind, users, store, now).store
        == store[id := store[id].(expiresAt := now + Config.AUTH_TOKEN_SIGNIN_EXPIRES)]
  {
  }

  /** Cookie pairs as a browser sends them: joined by `; `, the last one given apart. */
  function Jar(others: seq<string>, last: string): string {
    if |others| == 0 then last else others[0] + "; " + Jar(others[1..], last)
  }

  /** The `Cookie` header a browser sends for these cookie pairs: empty when there are none. */
  function CookieHeader(cookies: seq<string>): string {
    if |cookies| == 0 then "" else Jar(cookies[..|cookies| - 1], cookies[|cookies| - 1])
  }

  /** A cookie pair of a name other than `name`, as a browser sends it. */
  predicate OtherCookie(c: string, name: string) {
    ';' !in c && Text.Trim(c) == c && !Text.StartsWith(c, name)
  }

  /** A cookie name as the server sets it: visible first character, no separator, no `=`. */
  predicate PlainName(name: string) {
    |name| > 0 && !Text.IsWhitespace(name[0]) && ';' !in name && '=' !in name
  }

  /** A token id as the server hands it out: no separator and no white space. */
  predicate PlainId(id: string) {
    ';' !in id && forall i :: 0 <= i < |id| ==> !Text.IsWhitespace(id[i])
  }

  /** The space a browser puts after `;` is trimmed away. */
  lemma {:induction false} TrimLeadingSpace(p: string)
    ensures Text.Trim(" " + p) == Text.Trim(p)
  {
    assert (" " + p)[1..] == p;
  }

  /** A pair `name=id` has nothing to trim. */
  lemma {:induction false} TrimPair(name: string, id: string)
    requires PlainName(name) && PlainId(id)
    ensures Text.Trim(name + "=" + id) == name + "=" + id
  {
    var pair := name + "=" + id;
    assert pair[0] == name[0];
    assert Text.TrimStart(pair) == pair;
    assert !Text.IsWhitespace(pair[|pair| - 1]);
  }
  /** Splitting a jar after its first cookie: that cookie, then the pieces of the rest with a space before the first. */
  lemma {:induction false} SplitJarStep(head: string, rest: string)
    requires ';' !in head
    ensures var parts := Text.Split(head + "; " + rest, ';');
      var tail := Text.Split(rest, ';');
      |parts| == |tail| + 1 && parts[0] == head && parts[1] == " " + tail[0]
      && forall i :: 2 <= i < |parts| ==> parts[i] == tail[i - 1]
  {
    assert head + "; " + rest == head + [';'] + (" " + rest);
    Text.SplitConcat(head, " " + rest, ';');
    Text.SplitNoSeparator(head, ';');
    assert (" " + rest)[1..] == rest;
  }

  /** The pieces of a jar, trimmed, are the cookies it was made of. */
  lemma {:induction false} SplitJar(others: seq<string>, last: string)
    requires forall i :: 0 <= i < |others| ==> ';' !in others[i] && Text.Trim(others[i]) == others[i]
    requires ';' !in last && Text.Trim(last) == last
    ensures |Text.Split(Jar(others, last), ';')| == |others| + 1
    ensures forall i :: 0 <= i < |others| ==> Text.Trim(Text.Split(Jar(others, last), ';')[i]) == others[i]
    ensures Text.Trim(Text.Split(Jar(others, last), ';')[|others|]) == last
    decreases |others|
  {
    if |others| == 0 {
      Text.SplitNoSeparator(last, ';');
    } else {
      var rest := Jar(others[1..], last);
      SplitJar(others[1..], last);
      var tail := Text.Split(rest, ';');
      SplitJarStep(others[0], rest);
      assert Jar(others, last) == others[0] + "; " + rest;
      var parts := Text.Split(Jar(others, last), ';');
      TrimLeadingSpace(tail[0]);
      assert Text.Trim(parts[1]) == Text.Trim(tail[0]);
      forall i | 0 <= i < |others|
        ensures Text.Trim(parts[i]) == others[i]
      {
        if i == 0 {
        } else if i == 1 {
          assert others[1..][0] == others[1];
        } else {
          assert parts[i] == tail[i - 1];
          assert others[1..][i - 1] == others[i];
        }
      }
    }
  }

  /** A jar ends with its last cookie. */
  lemma {:induction false} JarSuffix(others: seq<string>, last: string)
    ensures Text.EndsWith(Jar(others, last), last)
    decreases |others|
  {
    if |others| > 0 {
      JarSuffix(others[1..], last);
    }
  }

  /** The value after the first `=` of a pair whose name has no `=` is the id. */
  lemma {:induction false} SplitPair(name: string, id: string)
    requires '=' !in name
    ensures Text.SplitOnce(name + "=" + id, '=') == Some((name, id))
  {
    assert name + "=" + id == name + ['='] + id;
    Text.SplitOnceFirst(name, id, '=');
  }

  /**
   * Where the authenticator finds the session id of a browser request: a
   * non-empty token-id header wins; without one, the id the signin cookie set.
   */
  lemma {:induction false} TokenIdOfBrowser(req: Http.Request, others: seq<string>, id: string)
    requires forall i :: 0 <= i < |others| ==> OtherCookie(others[i], HEADER_AUTH_TOKEN_ID)
    requires PlainId(id)
    requires Http.Header(req, "cookie") == Jar(others, HEADER_AUTH_TOKEN_ID + "=" + id)
    ensures Http.Header(req, HEADER_AUTH_TOKEN_ID) == "" ==> TokenId(req) == id
    ensures Http.Header(req, HEADER_AUTH_TOKEN_ID) != "" ==> TokenId(req) == Http.Header(req, HEADER_AUTH_TOKEN_ID)
  {
    CookieReadsBack(others, id);
  }

  /** A text holds what it ends with. */
  lemma {:induction false} ContainsSuffix(s: string, sub: string)
    requires Text.EndsWith(s, sub)
    ensures Text.Contains(s, sub)
  {
    var at := |s| - |sub|;
    assert s[at..][..|sub|] == sub;
    assert Text.StartsWith(s[at..], sub);
  }

  /** The first trimmed piece of the jar that starts with `name` is the pair `name=id`. */
  lemma {:induction false} FindPair(others: seq<string>, name: string, id: string)
    requires forall i :: 0 <= i < |others| ==> OtherCookie(others[i], name)
    requires PlainName(name) && PlainId(id)
    ensures var parts := TrimAll(Text.Split(Jar(others, name + "=" + id), ';'));
      Text.FindPrefixed(parts, name) == Some(|others|) && parts[|others|] == name + "=" + id
  {
    var pair := name + "=" + id;
    TrimPair(name, id);
    SplitJar(others, pair);
    var pieces := Text.Split(Jar(others, pair), ';');
    var parts := TrimAll(pieces);
    assert parts[|others|] == Text.Trim(pieces[|others|]) == pair;
    assert pair[..|name|] == name;
    assert Text.StartsWith(parts[|others|], name);
    forall j | 0 <= j < |others|
      ensures !Text.StartsWith(parts[j], name)
    {
      assert parts[j] == Text.Trim(pieces[j]) == others[j];
    }
    var found := Text.FindPrefixed(parts, name);
    if found.None? || found.value != |others| {
      assert false;
    }
  }

  /** The cookie `name` reads back from a browser's `Cookie` header, behind any other cookies. */
  lemma {:induction false} CookieValueReadsBack(others: seq<string>, name: string, id: string)
    requires forall i :: 0 <= i < |others| ==> OtherCookie(others[i], name)
    requires PlainName(name) && PlainId(id)
    ensures CookieValue(Jar(others, name + "=" + id), name) == id
  {
    var pair := name + "=" + id;
    var cookie := Jar(others, pair);
    JarSuffix(others, pair);
    ContainsSuffix(cookie, pair);
    var at := |cookie| - |pair|;
    assert cookie[at..][..|name|] == name;
    assert Text.StartsWith(cookie[at..], name);
    assert Text.Contains(cookie, name);
    FindPair(others, name, id);
    SplitPair(name, id);
  }

  /** A jar none of whose cookies starts with `name` gives no value for it. */
  lemma {:induction false} NoCookieReadsEmpty(others: seq<string>, last: string, name: string)
    requires forall i :: 0 <= i < |others| ==> OtherCookie(others[i], name)
    requires OtherCookie(last, name)
    ensures CookieValue(Jar(others, last), name) == ""
  {
    var jar := Jar(others, last);
    var pieces := Text.Split(jar, ';');
    SplitJar(others, last);
    var parts := TrimAll(pieces);
    assert forall i :: 0 <= i < |others| ==> parts[i] == others[i];
    assert forall i :: 0 <= i < |others| ==> !Text.StartsWith(others[i], name);
    NoneStartsWith(parts, others, last, name);
    UnprefixedReadsEmpty(jar, name, parts);
  }

  /** A browser holding no cookie `name` sends a header that gives no value for it. */
  lemma {:induction false} NoSuchCookieReadsEmpty(cookies: seq<string>, name: string)
    requires forall i :: 0 <= i < |cookies| ==> OtherCookie(cookies[i], name)
    requires name != ""
    ensures CookieValue(CookieHeader(cookies), name) == ""
  {
    if cookies == [] {
      assert !Text.Contains("", name);
    } else {
      var n := |cookies| - 1;
      var others := cookies[..n];
      forall i | 0 <= i < n
        ensures OtherCookie(others[i], name)
      {
        assert others[i] == cookies[i];
      }
      NoCookieReadsEmpty(others, cookies[n], name);
      assert CookieHeader(cookies) == Jar(others, cookies[n]);
    }
  }

  /** Pieces that are the given cookies, none starting with `name`. */
  lemma {:induction false} NoneStartsWith(parts: seq<string>, others: seq<string>, last: string, name: string)
    requires |parts| == |others| + 1 && parts[|others|] == last
    requires forall i :: 0 <= i < |others| ==> parts[i] == others[i]
    requires forall i :: 0 <= i < |others| ==> !Text.StartsWith(others[i], name)
    requires !Text.StartsWith(last, name)
    ensures forall k :: 0 <= k < |parts| ==> !Text.StartsWith(parts[k], name)
  {
  }

  /** No trimmed piece starts with `name`: the value is empty. */
  lemma {:induction false} UnprefixedReadsEmpty(cookie: string, name: string, parts: seq<string>)
    requires parts == TrimAll(Text.Split(cookie, ';'))
    requires forall k :: 0 <= k < |parts| ==> !Text.StartsWith(parts[k], name)
    ensures CookieValue(cookie, name) == ""
  {
  }

  /**
   * The token id set by the signin cookie reads back from the `Cookie`
   * header a browser sends, behind any other cookies.
   */
  lemma {:induction false} CookieReadsBack(others: seq<string>, id: string)
    requires forall i :: 0 <= i < |others| ==> OtherCookie(others[i], HEADER_AUTH_TOKEN_ID)
    requires PlainId(id)
    ensures TokenIdFromCookie(Jar(others, HEADER_AUTH_TOKEN_ID + "=" + id)) == id
  {
    assert PlainName(HEADER_AUTH_TOKEN_ID);
    CookieValueReadsBack(others, HEADER_AUTH_TOKEN_ID, id);
  }
}
