/**
 * The register, signin and signout handlers, the Telegram login check and
 * the `Set-Cookie` values that carry the session id to the browser.
 *
 * Register and signin are reached through the Telegram Login Widget: the
 * client forwards the widget's data-check string and its hash, and the
 * server recomputes the hash as `hex(HMAC-SHA256(SHA256(bot_token),
 * data_check))` (Telegram's "Checking authorization" rule).
 */
module AuthHandlers {
  import opened Wrappers
  import opened ApiResult
  import Text
  import Crypto
  import Uuid
  import Config
  import Cloudflare
  import KvAuth
  import Accounts
  import AuthUser

  datatype RegisterRequest = RegisterRequest(omiUid: string, tgUid: int, dataCheck: string, dataCheckHash: string)
  datatype RegisterResponse = RegisterResponse(uid: Accounts.UserId, authKey: string)
  datatype SigninRequest = SigninRequest(tgUid: int, dataCheck: string, dataCheckHash: string)
  datatype SigninResponse = SigninResponse(uid: Accounts.UserId, authKey: string)

  /** The bot token whose hash keys the login check is configured (the source unwraps it). */
  predicate LoginSecretConfigured(env: Cloudflare.Env) {
    Config.EnvKeyTelegramAuthToken(env.profile) in env.secrets
  }

  /** `hex(HMAC(SHA256(bot_token), data_check))` */
  function ExpectedLoginHash(sha: Crypto.Hash, botToken: string, dataCheck: string): (h: string)
    ensures forall i :: 0 <= i < |h| ==> Crypto.IsLowerHexDigit(h[i])
  {
    Crypto.HexEncode(Crypto.Hmac(sha, sha(Crypto.Utf8(botToken)), Crypto.Utf8(dataCheck)))
  }

  /** `validate_telegram_login`: the supplied hash must be exactly the recomputed one. */
  function ValidateTelegramLogin(sha: Crypto.Hash, env: Cloudflare.Env, dataCheck: string, dataCheckHash: string)
    : (r: ApiResult<()>)
    requires LoginSecretConfigured(env)
    ensures r.Ok? <==>
      dataCheckHash == ExpectedLoginHash(sha, env.secrets[Config.EnvKeyTelegramAuthToken(env.profile)], dataCheck)
    ensures r.Err? ==> r.error == Auth(NotAuthorized)
  {
    var botToken := env.secrets[Config.EnvKeyTelegramAuthToken(env.profile)];
    var computed := ExpectedLoginHash(sha, botToken, dataCheck);
    if computed != dataCheckHash then Err(Auth(NotAuthorized)) else Ok(())
  }

  predicate LoginOk(sha: Crypto.Hash, env: Cloudflare.Env, dataCheck: string, dataCheckHash: string)
    requires LoginSecretConfigured(env)
  {
    ValidateTelegramLogin(sha, env, dataCheck, dataCheckHash).Ok?
  }

  /** The comparison is case-sensitive: a hash with any upper-case hex digit is refused. */
  lemma {:induction false} UpperCaseHashRefused(sha: Crypto.Hash, env: Cloudflare.Env, dataCheck: string,
                                                dataCheckHash: string, i: nat)
    requires LoginSecretConfigured(env)
    requires i < |dataCheckHash| && 'A' <= dataCheckHash[i] <= 'F'
    ensures ValidateTelegramLogin(sha, env, dataCheck, dataCheckHash) == Err(Auth(NotAuthorized))
  {
    var h := ExpectedLoginHash(sha, env.secrets[Config.EnvKeyTelegramAuthToken(env.profile)], dataCheck);
    if dataCheckHash == h {
      assert false;
    }
  }

  // ---- The Telegram id check of register ----

  /** Register's id check as written: the data-check string merely contains `id=<tg_uid>`. */
  function RegisterIdCheckAsWritten(dataCheck: string, tgUid: int): bool {
    Text.Contains(dataCheck, "id=" + Text.IntToString(tgUid))
  }

  /** The Telegram id a data-check string vouches for: its `id=` line, read as an `i64`. */
  function DataCheckId(dataCheck: string): (r: Option<int>)
    ensures r.Some? ==> Text.I64_MIN <= r.value <= Text.I64_MAX
  {
    var lines := Text.Split(dataCheck, '\n');
    match Text.FindPrefixed(lines, "id=")
    case None => None
    case Some(k) => Text.ParseI64(lines[k][3..])
  }

  /** The id check as intended: the data-check string's own `id` is the claimed Telegram id. */
  function RegisterIdCheck(dataCheck: string, tgUid: int): (ok: bool)
    ensures ok ==> DataCheckId(dataCheck) == Some(tgUid)
  {
    DataCheckId(dataCheck) == Some(tgUid)
  }

  /**
   * A data-check string is its `key=value` lines joined by line feeds; the
   * id it vouches for is the value of the first line that starts with `id=`.
   */
  lemma {:induction false} DataCheckIdOfLine(lines: seq<string>, k: nat, value: string)
    requires k < |lines| && forall i :: 0 <= i < |lines| ==> '\n' !in lines[i]
    requires forall j :: 0 <= j < k ==> !Text.StartsWith(lines[j], "id=")
    requires lines[k] == "id=" + value
    ensures DataCheckId(Text.Join(lines, "\n")) == Text.ParseI64(value)
  {
    Text.SplitJoin(lines, '\n');
    assert "\n" == ['\n'];
    var found := Text.FindPrefixed(lines, "id=");
    assert Text.StartsWith(lines[k], "id=");
    if found.None? || found.value != k {
      assert false;
    }
    assert lines[k][3..] == value;
  }

  /** When the `id=` line carries `i64` `n`, the check accepts exactly `n`. */
  lemma DataCheckIdOfLines(lines: seq<string>, k: nat, n: int)
    requires k < |lines| && forall i :: 0 <= i < |lines| ==> '\n' !in lines[i]
    requires forall j :: 0 <= j < k ==> !Text.StartsWith(lines[j], "id=")
    requires lines[k] == "id=" + Text.IntToString(n) && Text.I64_MIN <= n <= Text.I64_MAX
    ensures DataCheckId(Text.Join(lines, "\n")) == Some(n)
    ensures forall m :: RegisterIdCheck(Text.Join(lines, "\n"), m) <==> m == n
  {
    DataCheckIdOfLine(lines, k, Text.IntToString(n));
    Text.ParseIntToString(n);
  }

  /** The data check of Telegram user 123 contains `id=12`: as written, it vouches for user 12 too. */
  lemma AsWrittenAcceptsPrefixOfId(dataCheck: string)
    requires dataCheck == "auth_date=1\nid=123"
    ensures RegisterIdCheckAsWritten(dataCheck, 12)
    ensures !RegisterIdCheck(dataCheck, 12) && RegisterIdCheck(dataCheck, 123)
  {
    ContainsPrefixOfId(dataCheck);
    IdLineOfSample(dataCheck);
  }

  lemma ContainsPrefixOfId(dataCheck: string)
    requires dataCheck == "auth_date=1\nid=123"
    ensures RegisterIdCheckAsWritten(dataCheck, 12)
  {
    assert Text.IntToString(12) == "12";
    assert dataCheck[12..][..5] == "id=12";
    assert Text.StartsWith(dataCheck[12..], "id=12");
  }

  lemma IdLineOfSample(dataCheck: string)
    requires dataCheck == "auth_date=1\nid=123"
    ensures forall m :: RegisterIdCheck(dataCheck, m) <==> m == 123
  {
    assert Text.IntToString(123) == "123";
    var lines := ["auth_date=1", "id=123"];
    assert lines[1..] == ["id=123"];
    assert Text.Join(lines[1..], "\n") == "id=123";
    assert Text.Join(lines, "\n") == dataCheck;
    assert lines[0][..3] == "aut";
    assert !Text.StartsWith(lines[0], "id=");
    DataCheckIdOfLines(lines, 1, 123);
  }

  // ---- Register ----

  /**
   * The checks of the register handler, in order: the Telegram id (the
   * substring test of the source), the login hash, an unused voice-assistant
   * id, an unused Telegram id. `None` means all pass.
   */
  function RegisterGate(sha: Crypto.Hash, env: Cloudflare.Env, req: RegisterRequest,
                        omi: map<string, Accounts.OmiAccount>,
                        telegram: map<int, Accounts.TelegramAccount>): (e: Option<ApiError>)
    requires LoginSecretConfigured(env)
    ensures e.None? <==> (
      RegisterIdCheckAsWritten(req.dataCheck, req.tgUid) && LoginOk(sha, env, req.dataCheck, req.dataCheckHash)
      && req.omiUid !in omi && req.tgUid !in telegram)
    ensures !RegisterIdCheckAsWritten(req.dataCheck, req.tgUid) ==> e == Some(Auth(TelegramIdMismatch))
    ensures (RegisterIdCheckAsWritten(req.dataCheck, req.tgUid)
             && !LoginOk(sha, env, req.dataCheck, req.dataCheckHash)) ==>
      e == Some(Auth(NotAuthorized))
    ensures (RegisterIdCheckAsWritten(req.dataCheck, req.tgUid) && LoginOk(sha, env, req.dataCheck, req.dataCheckHash)
             && req.omiUid in omi) ==>
      e == Some(Auth(OmiIdAlreadyExists))
    ensures (RegisterIdCheckAsWritten(req.dataCheck, req.tgUid) && LoginOk(sha, env, req.dataCheck, req.dataCheckHash)
             && req.omiUid !in omi && req.tgUid in telegram) ==>
      e == Some(Auth(TelegramIdAlreadyExists))
  {
    if !RegisterIdCheckAsWritten(req.dataCheck, req.tgUid) then Some(Auth(TelegramIdMismatch))
    else match ValidateTelegramLogin(sha, env, req.dataCheck, req.dataCheckHash)
      case Err(err) => Some(err)
      case Ok(_) =>
        if req.omiUid in omi then Some(Auth(OmiIdAlreadyExists))
        else if req.tgUid in telegram then Some(Auth(TelegramIdAlreadyExists))
        else None
  }

  /**
   * The register handler lets a genuine login of Telegram user 123 register
   * Telegram id 12, which the intended id check refuses.
   */
  lemma RegisterAcceptsPrefixOfId(sha: Crypto.Hash, env: Cloudflare.Env, req: RegisterRequest,
                                  omi: map<string, Accounts.OmiAccount>,
                                  telegram: map<int, Accounts.TelegramAccount>)
    requires LoginSecretConfigured(env)
    requires req.dataCheck == "auth_date=1\nid=123" && req.tgUid == 12
    requires req.dataCheckHash
      == ExpectedLoginHash(sha, env.secrets[Config.EnvKeyTelegramAuthToken(env.profile)], req.dataCheck)
    requires req.omiUid !in omi && 12 !in telegram
    ensures RegisterGate(sha, env, req, omi, telegram).None?
    ensures !RegisterIdCheck(req.dataCheck, req.tgUid)
  {
    AsWrittenAcceptsPrefixOfId(req.dataCheck);
  }

  /** The session record of a user who has just signed in or registered. */
  function SigninToken(account: Accounts.UserAccount, keyBytes: Crypto.Bytes, now: nat): KvAuth.TokenData {
    KvAuth.NewToken(KvAuth.Signin, account.id, account.userToken, keyBytes, now, Config.AUTH_TOKEN_SIGNIN_EXPIRES)
  }

  /**
   * `AuthRegister::handle` and `register`: after the checks, a new user with a
   * fresh revocation token, its voice-assistant and Telegram accounts, and a
   * signin session carrying that same revocation token. The user's key is the
   * session's key.
   */
  method Register(sha: Crypto.Hash, env: Cloudflare.Env, db: Accounts.AccountDb,
                  kv: Cloudflare.Kv<KvAuth.TokenData>, req: RegisterRequest,
                  newUid: Accounts.UserId, newUserToken: Uuid.Uuid, newSessionId: Uuid.Uuid,
                  keyBytes: Crypto.Bytes, now: nat)
    returns (r: ApiResult<(RegisterResponse, KvAuth.CreateResponse)>)
    requires LoginSecretConfigured(env) && db.Valid() && newUid !in db.users
    requires Uuid.WellFormed(newSessionId) && |keyBytes| == Config.AUTH_TOKEN_KEY_LENGTH
    modifies db, kv
    ensures db.Valid()
    ensures var gate := RegisterGate(sha, env, req, old(db.omi), old(db.telegram));
      gate.Some? ==> r == Err(gate.value) && unchanged(db) && kv.entries == old(kv.entries)
    ensures var gate := RegisterGate(sha, env, req, old(db.omi), old(db.telegram));
      var account := Accounts.UserAccount(newUid, Uuid.Simple(newUserToken));
      gate.None? ==> (
        r == Ok((RegisterResponse(newUid, KvAuth.KeyText(keyBytes)),
                 KvAuth.CreateResponse(Uuid.Simple(newSessionId), KvAuth.KeyText(keyBytes))))
        && db.users == old(db.users)[newUid := account]
        && db.omi == old(db.omi)[req.omiUid := Accounts.OmiAccount(req.omiUid, newUid)]
        && db.telegram == old(db.telegram)[req.tgUid :=
             Accounts.TelegramAccount(req.tgUid, newUid, Accounts.PlaceholderName(req.tgUid), None)]
        && kv.entries == old(kv.entries)[Uuid.Simple(newSessionId) := SigninToken(account, keyBytes, now)])
  {
    if !RegisterIdCheckAsWritten(req.dataCheck, req.tgUid) {
      return Err(Auth(TelegramIdMismatch));
    }
    var login := ValidateTelegramLogin(sha, env, req.dataCheck, req.dataCheckHash);
    if login.Err? {
      return Err(login.error);
    }
    var omiExists := db.OmiExists(req.omiUid);
    if omiExists.value {
      return Err(Auth(OmiIdAlreadyExists));
    }
    var tgExists := db.TelegramExists(req.tgUid);
    if tgExists.value {
      return Err(Auth(TelegramIdAlreadyExists));
    }

    var userToken := Uuid.Simple(newUserToken);
    var inserted := db.InsertUser(newUid, userToken);
    inserted := db.InsertOmi(req.omiUid, newUid);
    inserted := db.InsertTelegram(req.tgUid, newUid);
    var authToken := KvAuth.Create(kv, KvAuth.Signin, newUid, userToken, Config.AUTH_TOKEN_SIGNIN_EXPIRES,
                                   newSessionId, keyBytes, now);
    r := Ok((RegisterResponse(newUid, authToken.value.key), authToken.value));
  }

  // ---- Signin ----

  /** Signin's gate as written: the login hash alone; the claimed Telegram id is never compared with it. */
  function SigninGateAsWritten(sha: Crypto.Hash, env: Cloudflare.Env, req: SigninRequest): (r: ApiResult<()>)
    requires LoginSecretConfigured(env)
    ensures r.Ok? <==>
      req.dataCheckHash == ExpectedLoginHash(sha, env.secrets[Config.EnvKeyTelegramAuthToken(env.profile)], req.dataCheck)
    ensures r.Err? ==> r == Err(Auth(NotAuthorized))
  {
    ValidateTelegramLogin(sha, env, req.dataCheck, req.dataCheckHash)
  }

  /** Signin's gate as intended: the data-check string must be about the Telegram id signing in. */
  function SigninGate(sha: Crypto.Hash, env: Cloudflare.Env, req: SigninRequest): (r: ApiResult<()>)
    requires LoginSecretConfigured(env)
    ensures r.Ok? <==> RegisterIdCheck(req.dataCheck, req.tgUid) && LoginOk(sha, env, req.dataCheck, req.dataCheckHash)
    ensures r.Err? ==> r.error in {Auth(TelegramIdMismatch), Auth(NotAuthorized)}
  {
    if !RegisterIdCheck(req.dataCheck, req.tgUid) then Err(Auth(TelegramIdMismatch))
    else ValidateTelegramLogin(sha, env, req.dataCheck, req.dataCheckHash)
  }

  /**
   * As written, anyone holding a genuine login of their own (Telegram id 1)
   * can sign in as any other Telegram user (id 2); the intended gate refuses.
   */
  lemma AsWrittenSigninIgnoresTgUid(sha: Crypto.Hash, env: Cloudflare.Env, req: SigninRequest)
    requires LoginSecretConfigured(env)
    requires req.dataCheck == "id=1" && req.tgUid == 2
    requires req.dataCheckHash == ExpectedLoginHash(sha, env.secrets[Config.EnvKeyTelegramAuthToken(env.profile)], "id=1")
    ensures SigninGateAsWritten(sha, env, req).Ok?
    ensures SigninGate(sha, env, req) == Err(Auth(TelegramIdMismatch))
  {
    assert Text.IntToString(1) == "1";
    DataCheckIdOfLines(["id=1"], 0, 1);
    assert Text.Join(["id=1"], "\n") == "id=1";
  }

  /**
   * The account signin acts for: the one linked to the claimed Telegram id,
   * once the login hash passes (the source's gate); otherwise the first
   * failure (login hash, Telegram account, user).
   */
  function SigninAccount(sha: Crypto.Hash, env: Cloudflare.Env, req: SigninRequest,
                         telegram: map<int, Accounts.TelegramAccount>, users: AuthUser.Users)
    : (r: ApiResult<Accounts.UserAccount>)
    requires LoginSecretConfigured(env)
    ensures r.Ok? <==> LoginOk(sha, env, req.dataCheck, req.dataCheckHash) && req.tgUid in telegram
                       && telegram[req.tgUid].userId in users
    ensures r.Ok? ==> r.value == users[telegram[req.tgUid].userId]
    ensures !LoginOk(sha, env, req.dataCheck, req.dataCheckHash) ==> r == Err(Auth(NotAuthorized))
    ensures LoginOk(sha, env, req.dataCheck, req.dataCheckHash) && req.tgUid !in telegram ==>
      r == Err(Accounts.NeedToRegister("tg " + Text.IntToString(req.tgUid)))
    ensures LoginOk(sha, env, req.dataCheck, req.dataCheckHash) && req.tgUid in telegram
            && telegram[req.tgUid].userId !in users ==>
      r == Err(Accounts.NeedToRegister("id " + Accounts.UserIdText(telegram[req.tgUid].userId)))
  {
    match SigninGateAsWritten(sha, env, req)
    case Err(e) => Err(e)
    case Ok(_) =>
      if req.tgUid !in telegram then Err(Accounts.NeedToRegister("tg " + Text.IntToString(req.tgUid)))
      else
        var uid := telegram[req.tgUid].userId;
        if uid !in users then Err(Accounts.NeedToRegister("id " + Accounts.UserIdText(uid)))
        else Ok(users[uid])
  }

  /** The signin handler acts for Telegram user 2 on the genuine login of user 1, which the intended gate refuses. */
  lemma SigninActsForClaimedId(sha: Crypto.Hash, env: Cloudflare.Env, req: SigninRequest,
                               telegram: map<int, Accounts.TelegramAccount>, users: AuthUser.Users)
    requires LoginSecretConfigured(env)
    requires req.dataCheck == "id=1" && req.tgUid == 2
    requires req.dataCheckHash == ExpectedLoginHash(sha, env.secrets[Config.EnvKeyTelegramAuthToken(env.profile)], "id=1")
    requires 2 in telegram && telegram[2].userId in users
    ensures SigninAccount(sha, env, req, telegram, users) == Ok(users[telegram[2].userId])
    ensures SigninGate(sha, env, req).Err?
  {
    AsWrittenSigninIgnoresTgUid(sha, env, req);
  }

  /**
   * `AuthSignin::handle`: a new signin session for the account linked to the
   * claimed Telegram id, carrying that account's current revocation token.
   */
  method Signin(sha: Crypto.Hash, env: Cloudflare.Env, db: Accounts.AccountDb,
                kv: Cloudflare.Kv<KvAuth.TokenData>, req: SigninRequest,
                newSessionId: Uuid.Uuid, keyBytes: Crypto.Bytes, now: nat)
    returns (r: ApiResult<(SigninResponse, KvAuth.CreateResponse)>)
    requires LoginSecretConfigured(env)
    requires Uuid.WellFormed(newSessionId) && |keyBytes| == Config.AUTH_TOKEN_KEY_LENGTH
    modifies kv
    ensures var plan := SigninAccount(sha, env, req, db.telegram, db.users);
      plan.Err? ==> r == Err(plan.error) && kv.entries == old(kv.entries)
    ensures var plan := SigninAccount(sha, env, req, db.telegram, db.users);
      plan.Ok? ==> (
        r == Ok((SigninResponse(plan.value.id, KvAuth.KeyText(keyBytes)),
                 KvAuth.CreateResponse(Uuid.Simple(newSessionId), KvAuth.KeyText(keyBytes))))
        && kv.entries == old(kv.entries)[Uuid.Simple(newSessionId) := SigninToken(plan.value, keyBytes, now)])
  {
    var gate := SigninGateAsWritten(sha, env, req);
    if gate.Err? {
      return Err(gate.error);
    }
    var tgAccount := db.LoadTelegram(req.tgUid);
    if tgAccount.Err? {
      return Err(tgAccount.error);
    }
    var user := db.LoadUser(tgAccount.value.userId);
    if user.Err? {
      return Err(user.error);
    }
    var account := user.value;
    var authToken := KvAuth.Create(kv, KvAuth.Signin, account.id, account.userToken,
                                   Config.AUTH_TOKEN_SIGNIN_EXPIRES, newSessionId, keyBytes, now);
    r := Ok((SigninResponse(account.id, authToken.value.key), authToken.value));
  }

  /**
   * A session made by register or signin authenticates its holder: the id
   * (from the header or the cookie) and the key, presented within two weeks,
   * pass the session checks on every route as the account it was made for.
   */
  lemma {:induction false} NewSessionAuthenticates(req: AuthUser.Http.Request, kind: AuthUser.BackendRoute.RouteAuthKind,
                                                   users: AuthUser.Users, store: KvAuth.Store,
                                                   account: Accounts.UserAccount, sessionId: Uuid.Uuid,
                                                   keyBytes: Crypto.Bytes, created: nat, now: nat)
    requires account.id in users && users[account.id] == account
    requires Uuid.WellFormed(sessionId) && |keyBytes| == Config.AUTH_TOKEN_KEY_LENGTH
    requires AuthUser.TokenId(req) == Uuid.Simple(sessionId)
    requires AuthUser.Http.Header(req, AuthUser.HEADER_AUTH_TOKEN_KEY) == KvAuth.KeyText(keyBytes)
    requires created <= now <= created + Config.AUTH_TOKEN_SIGNIN_EXPIRES
    ensures var s := store[Uuid.Simple(sessionId) := SigninToken(account, keyBytes, created)];
      AuthUser.SessionCheck(req, kind, users, s, now).result == Ok(AuthUser.AuthUser(account, Uuid.Simple(sessionId)))
  {
    KvAuth.KeyTextShape(keyBytes);
  }

  // ---- Signout ----

  /**
   * `AuthSignout::handle`: the caller's session is deleted; signing out
   * everywhere also gives the account a fresh revocation token, which every
   * other session of the user then fails to match.
   */
  method Signout(db: Accounts.AccountDb, kv: Cloudflare.Kv<KvAuth.TokenData>, user: AuthUser.AuthUser,
                 everywhere: bool, newUserToken: Uuid.Uuid)
    returns (r: ApiResult<()>)
    requires db.Valid()
    modifies db, kv
    ensures r == Ok(()) && db.Valid()
    ensures kv.entries == old(kv.entries) - {user.tokenId}
    ensures everywhere && user.account.id in old(db.users) ==>
      db.users == old(db.users)[user.account.id := Accounts.UserAccount(user.account.id, Uuid.Simple(newUserToken))]
    ensures !everywhere || user.account.id !in old(db.users) ==> db.users == old(db.users)
    ensures db.omi == old(db.omi) && db.telegram == old(db.telegram)
  {
    r := KvAuth.DeleteToken(kv, KvAuth.Signin, user.tokenId);
    if everywhere {
      r := db.UpdateUserToken(user.account.id, Uuid.Simple(newUserToken));
    }
  }

  /** After signout the same token id is refused, whatever key comes with it. */
  lemma {:induction false} SignoutRevokesSession(req: AuthUser.Http.Request, kind: AuthUser.BackendRoute.RouteAuthKind,
                                                 users: AuthUser.Users, store: KvAuth.Store, now: nat)
    ensures AuthUser.SessionCheck(req, kind, users, store - {AuthUser.TokenId(req)}, now).result.Err?
  {
    if AuthUser.TokenId(req) != "" && AuthUser.Http.Header(req, AuthUser.HEADER_AUTH_TOKEN_KEY) != "" {
      KvAuth.DeleteRevokes(store, KvAuth.Signin, AuthUser.TokenId(req),
                           AuthUser.Http.Header(req, AuthUser.HEADER_AUTH_TOKEN_KEY), AuthUser.SLIDE, now);
    }
  }

  /**
   * Signing out everywhere ends every other session of the user: once the
   * account holds a revocation token other than the one a session was made
   * with, that session fails on every route except signout itself.
   */
  lemma {:induction false} SignoutEverywhereRevokesOthers(req: AuthUser.Http.Request,
                                                          kind: AuthUser.BackendRoute.RouteAuthKind,
                                                          users: AuthUser.Users, store: KvAuth.Store,
                                                          uid: Accounts.UserId, newUserToken: Uuid.Uuid, now: nat)
    requires AuthUser.TokenId(req) in store && store[AuthUser.TokenId(req)].uid == uid
    requires Uuid.Simple(newUserToken) != store[AuthUser.TokenId(req)].userToken
    requires kind != AuthUser.BackendRoute.PartialAuthTokenOnly
    ensures var rotated := users[uid := Accounts.UserAccount(uid, Uuid.Simple(newUserToken))];
      AuthUser.SessionCheck(req, kind, rotated, store, now).result.Err?
  {
    var rotated := users[uid := Accounts.UserAccount(uid, Uuid.Simple(newUserToken))];
    AuthUser.RotatedTokenRevokes(req, kind, rotated, store, now);
  }

  // ---- Cookies ----

  /** `set_signin_cookie`: the session id as an HTTP-only, cross-site, practically permanent cookie. */
  function SigninCookie(id: string): string {
    AuthUser.HEADER_AUTH_TOKEN_ID + "=" + id + "; " + SIGNIN_COOKIE_ATTRIBUTES
  }

  const SIGNIN_COOKIE_ATTRIBUTES := "Path=/; HttpOnly; Secure; Partitioned; SameSite=None; Max-Age=2147483647"


  /** `delete_signin_cookie`: an empty value that expired in 1970. */
  function DeleteSigninCookie(): string {
    AuthUser.HEADER_AUTH_TOKEN_ID + "=" + "; " + DELETE_COOKIE_ATTRIBUTES
  }

  const DELETE_COOKIE_ATTRIBUTES := "path=/; " + EXPIRED_IN_1970

  /** The delete cookie's expiry: the start of the Unix epoch, long past. */
  const EXPIRED_IN_1970 := "expires=Thu, 01 Jan 1970 00:00:00 GMT"


  /** The name-value pair a browser keeps from a `Set-Cookie` value: everything before the first `;`. */
  function CookiePair(setCookie: string): (pair: string)
    ensures ';' !in pair && Text.StartsWith(setCookie, pair)
  {
    match Text.SplitOnce(setCookie, ';')
    case Some((pair, _)) => assert setCookie[..|pair|] == pair; pair
    case None => setCookie
  }

  /**
   * Whatever attributes follow the first `;`, the browser keeps `name=id`
   * and sends back exactly that id under that name.
   */
  lemma {:induction false} SetCookieReadsBack(others: seq<string>, name: string, id: string, attributes: string)
    requires forall i :: 0 <= i < |others| ==> AuthUser.OtherCookie(others[i], name)
    requires AuthUser.PlainName(name) && AuthUser.PlainId(id)
    ensures CookiePair(name + "=" + id + "; " + attributes) == name + "=" + id
    ensures AuthUser.CookieValue(AuthUser.Jar(others, CookiePair(name + "=" + id + "; " + attributes)), name) == id
  {
    var pair := name + "=" + id;
    assert pair + "; " + attributes == pair + [';'] + (" " + attributes);
    Text.SplitOnceFirst(pair, " " + attributes, ';');
    AuthUser.CookieValueReadsBack(others, name, id);
  }

  /** The signin cookie keeps the pair `X-OMI-TOKEN-ID=<id>`, and a browser sends back exactly that id. */
  lemma {:induction false} SigninCookieReadsBack(others: seq<string>, id: string)
    requires forall i :: 0 <= i < |others| ==> AuthUser.OtherCookie(others[i], AuthUser.HEADER_AUTH_TOKEN_ID)
    requires AuthUser.PlainId(id)
    ensures CookiePair(SigninCookie(id)) == AuthUser.HEADER_AUTH_TOKEN_ID + "=" + id
    ensures AuthUser.TokenIdFromCookie(AuthUser.Jar(others, CookiePair(SigninCookie(id)))) == id
  {
    assert AuthUser.PlainName(AuthUser.HEADER_AUTH_TOKEN_ID);
    SetCookieReadsBack(others, AuthUser.HEADER_AUTH_TOKEN_ID, id, SIGNIN_COOKIE_ATTRIBUTES);
  }

  /**
   * `delete_signin_cookie` empties the token-id value and dates its expiry
   * to 1970, so a browser removes that cookie (section 5.3 of RFC 6265) and
   * sends only its other cookies, if any: the token id read back is empty,
   * which the authenticator refuses.
   */
  lemma {:induction false} DeletedCookieLeavesNoTokenId(others: seq<string>)
    requires forall i :: 0 <= i < |others| ==> AuthUser.OtherCookie(others[i], AuthUser.HEADER_AUTH_TOKEN_ID)
    ensures CookiePair(DeleteSigninCookie()) == AuthUser.HEADER_AUTH_TOKEN_ID + "="
    ensures Text.EndsWith(DeleteSigninCookie(), EXPIRED_IN_1970)
    ensures AuthUser.TokenIdFromCookie(AuthUser.CookieHeader(others)) == ""
  {
    DeleteCookieShape();
    AuthUser.NoSuchCookieReadsEmpty(others, AuthUser.HEADER_AUTH_TOKEN_ID);
  }

  /** The delete cookie's pair has an empty value, and the cookie ends with its 1970 expiry. */
  lemma {:induction false} DeleteCookieShape()
    ensures CookiePair(DeleteSigninCookie()) == AuthUser.HEADER_AUTH_TOKEN_ID + "="
    ensures Text.EndsWith(DeleteSigninCookie(), EXPIRED_IN_1970)
  {
    var pair := AuthUser.HEADER_AUTH_TOKEN_ID + "=";
    var rest := " " + DELETE_COOKIE_ATTRIBUTES;
    var c := DeleteSigninCookie();
    assert c == pair + [';'] + rest;
    assert ';' !in pair by {
      assert AuthUser.PlainName(AuthUser.HEADER_AUTH_TOKEN_ID);
    }
    Text.SplitOnceFirst(pair, rest, ';');
    var front := pair + "; " + "path=/; ";
    assert c == front + EXPIRED_IN_1970;
    assert c[|front|..] == EXPIRED_IN_1970;
  }
}
