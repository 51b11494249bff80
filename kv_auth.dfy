/**
 * Signin tokens kept in a key-value namespace. A token is addressed by a
 * public id (a fresh UUID) and proved by a secret key (random bytes in
 * URL-safe base64); it carries the user and a snapshot of the user's
 * revocation token, and expires at an absolute time in milliseconds.
 *
 * `ValidateTransition` is the reference definition of one validation: its
 * result and the namespace afterwards. `Validate` performs it on a `Kv`, and
 * the lemmas below it state the session guarantees that follow.
 */
module KvAuth {
  import opened Wrappers
  import opened ApiResult
  import Config
  import Crypto
  import Uuid
  import Cloudflare

  datatype AuthTokenKind = Signin

  /** What a successful validation does to the token. */
  datatype AfterValidation = Delete | ExtendExpiresMs(ms: nat)

  /** The stored record (`AuthSigninTokenData`). */
  datatype TokenData = TokenData(
    uid: Uuid.Uuid,
    kind: AuthTokenKind,
    userToken: string,
    key: string,
    expiresAt: nat)

  datatype CreateResponse = CreateResponse(id: string, key: string)
  datatype ValidateResponse = ValidateResponse(uid: Uuid.Uuid, userToken: string)

  type Store = map<string, TokenData>

  /** The key the client must present: the random bytes in URL-safe base64 without padding. */
  function KeyText(keyBytes: Crypto.Bytes): string {
    Crypto.Base64UrlNoPad(keyBytes)
  }

  /** A session key is 22 characters of the URL-safe alphabet. */
  lemma KeyTextShape(keyBytes: Crypto.Bytes)
    requires |keyBytes| == Config.AUTH_TOKEN_KEY_LENGTH
    ensures |KeyText(keyBytes)| == 22
    ensures forall i :: 0 <= i < 22 ==> Crypto.IsBase64UrlDigit(KeyText(keyBytes)[i])
  {
  }

  /** The record `create` stores. */
  function NewToken(kind: AuthTokenKind, uid: Uuid.Uuid, userToken: string,
                    keyBytes: Crypto.Bytes, now: nat, expiresMs: nat): (t: TokenData)
    ensures t.uid == uid && t.kind == kind && t.userToken == userToken
    ensures t.key == KeyText(keyBytes) && t.expiresAt == now + expiresMs
  {
    TokenData(uid, kind, userToken, KeyText(keyBytes), now + expiresMs)
  }

  /** A token id, key and kind that the stored record accepts at time `now`. */
  predicate Accepts(store: Store, kind: AuthTokenKind, id: string, key: string, now: nat) {
    id in store && store[id].kind == kind && store[id].key == key && now <= store[id].expiresAt
  }

  datatype Outcome = Outcome(result: ApiResult<ValidateResponse>, store: Store)

  /**
   * One validation: a missing id, a wrong kind and a wrong key fail and leave
   * the namespace alone; an expired record is removed and fails; an accepted
   * record is removed or has its expiry moved to `now + ms`, and yields its
   * user and user token.
   */
  function ValidateTransition(store: Store, kind: AuthTokenKind, id: string, key: string,
                              after: AfterValidation, now: nat): (o: Outcome)
    ensures o.result.Ok? <==> Accepts(store, kind, id, key, now)
    ensures o.result.Ok? ==> o.result.value == ValidateResponse(store[id].uid, store[id].userToken)
    ensures id !in store ==> o.result == Err(Cloudflare.MissingKey(Config.KV_BINDING_AUTH_TOKEN_SIGNIN, id))
    ensures id in store && store[id].kind == kind && store[id].key == key && store[id].expiresAt < now ==>
      o.result == Err(Unknown("token expired"))
    ensures forall other :: other != id ==>
      (other in o.store <==> other in store) && (other in store ==> o.store[other] == store[other])
    ensures id in o.store ==>
      (id in store && o.store[id].uid == store[id].uid && o.store[id].kind == store[id].kind
       && o.store[id].key == store[id].key && o.store[id].userToken == store[id].userToken)
  {
    if id !in store then
      Outcome(Err(Cloudflare.MissingKey(Config.KV_BINDING_AUTH_TOKEN_SIGNIN, id)), store)
    else
      var token := store[id];
      if kind != token.kind then Outcome(Err(Unknown("invalid kind")), store)
      else if key != token.key then Outcome(Err(Unknown("invalid key")), store)
      else if token.expiresAt < now then Outcome(Err(Unknown("token expired")), store - {id})
      else
        var response := Ok(ValidateResponse(token.uid, token.userToken));
        match after
        case Delete => Outcome(response, store - {id})
        case ExtendExpiresMs(ms) => Outcome(response, store[id := token.(expiresAt := now + ms)])
  }

  /** `AuthKv::create`: stores a new record under a fresh id and hands back the id and the key. */
  method Create(kv: Cloudflare.Kv<TokenData>, kind: AuthTokenKind, uid: Uuid.Uuid, userToken: string,
                expiresMs: nat, newId: Uuid.Uuid, keyBytes: Crypto.Bytes, now: nat)
    returns (r: ApiResult<CreateResponse>)
    requires Uuid.WellFormed(newId) && |keyBytes| == Config.AUTH_TOKEN_KEY_LENGTH
    modifies kv
    ensures r == Ok(CreateResponse(Uuid.Simple(newId), KeyText(keyBytes)))
    ensures kv.entries == old(kv.entries)[Uuid.Simple(newId) := NewToken(kind, uid, userToken, keyBytes, now, expiresMs)]
  {
    var id := Uuid.Simple(newId);
    var key := KeyText(keyBytes);
    var data := TokenData(uid, kind, userToken, key, now + expiresMs);
    kv.Put(id, data);
    r := Ok(CreateResponse(id, key));
  }

  /** `AuthKv::delete`: removes the record whatever its kind. */
  method DeleteToken(kv: Cloudflare.Kv<TokenData>, kind: AuthTokenKind, id: string) returns (r: ApiResult<()>)
    modifies kv
    ensures r == Ok(())
    ensures kv.entries == old(kv.entries) - {id}
  {
    kv.Delete(id);
    r := Ok(());
  }

  /** `AuthKv::validate`, against its reference definition. */
  method Validate(kv: Cloudflare.Kv<TokenData>, kind: AuthTokenKind, id: string, key: string,
                  after: AfterValidation, now: nat)
    returns (r: ApiResult<ValidateResponse>)
    requires kv.namespace == Config.KV_BINDING_AUTH_TOKEN_SIGNIN
    modifies kv
    ensures Outcome(r, kv.entries) == ValidateTransition(old(kv.entries), kind, id, key, after, now)
  {
    var got := kv.Get(id);
    if got.Err? {
      return Err(got.error);
    }
    var token := got.value;
    if kind != token.kind {
      return Err(Unknown("invalid kind"));
    }
    if key != token.key {
      return Err(Unknown("invalid key"));
    }
    if token.expiresAt < now {
      kv.Delete(id);
      return Err(Unknown("token expired"));
    }
    match after {
      case Delete =>
        kv.Delete(id);
      case ExtendExpiresMs(ms) =>
        token := token.(expiresAt := now + ms);
        kv.Put(id, token);
    }
    r := Ok(ValidateResponse(token.uid, token.userToken));
  }

  /** A freshly created token validates with its own id and key until it expires, and yields its user. */
  lemma CreateThenValidate(store: Store, kind: AuthTokenKind, uid: Uuid.Uuid, userToken: string,
                           keyBytes: Crypto.Bytes, created: nat, expiresMs: nat, newId: Uuid.Uuid,
                           after: AfterValidation, now: nat)
    requires created <= now <= created + expiresMs
    ensures var s := store[Uuid.Simple(newId) := NewToken(kind, uid, userToken, keyBytes, created, expiresMs)];
      ValidateTransition(s, kind, Uuid.Simple(newId), KeyText(keyBytes), after, now).result
        == Ok(ValidateResponse(uid, userToken))
  {
  }

  /** The same token presented after its expiry fails, and the record is gone. */
  lemma CreateThenValidateLate(store: Store, kind: AuthTokenKind, uid: Uuid.Uuid, userToken: string,
                               keyBytes: Crypto.Bytes, created: nat, expiresMs: nat, newId: Uuid.Uuid,
                               after: AfterValidation, now: nat)
    requires created + expiresMs < now
    ensures var s := store[Uuid.Simple(newId) := NewToken(kind, uid, userToken, keyBytes, created, expiresMs)];
      var o := ValidateTransition(s, kind, Uuid.Simple(newId), KeyText(keyBytes), after, now);
      o.result == Err(Unknown("token expired")) && Uuid.Simple(newId) !in o.store
  {
  }

  /**
   * A signin session made with the configured lifetime is good for fourteen
   * days to the millisecond: it still validates 14 days after its creation,
   * and one millisecond later it is refused and its record removed.
   */
  lemma SigninLastsFourteenDays(store: Store, uid: Uuid.Uuid, userToken: string, keyBytes: Crypto.Bytes,
                                created: nat, newId: Uuid.Uuid, after: AfterValidation)
    ensures var id := Uuid.Simple(newId);
      var s := store[id := NewToken(Signin, uid, userToken, keyBytes, created, Config.AUTH_TOKEN_SIGNIN_EXPIRES)];
      var last := created + 14 * 24 * 60 * 60 * 1000;
      ValidateTransition(s, Signin, id, KeyText(keyBytes), after, last).result == Ok(ValidateResponse(uid, userToken))
      && ValidateTransition(s, Signin, id, KeyText(keyBytes), after, last + 1).result == Err(Unknown("token expired"))
      && id !in ValidateTransition(s, Signin, id, KeyText(keyBytes), after, last + 1).store
  {
    var last := created + 14 * 24 * 60 * 60 * 1000;
    assert Config.AUTH_TOKEN_SIGNIN_EXPIRES == 14 * 24 * 60 * 60 * 1000;
    CreateThenValidate(store, Signin, uid, userToken, keyBytes, created, Config.AUTH_TOKEN_SIGNIN_EXPIRES, newId, after, last);
    CreateThenValidateLate(store, Signin, uid, userToken, keyBytes, created, Config.AUTH_TOKEN_SIGNIN_EXPIRES, newId, after, last + 1);
  }

  /** A validation that consumes the token succeeds at most once: any second attempt finds no record. */
  lemma DeleteIsSingleUse(store: Store, kind: AuthTokenKind, id: string, key: string, now: nat,
                          kind2: AuthTokenKind, key2: string, after2: AfterValidation, later: nat)
    requires ValidateTransition(store, kind, id, key, AfterValidation.Delete, now).result.Ok?
    ensures var s := ValidateTransition(store, kind, id, key, AfterValidation.Delete, now).store;
      ValidateTransition(s, kind2, id, key2, after2, later).result
        == Err(Cloudflare.MissingKey(Config.KV_BINDING_AUTH_TOKEN_SIGNIN, id))
  {
  }

  /** Extending slides the session: the same id and key stay valid for `ms` more milliseconds. */
  lemma ExtendKeepsSessionAlive(store: Store, kind: AuthTokenKind, id: string, key: string,
                                now: nat, ms: nat, after2: AfterValidation, later: nat)
    requires ValidateTransition(store, kind, id, key, ExtendExpiresMs(ms), now).result.Ok?
    requires now <= later <= now + ms
    ensures var o := ValidateTransition(store, kind, id, key, ExtendExpiresMs(ms), now);
      ValidateTransition(o.store, kind, id, key, after2, later).result == o.result
  {
  }

  /** Extending changes nothing in the record but its expiry. */
  lemma ExtendOnlyMovesExpiry(store: Store, kind: AuthTokenKind, id: string, key: string, now: nat, ms: nat)
    requires Accepts(store, kind, id, key, now)
    ensures ValidateTransition(store, kind, id, key, ExtendExpiresMs(ms), now).store
      == store[id := store[id].(expiresAt := now + ms)]
  {
  }

  /**
   * Someone who knows an id but not its key learns nothing and changes
   * nothing: the attempt fails even on an expired record, which stays in place.
   */
  lemma WrongKeyChangesNothing(store: Store, kind: AuthTokenKind, id: string, key: string,
                               after: AfterValidation, now: nat)
    requires id in store && key != store[id].key
    ensures ValidateTransition(store, kind, id, key, after, now) == Outcome(Err(Unknown("invalid key")), store)
  {
  }

  /** A record is still good at the very millisecond it expires. */
  lemma ExpiryIsInclusive(store: Store, id: string, after: AfterValidation)
    requires id in store
    ensures ValidateTransition(store, store[id].kind, id, store[id].key, after, store[id].expiresAt).result.Ok?
  {
  }

  /** After `delete` (signout) the token no longer validates. */
  lemma DeleteRevokes(store: Store, kind: AuthTokenKind, id: string, key: string, after: AfterValidation, now: nat)
    ensures ValidateTransition(store - {id}, kind, id, key, after, now).result
      == Err(Cloudflare.MissingKey(Config.KV_BINDING_AUTH_TOKEN_SIGNIN, id))
  {
  }
}
