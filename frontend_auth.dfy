/**
 * The frontend's auth state: the phase the pages gate on, the session key
 * and user id in memory, and the browser's local storage, which keeps the
 * key across reloads. The phase is a signal written with `set_neq`: a write
 * of the value it already holds notifies nobody, so `changes` records only
 * real changes.
 */
module FrontendAuth {
  import opened Wrappers
  import opened ApiResult
  import Uuid

  type UserId = Uuid.Uuid

  datatype AuthPhase = Init | Authenticated | Unauthenticated

  /** The local-storage entry holding the session key. */
  const STORAGE_NAME: string := "omi_assist_auth_signin_key"

  datatype AuthState = AuthState(
    phase: AuthPhase,
    tokenKey: Option<string>,
    uid: Option<UserId>,
    storage: map<string, string>,
    changes: seq<AuthPhase>)

  /** `Mutable::set_neq`: the new phase, announced only if it differs. */
  function WithPhase(s: AuthState, phase: AuthPhase): (r: AuthState)
    ensures r.phase == phase
    ensures r.tokenKey == s.tokenKey && r.uid == s.uid && r.storage == s.storage
    ensures s.phase == phase ==> r == s
    ensures s.phase != phase ==> r.changes == s.changes + [phase]
  {
    if s.phase == phase then s else s.(phase := phase, changes := s.changes + [phase])
  }

  /** The state of `clear`. */
  function Cleared(s: AuthState): (r: AuthState)
    ensures r.phase == Unauthenticated && r.tokenKey.None? && r.uid.None?
    ensures STORAGE_NAME !in r.storage
    ensures forall k :: k != STORAGE_NAME ==> (k in r.storage <==> k in s.storage)
    ensures forall k :: k in r.storage ==> r.storage[k] == s.storage[k]
  {
    WithPhase(s.(tokenKey := None, uid := None, storage := s.storage - {STORAGE_NAME}), Unauthenticated)
  }

  /** The state of `on_signin`. */
  function SignedIn(s: AuthState, uid: UserId, authKey: string): (r: AuthState)
    ensures r.phase == Authenticated && r.tokenKey == Some(authKey) && r.uid == Some(uid)
    ensures STORAGE_NAME in r.storage && r.storage[STORAGE_NAME] == authKey
    ensures forall k :: k != STORAGE_NAME ==> (k in r.storage <==> k in s.storage)
    ensures forall k :: k in s.storage && k != STORAGE_NAME ==> r.storage[k] == s.storage[k]
  {
    WithPhase(s.(storage := s.storage[STORAGE_NAME := authKey], uid := Some(uid), tokenKey := Some(authKey)),
             Authenticated)
  }

  /** The state of `check`, given the answer of the check endpoint. */
  function Checked(s: AuthState, answer: ApiResult<UserId>): (r: AuthState)
    ensures r.tokenKey == s.tokenKey && r.storage == s.storage
    ensures answer.Ok? ==> r.phase == Authenticated && r.uid == Some(answer.value)
    ensures answer.Err? ==> r.phase == Unauthenticated && r.uid == s.uid
  {
    match answer
    case Ok(uid) => WithPhase(s.(uid := Some(uid)), Authenticated)
    case Err(_) => WithPhase(s, Unauthenticated)
  }

  /** The state of `signout`: cleared only when the server confirmed it. */
  function SignedOut(s: AuthState, answer: ApiResult<()>): (r: AuthState)
    ensures answer.Ok? ==> r == Cleared(s)
    ensures answer.Err? ==> r == s
  {
    if answer.Ok? then Cleared(s) else s
  }

  class Auth {
    var phase: AuthPhase
    var tokenKey: Option<string>
    var uid: Option<UserId>
    var storage: map<string, string>
    var changes: seq<AuthPhase>

    function State(): AuthState
      reads this
    {
      AuthState(phase, tokenKey, uid, storage, changes)
    }

    /** The singleton starts in `Init`, over whatever the browser has stored. */
    constructor (storage: map<string, string>)
      ensures State() == AuthState(Init, None, None, storage, [])
    {
      phase := Init;
      tokenKey := None;
      uid := None;
      this.storage := storage;
      changes := [];
    }

    method SetPhase(p: AuthPhase)
      modifies this
      ensures State() == WithPhase(old(State()), p)
    {
      if phase != p {
        phase := p;
        changes := changes + [p];
      }
    }

    /** `clear` */
    method Clear()
      modifies this
      ensures State() == Cleared(old(State()))
    {
      tokenKey := None;
      uid := None;
      storage := storage - {STORAGE_NAME};
      SetPhase(Unauthenticated);
    }

    /** `signout`, given the server's answer: a failure is passed on and changes nothing. */
    method Signout(answer: ApiResult<()>) returns (r: ApiResult<()>)
      modifies this
      ensures r == answer
      ensures State() == SignedOut(old(State()), answer)
    {
      if answer.Err? {
        return answer;
      }
      Clear();
      r := answer;
    }

    /** `on_signin` */
    method OnSignin(uid: UserId, authKey: string) returns (r: ApiResult<()>)
      modifies this
      ensures r == Ok(())
      ensures State() == SignedIn(old(State()), uid, authKey)
    {
      storage := storage[STORAGE_NAME := authKey];
      this.uid := Some(uid);
      tokenKey := Some(authKey);
      SetPhase(Authenticated);
      r := Ok(());
    }

    /** `check`, given the answer of the check endpoint. */
    method Check(answer: ApiResult<UserId>)
      modifies this
      ensures State() == Checked(old(State()), answer)
    {
      match answer
      case Ok(id) =>
        uid := Some(id);
        SetPhase(Authenticated);
      case Err(_) =>
        SetPhase(Unauthenticated);
    }
  }

  /** Clearing twice is clearing once, and the second clear announces nothing. */
  lemma ClearIsIdempotent(s: AuthState)
    ensures Cleared(Cleared(s)) == Cleared(s)
  {
    assert Cleared(s).storage - {STORAGE_NAME} == Cleared(s).storage;
  }

  /** Signing in again with the same user and key changes nothing. */
  lemma SigninIsIdempotent(s: AuthState, uid: UserId, authKey: string)
    ensures SignedIn(SignedIn(s, uid, authKey), uid, authKey) == SignedIn(s, uid, authKey)
  {
    var once := SignedIn(s, uid, authKey);
    assert once.storage[STORAGE_NAME := authKey] == once.storage;
  }

  /** A repeated check with the same answer changes nothing. */
  lemma CheckIsIdempotent(s: AuthState, answer: ApiResult<UserId>)
    ensures Checked(Checked(s, answer), answer) == Checked(s, answer)
  {
  }

  /** After a sign-in, signing out with the server's confirmation forgets the key, in memory and in storage. */
  lemma SignoutForgetsSignin(s: AuthState, uid: UserId, authKey: string)
    ensures var r := SignedOut(SignedIn(s, uid, authKey), Ok(()));
      r.phase == Unauthenticated && r.tokenKey.None? && r.uid.None? && STORAGE_NAME !in r.storage
    ensures SignedOut(SignedIn(s, uid, authKey), Err(Unknown(""))) == SignedIn(s, uid, authKey)
  {
  }

  /** A failed check after a sign-in leaves the key in place, though the phase is Unauthenticated. */
  lemma FailedCheckKeepsKey(s: AuthState, uid: UserId, authKey: string, e: ApiError)
    ensures var r := Checked(SignedIn(s, uid, authKey), Err(e));
      r.phase == Unauthenticated && r.tokenKey == Some(authKey) && r.storage[STORAGE_NAME] == authKey
  {
  }

  /** Every announced phase differs from the one before it. */
  lemma {:induction false} AnnouncedPhasesAlternate(s: AuthState, p: AuthPhase)
    requires forall i :: 0 < i < |s.changes| ==> s.changes[i] != s.changes[i - 1]
    requires |s.changes| > 0 ==> s.changes[|s.changes| - 1] == s.phase
    ensures var r := WithPhase(s, p);
      (forall i :: 0 < i < |r.changes| ==> r.changes[i] != r.changes[i - 1])
      && (|r.changes| > 0 ==> r.changes[|r.changes| - 1] == r.phase)
  {
    var r := WithPhase(s, p);
    if s.phase != p {
      assert r.changes == s.changes + [p];
      forall i | 0 < i < |r.changes| ensures r.changes[i] != r.changes[i - 1] {
        if i == |s.changes| {
          assert r.changes[i - 1] == s.changes[|s.changes| - 1];
        } else {
          assert r.changes[i] == s.changes[i] && r.changes[i - 1] == s.changes[i - 1];
        }
      }
    }
  }
}
