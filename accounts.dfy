/**
 * The account tables the authentication core reads and writes: users with
 * their revocation token, voice-assistant (omi) accounts and Telegram
 * accounts, each linked to a user. Every statement reaches the database;
 * the `Need to register` messages are the errors of a missing row.
 */
module Accounts {
  import opened Wrappers
  import opened ApiResult
  import Text
  import Uuid

  type UserId = Uuid.Uuid

  datatype UserAccount = UserAccount(id: UserId, userToken: string)
  datatype OmiAccount = OmiAccount(id: string, userId: UserId)
  datatype TelegramAccount = TelegramAccount(id: int, userId: UserId, firstName: string, username: Option<string>)

  /** How a user id is shown in messages (`Display` of the UUID). */
  function UserIdText(id: UserId): string {
    Uuid.Display(id)
  }

  /** The error of a lookup that found no row. */
  function NeedToRegister(what: string): ApiError {
    Unknown("Need to register (" + what + ")")
  }

  /** The first name a new Telegram account gets until a message tells the real one. */
  function PlaceholderName(id: int): string {
    "user " + Text.IntToString(id)
  }

  /**
   * `update_name` as written: without a username only the first name is
   * written, so a username the user has removed stays stored.
   */
  function RenamedAsWritten(account: TelegramAccount, firstName: string, username: Option<string>): (a: TelegramAccount)
    ensures a.firstName == firstName && a.id == account.id && a.userId == account.userId
    ensures username.Some? ==> a.username == username
    ensures username.None? ==> a.username == account.username
  {
    match username
    case Some(_) => account.(firstName := firstName, username := username)
    case None => account.(firstName := firstName)
  }

  /** The rename as intended: the stored names become the sender's names. */
  function Renamed(account: TelegramAccount, firstName: string, username: Option<string>): (a: TelegramAccount)
    ensures a.firstName == firstName && a.username == username
    ensures a.id == account.id && a.userId == account.userId
  {
    account.(firstName := firstName, username := username)
  }

  /** As written, a sender who dropped their username keeps the old one on record. */
  lemma AsWrittenKeepsDroppedUsername(account: TelegramAccount, firstName: string)
    requires account.username.Some?
    ensures RenamedAsWritten(account, firstName, None).username == account.username
    ensures Renamed(account, firstName, None).username == None
  {
  }

  class AccountDb {
    var users: map<UserId, UserAccount>
    var omi: map<string, OmiAccount>
    var telegram: map<int, TelegramAccount>

    /** Rows are stored under their own ids. */
    ghost predicate Valid()
      reads this
    {
      (forall id :: id in users ==> users[id].id == id)
      && (forall id :: id in omi ==> omi[id].id == id)
      && (forall id :: id in telegram ==> telegram[id].id == id)
    }

    constructor ()
      ensures Valid() && users == map[] && omi == map[] && telegram == map[]
    {
      users := map[];
      omi := map[];
      telegram := map[];
    }

    /** `UserAccount::load` */
    method LoadUser(id: UserId) returns (r: ApiResult<UserAccount>)
      ensures id in users ==> r == Ok(users[id])
      ensures id !in users ==> r == Err(NeedToRegister("id " + UserIdText(id)))
    {
      if id in users {
        r := Ok(users[id]);
      } else {
        r := Err(NeedToRegister("id " + UserIdText(id)));
      }
    }

    /** `UserAccount::insert`: a new user under a fresh id. */
    method InsertUser(id: UserId, userToken: string) returns (r: ApiResult<()>)
      requires Valid() && id !in users
      modifies this
      ensures Valid() && r == Ok(())
      ensures users == old(users)[id := UserAccount(id, userToken)]
      ensures omi == old(omi) && telegram == old(telegram)
    {
      users := users[id := UserAccount(id, userToken)];
      r := Ok(());
    }

    /** `UserAccount::update_user_token`: an update of a missing user changes no row. */
    method UpdateUserToken(id: UserId, userToken: string) returns (r: ApiResult<()>)
      requires Valid()
      modifies this
      ensures Valid() && r == Ok(())
      ensures id in old(users) ==> users == old(users)[id := UserAccount(id, userToken)]
      ensures id !in old(users) ==> users == old(users)
      ensures omi == old(omi) && telegram == old(telegram)
    {
      if id in users {
        users := users[id := UserAccount(id, userToken)];
      }
      r := Ok(());
    }

    /** `OmiAccount::load` */
    method LoadOmi(id: string) returns (r: ApiResult<OmiAccount>)
      ensures id in omi ==> r == Ok(omi[id])
      ensures id !in omi ==> r == Err(NeedToRegister("omi id " + id))
    {
      if id in omi {
        r := Ok(omi[id]);
      } else {
        r := Err(NeedToRegister("omi id " + id));
      }
    }

    /** `OmiAccount::exists` */
    method OmiExists(id: string) returns (r: ApiResult<bool>)
      ensures r == Ok(id in omi)
    {
      r := Ok(id in omi);
    }

    /** `OmiAccount::insert` */
    method InsertOmi(id: string, uid: UserId) returns (r: ApiResult<()>)
      requires Valid() && id !in omi
      modifies this
      ensures Valid() && r == Ok(())
      ensures omi == old(omi)[id := OmiAccount(id, uid)]
      ensures users == old(users) && telegram == old(telegram)
    {
      omi := omi[id := OmiAccount(id, uid)];
      r := Ok(());
    }

    /** `TelegramAccount::load` */
    method LoadTelegram(id: int) returns (r: ApiResult<TelegramAccount>)
      ensures id in telegram ==> r == Ok(telegram[id])
      ensures id !in telegram ==> r == Err(NeedToRegister("tg " + Text.IntToString(id)))
    {
      if id in telegram {
        r := Ok(telegram[id]);
      } else {
        r := Err(NeedToRegister("tg " + Text.IntToString(id)));
      }
    }

    /** `TelegramAccount::load_by_user_id`: some Telegram account of the user (the query has no order). */
    method LoadTelegramByUserId(uid: UserId) returns (r: ApiResult<TelegramAccount>)
      requires Valid()
      ensures r.Ok? ==> r.value.id in telegram && telegram[r.value.id] == r.value && r.value.userId == uid
      ensures r.Err? <==> forall id :: id in telegram ==> telegram[id].userId != uid
      ensures r.Err? ==> r.error == NeedToRegister("user_id " + UserIdText(uid))
    {
      if id :| id in telegram && telegram[id].userId == uid {
        r := Ok(telegram[id]);
      } else {
        r := Err(NeedToRegister("user_id " + UserIdText(uid)));
      }
    }

    /** `TelegramAccount::update_name`: the first name always, the username only when one is given. */
    method UpdateTelegramName(id: int, firstName: string, username: Option<string>) returns (r: ApiResult<()>)
      requires Valid()
      modifies this
      ensures Valid() && r == Ok(())
      ensures id in old(telegram) ==> telegram == old(telegram)[id := RenamedAsWritten(old(telegram[id]), firstName, username)]
      ensures id !in old(telegram) ==> telegram == old(telegram)
      ensures users == old(users) && omi == old(omi)
    {
      if id in telegram {
        telegram := telegram[id := RenamedAsWritten(telegram[id], firstName, username)];
      }
      r := Ok(());
    }

    /** `TelegramAccount::exists` */
    method TelegramExists(id: int) returns (r: ApiResult<bool>)
      ensures r == Ok(id in telegram)
    {
      r := Ok(id in telegram);
    }

    /** `TelegramAccount::insert`: a placeholder name, no username. */
    method InsertTelegram(id: int, uid: UserId) returns (r: ApiResult<()>)
      requires Valid() && id !in telegram
      modifies this
      ensures Valid() && r == Ok(())
      ensures telegram == old(telegram)[id := TelegramAccount(id, uid, PlaceholderName(id), None)]
      ensures users == old(users) && omi == old(omi)
    {
      telegram := telegram[id := TelegramAccount(id, uid, PlaceholderName(id), None)];
      r := Ok(());
    }
  }
}
