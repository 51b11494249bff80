/**
 * The `telegram_destination` table: the Telegram chats a user has linked,
 * each stored with a kind code (1 a private chat, 2 a group). The table is a
 * sequence of rows; every statement is a filter or an append over it.
 */
module DestinationDb {
  import opened Wrappers
  import opened ApiResult
  import Uuid
  import Accounts
  import opened ActionTypes

  datatype DestinationRow = DestinationRow(id: DestinationId, name: string, userId: Accounts.UserId, chatId: int, kind: int)

  const KIND_DM: int := 1
  const KIND_GROUP: int := 2

  /** The codes `insert` writes; `From` reaches `unreachable!()` on any other. */
  predicate KnownKind(row: DestinationRow) {
    row.kind == KIND_DM || row.kind == KIND_GROUP
  }

  /** The kind code and chat id `insert` stores for a destination kind. */
  function KindCode(kind: DestinationKind): (code: int)
    ensures code == KIND_DM <==> kind.TelegramDm?
    ensures code == KIND_GROUP <==> kind.TelegramGroup?
  {
    match kind
    case TelegramDm(_) => KIND_DM
    case TelegramGroup(_) => KIND_GROUP
  }

  /** The kind a stored code and chat id stand for. */
  function DecodeKind(code: int, chatId: int): (kind: DestinationKind)
    requires code == KIND_DM || code == KIND_GROUP
    ensures kind.chatId == chatId && KindCode(kind) == code
  {
    if code == KIND_DM then TelegramDm(chatId) else TelegramGroup(chatId)
  }

  /** `From<TelegramDestinationDb> for ActionDestination` */
  function Decode(row: DestinationRow): (d: ActionDestination)
    requires KnownKind(row)
    ensures d.id == row.id && d.name == row.name
    ensures d.kind.chatId == row.chatId && KindCode(d.kind) == row.kind
  {
    ActionDestination(row.id, row.name, DecodeKind(row.kind, row.chatId))
  }

  /** The row `insert` writes. */
  function Encode(id: DestinationId, userId: Accounts.UserId, name: string, kind: DestinationKind): (row: DestinationRow)
    ensures KnownKind(row) && row.id == id && row.userId == userId && row.name == name
  {
    DestinationRow(id, name, userId, kind.chatId, KindCode(kind))
  }

  /** What `insert` stores is read back as the same destination. */
  lemma DecodeEncode(id: DestinationId, userId: Accounts.UserId, name: string, kind: DestinationKind)
    ensures Decode(Encode(id, userId, name, kind)) == ActionDestination(id, name, kind)
  {
  }

  /** Decoding loses nothing but the owner: rows with known kinds and the same owner decode equal only if equal. */
  lemma DecodeInjective(a: DestinationRow, b: DestinationRow)
    requires KnownKind(a) && KnownKind(b) && a.userId == b.userId
    requires Decode(a) == Decode(b)
    ensures a == b
  {
  }

  /** The rows owned by `userId`, in table order (`WHERE user_id = ?1`). */
  function Owned(rows: seq<DestinationRow>, userId: Accounts.UserId): (r: seq<DestinationRow>)
    ensures forall x :: x in r <==> x in rows && x.userId == userId
    ensures |r| <= |rows|
  {
    if |rows| == 0 then []
    else if rows[0].userId == userId then [rows[0]] + Owned(rows[1..], userId)
    else Owned(rows[1..], userId)
  }

  function DecodeAll(rows: seq<DestinationRow>): (r: seq<ActionDestination>)
    requires forall i :: 0 <= i < |rows| ==> KnownKind(rows[i])
    ensures |r| == |rows| && forall i :: 0 <= i < |rows| ==> r[i] == Decode(rows[i])
  {
    if |rows| == 0 then [] else [Decode(rows[0])] + DecodeAll(rows[1..])
  }

  /** The position of the first row with this id and owner, if any. */
  function FindOwned(rows: seq<DestinationRow>, id: DestinationId, userId: Accounts.UserId): (r: Option<nat>)
    ensures r.None? <==> forall i :: 0 <= i < |rows| ==> !(rows[i].id == id && rows[i].userId == userId)
    ensures r.Some? ==> r.value < |rows| && rows[r.value].id == id && rows[r.value].userId == userId
  {
    if |rows| == 0 then None
    else if rows[0].id == id && rows[0].userId == userId then Some(0)
    else match FindOwned(rows[1..], id, userId)
      case None => None
      case Some(k) => Some(k + 1)
  }

  predicate OwnsDestination(rows: seq<DestinationRow>, userId: Accounts.UserId, id: DestinationId) {
    exists i :: 0 <= i < |rows| && rows[i].id == id && rows[i].userId == userId
  }

  /** The error of a destination lookup that found no row. */
  function NoSuchDestination(id: DestinationId, userId: Accounts.UserId): ApiError {
    Unknown("no such destination with id " + Uuid.Display(id) + " and user_id " + Uuid.Display(userId))
  }

  class DestinationTable {
    var rows: seq<DestinationRow>

    /** Every stored kind code is known and ids are the primary key. */
    ghost predicate Valid()
      reads this
    {
      (forall i :: 0 <= i < |rows| ==> KnownKind(rows[i]))
      && (forall i, j :: 0 <= i < j < |rows| ==> rows[i].id != rows[j].id)
    }

    constructor ()
      ensures Valid() && rows == []
    {
      rows := [];
    }

    /** `load_with_user_id`: the row with this id, and only if `userId` owns it. */
    method LoadWithUserId(id: DestinationId, userId: Accounts.UserId) returns (r: ApiResult<DestinationRow>)
      ensures r.Ok? <==> OwnsDestination(rows, userId, id)
      ensures r.Ok? ==> r.value in rows && r.value.id == id && r.value.userId == userId
      ensures r.Err? ==> r.error == NoSuchDestination(id, userId)
    {
      match FindOwned(rows, id, userId)
      case None =>
        r := Err(NoSuchDestination(id, userId));
      case Some(k) =>
        r := Ok(rows[k]);
    }

    /** `exists_by_user_chat_id` */
    method ExistsByUserChatId(userId: Accounts.UserId, chatId: int) returns (r: ApiResult<bool>)
      ensures r == Ok(exists i :: 0 <= i < |rows| && rows[i].userId == userId && rows[i].chatId == chatId)
    {
      r := Ok(exists i :: 0 <= i < |rows| && rows[i].userId == userId && rows[i].chatId == chatId);
    }

    /** `insert`: one new row under a fresh id, with the kind's code and chat id. */
    method Insert(id: DestinationId, userId: Accounts.UserId, name: string, kind: DestinationKind)
      returns (r: ApiResult<()>)
      requires Valid() && forall i :: 0 <= i < |rows| ==> rows[i].id != id
      modifies this
      ensures Valid() && r == Ok(())
      ensures rows == old(rows) + [Encode(id, userId, name, kind)]
    {
      rows := rows + [Encode(id, userId, name, kind)];
      r := Ok(());
    }

    /** `list`: exactly the user's destinations. */
    method List(userId: Accounts.UserId) returns (r: ApiResult<seq<ActionDestination>>)
      requires Valid()
      ensures r == Ok(DecodeAll(Owned(rows, userId)))
    {
      r := Ok(DecodeAll(Owned(rows, userId)));
    }
  }

  /** A listed destination is one of the user's rows, and every one of the user's rows is listed. */
  lemma {:induction false} ListIsExactlyOwned(rows: seq<DestinationRow>, userId: Accounts.UserId, d: ActionDestination)
    requires forall i :: 0 <= i < |rows| ==> KnownKind(rows[i])
    ensures d in DecodeAll(Owned(rows, userId)) <==> exists x :: x in rows && x.userId == userId && Decode(x) == d
  {
    var owned := Owned(rows, userId);
    var listed := DecodeAll(owned);
    if d in listed {
      var k :| 0 <= k < |listed| && listed[k] == d;
      assert owned[k] in owned;
    }
    if exists x :: x in rows && x.userId == userId && Decode(x) == d {
      var x :| x in rows && x.userId == userId && Decode(x) == d;
      assert x in owned;
      var k :| 0 <= k < |owned| && owned[k] == x;
      assert listed[k] == d;
    }
  }

  /** After `insert`, the new chat counts as linked for its owner. */
  lemma InsertedIsLinked(rows: seq<DestinationRow>, id: DestinationId, userId: Accounts.UserId,
                         name: string, kind: DestinationKind)
    ensures var after := rows + [Encode(id, userId, name, kind)];
      exists i :: 0 <= i < |after| && after[i].userId == userId && after[i].chatId == kind.chatId
  {
    var after := rows + [Encode(id, userId, name, kind)];
    assert after[|rows|].userId == userId;
  }
}
